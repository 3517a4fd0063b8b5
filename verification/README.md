# blute, modelled in Dafny

blute is a terminal flower-breeding game. This project models its core in Dafny:

- the Mendelian genetics engine: trits, genotypes, crossing, and the base-3 genotype index;
- the UI's grids: cutting a template into cells, the display buffer and stamping into it;
- the planting board, in both its current (`usize`) and older (`u8`/`i8`) versions;
- the seed shop, with its inverted y axis and its two-row scrolling view;
- the key dispatch and per-frame update of the game context;
- ANSI styling: 256-colour palette codes and SGR escape sequences;
- the static ACNH flower catalogue: colour names, species data, seeds and phenotypes.

Each source file is one Dafny module:

| module | source file |
|---|---|
| `Genetics` | `src/genetics.rs` |
| `Ui` | `src/ui.rs` |
| `UiDisplay` | `src/ui/display.rs` |
| `UiBoard` | `src/ui/board.rs` |
| `LegacyBoard` | `src/board.rs` |
| `UiShop` | `src/ui/shop.rs` |
| `Terminal` | `src/ui/terminal.rs` |
| `GameContext` | `src/context.rs` |
| `Flowers` | `src/flowers/flower.rs` |
| `AcnhFlowers` | `src/flowers/acnh_flowers.rs` |

`Wrappers` (Option, Result and `u8`) and `SeqUtil` (flatten, reverse, Rust's `clamp`, counting) are shared helpers.

Conventions:

- **Randomness is an argument.** A genotype cross takes `picks: nat -> (Pick, Pick)`. Position `i` uses allele `picks(i).0` of the first parent's pair and allele `picks(i).1` of the second's. A random genotype takes `draws: nat -> Trit`.
- **Panics.** Panics that only a wrong caller can trigger are preconditions. These are `to_grid` with a row length of 0, `stamp_row` on a missing row, `as_index` on an empty genotype, a shop with no seed rows, and `clamp` with `min > max`. Panics that depend on data are `Result` errors. These are template parsing (`Display::new`) and the phenotype table lookups.
- **Flowers are abstract.** The UI treats a flower as an opaque type `F`, and its rendering is the parameter `render`. The flower files' genotype type is the parameter `G`. Its operations (`new`, `into_index`, `can_cross`, `cross_with`) are the function values in `Flowers.GenotypeOps`.
- **Integer widths.** Integer widths are explicit where they matter. The legacy board reads `u8` coordinates as `i8` (`LegacyBoard.AsI8`). `Display::new` measures the board side in UTF-8 bytes (`char_indices`) but the row width in characters.

How the genetics code fits together:

- `src/genetics.rs` defines a `Genotype` trait (`new`, `length`, `cross`, `as_index`) and one implementation of it, the Mendelian `MendelianGenotype`. It has no other gene model.
- The flower files call a concrete `Genotype` with `into_index`, `can_cross` and `cross_with`, and the types `Gene`, `GeneType` and `MendelianGene`. None of these is defined in `src/genetics.rs`, so that API stays abstract here.
- `MendelianGenotype::cross` reports genotypes of different lengths by returning `None`.

## Model

| member | source | states |
|---|---|---|
| Genetics.TritNew | src/genetics.rs:27-29 | a trit exists exactly for the values 0, 1 and 2, and keeps the value |
| Genetics.FromBools | src/genetics.rs:35-41 | the trit of an allele pair is its number of dominant alleles |
| Genetics.AsBools | src/genetics.rs:43-50 | the pair has exactly `t` dominant alleles, dominant first, and `from_bools` gives `t` back |
| Genetics.FromBoolsOrderInsensitive | src/genetics.rs:35-41 | the allele order does not matter: a mixed pair is 1 either way round |
| Genetics.TritCross | src/genetics.rs:52-56 | the child trit is the picked allele of each parent, counted as dominant or not, and is always a valid trit |
| Genetics.ContributionRange | src/genetics.rs:43-56 | a parent can pass on a dominant allele exactly when it has one, and a recessive one exactly when it has one |
| Genetics.TritCrossOutcomes | src/genetics.rs:52-56 | a child value is reachable by some pair of picks exactly when it lies between the parents' minimum and maximum contributions (the Punnett square) |
| Genetics.TritCrossHomozygous | src/genetics.rs:153-155 | 2×2 gives 2, 0×0 gives 0 and 2×0 gives 1, whatever the picks |
| Genetics.TritCrossMirror | src/genetics.rs:52-56 | swapping the parents and their picks gives the same child |
| Genetics.New | src/genetics.rs:74-80 | a genotype is built exactly when every value is at most 2, and `as_u8_vec` of it gives the values back |
| Genetics.AsU8Vec | src/genetics.rs:108-110 | the values are the genes in order, all at most 2 |
| Genetics.Length | src/genetics.rs:126-128 | the number of genes |
| Genetics.NewKeepsValues | src/genetics.rs:74-80 | valid values become the genes unchanged |
| Genetics.Random | src/genetics.rs:82-90 | the result has exactly `length` genes, gene `i` is draw `i`, and the `unwrap` cannot fail |
| Genetics.Cross | src/genetics.rs:92-106 | `None` exactly when the lengths differ; otherwise the same length, and each gene is the trit cross of the parents' genes at that position |
| Genetics.CrossIsPositionwise | src/genetics.rs:92-106 | gene `i` of a cross is the trit cross of the two genes `i` under pick `i` |
| Genetics.CrossMirror | src/genetics.rs:92-106 | crossing b with a under mirrored picks equals crossing a with b |
| Genetics.CrossGenomesParents | src/genetics.rs:160-162 | the test's three genotypes are valid |
| Genetics.CrossGenomesExample | src/genetics.rs:159-164 | [0,0,2,2] crossed with [2,0,2,0] gives [1,0,2,1] under every choice of picks |
| Genetics.AsIndex | src/genetics.rs:130-138 | the index is Σ gene[i]·3^(n−1−i) with gene 0 most significant, it is below 3^n, and an empty genotype is excluded |
| Genetics.PositionalValueAppend | src/genetics.rs:130-138 | appending a least significant digit triples the index and adds the digit |
| Genetics.PositionalValueBound | src/genetics.rs:130-138 | n genes give an index below 3^n |
| Genetics.IndexOfFromIndex | src/genetics.rs:130-138 | every k below 3^n is the index of its n-digit base-3 expansion |
| Genetics.FromIndexOfIndex | src/genetics.rs:130-138 | the base-3 expansion of a genotype's index gives back its genes |
| Genetics.IndexInjective | src/genetics.rs:130-138 | two genotypes of one length with the same index are equal |
| Genetics.IndexSurjective | src/genetics.rs:130-138 | every number below 3^n is the index of some genotype of length n |
| Genetics.IndexExample | src/genetics.rs:130-138 | the genes [2,0,0,1] have index 55 |
| Ui.Cells | src/ui.rs:12 | each character becomes its own one-character cell, and the cells concatenate back to the string |
| Ui.ToGrid | src/ui.rs:8-14 | reading the cells back in row order gives the string; every cell is one character; every row but the last has k cells and the last has 1..k; no rows exactly for the empty string; k > 0 |
| Ui.CellsShift | src/ui.rs:8-14 | cell j of row i holds character i·k + j once the first row is put in front of the rest |
| Ui.EmptyStringGrid | src/ui.rs:16-18 | h rows of w cells, each `" "` |
| UiDisplay.TakeWhileNot | src/ui/display.rs:14-17 | the longest prefix without `#`, followed by `#` or the end |
| UiDisplay.Position | src/ui/display.rs:18-25 | the first occurrence of the character, or `None` exactly when there is none |
| UiDisplay.SecondPosition | src/ui/display.rs:26-33 | the second occurrence, or `None` exactly when there are fewer than two |
| UiDisplay.AsciiByteOffset | src/ui/display.rs:26-33 | in an ASCII template, byte offsets equal character indices |
| UiDisplay.New | src/ui/display.rs:13-41 | it fails exactly when there is no newline, or fewer than two `+`, or the template starts `++` (the side offset/2 − 1 underflows); on success: the width is the first newline's index plus one, the height is the number of newlines, the cells are `to_grid` of the prefix at that width (one character each, reading back as the prefix), every row but the last is one width long, and the board is square with side offset/2 − 1 |
| UiDisplay.UnderflowOnlyAtOffsetOne | src/ui/display.rs:26-33 | the side computation underflows only when the template starts `++` |
| UiDisplay.NewHasRows | src/ui/display.rs:18-25 | a parsed display has at least one row |
| UiDisplay.BoardSize | src/ui/display.rs:69-71 | the board size that the template leaves room for |
| UiDisplay.NewBoardIsSquare | src/ui/display.rs:69-71 | `board_size` of a parsed display is square |
| UiDisplay.Overwrite | src/ui/display.rs:44-52 | the zip overwrites the first min(\|row\|, \|cells\|) cells and keeps the rest |
| UiDisplay.StampCells | src/ui/display.rs:44-52 | cell x+k takes row[k] while both exist; the row keeps its length and other cells |
| UiDisplay.StampRow | src/ui/display.rs:43-53 | only display row `start.1` changes, in the stamped cells; that row must exist |
| UiDisplay.Stamp | src/ui/display.rs:55-59 | display row y+i is row y+i stamped with `grid[i]`; rows outside the window and the sizes are unchanged |
| UiDisplay.ToString | src/ui/display.rs:73-84 | every cell of every row, in order |
| UiDisplay.RowStringsConcat | src/ui/display.rs:73-84 | joining the joined rows is flattening twice |
| UiDisplay.NewToString | src/ui/display.rs:13-41 | `to_string` (lines 73-84) of a freshly parsed display gives back the template up to its first `#` |
| UiBoard.SelectedBlueprint | src/ui/board.rs:21-25 | background palette colour 236, no text colour, no effects |
| UiBoard.New | src/ui/board.rs:27-41 | `None` exactly for a zero dimension; otherwise h rows of w empty cells with the cursor at (0,0) |
| UiBoard.GetFlower | src/ui/board.rs:49-51 | `None` exactly off the board, otherwise the cell |
| UiBoard.SetFlower | src/ui/board.rs:57-61 | on the board only the addressed cell changes; off the board nothing changes |
| UiBoard.GetAfterSet | src/ui/board.rs:49-61 | reading after writing sees the write exactly at the written in-bounds position |
| UiBoard.SetFlowerAtCursor | src/ui/board.rs:63-65 | it is `set_flower` at the cursor |
| UiBoard.MoveCursor | src/ui/board.rs:88-94 | each coordinate is clamp(old + d, 0, size − 1), so the cursor ends on the board and the cells do not change |
| UiBoard.MoveCursorWithinBoard | src/ui/board.rs:88-94 | a step that stays on the board lands exactly on its target |
| UiBoard.BlankFlower | src/ui/board.rs:43-47 | an empty cell is `-` in palette colour 244 (grey 12) |
| UiBoard.FlowerString | src/ui/board.rs:67-82 | the flower or the blank, wrapped in the selection blueprint exactly at the cursor |
| UiBoard.SpaceBefore | src/ui/board.rs:101-107 | a space before every cell, doubling the length |
| UiBoard.RenderRow | src/ui/board.rs:96-110 | cell x of a row is the flower string at (x, y) |
| UiBoard.ToGrid | src/ui/board.rs:96-110 | output row i is board row h−1−i, as `[" ", c0, " ", c1, …]` of length 2w |
| LegacyBoard.AsI8 | src/board.rs:81-82 | `as i8` keeps the value modulo 256 |
| LegacyBoard.New | src/board.rs:27-41 | `None` exactly for a zero dimension; otherwise empty cells with the cursor at (0,0) |
| LegacyBoard.GetFlower | src/board.rs:49-51 | `None` exactly off the board, otherwise the cell |
| LegacyBoard.SetFlower | src/board.rs:53-61 | only the addressed cell changes, and nothing changes off the board |
| LegacyBoard.GetAfterSet | src/board.rs:49-61 | reading after writing sees the write exactly at the written in-bounds position |
| LegacyBoard.SetCursor | src/board.rs:76-78 | the position is stored as given, with no bounds check |
| LegacyBoard.MoveCursor | src/board.rs:80-84 | each coordinate, read as `i8`, is clamped to [0, size − 1], which needs dimensions of at most 127 and no `i8` overflow |
| LegacyBoard.MoveCursorOnBoard | src/board.rs:80-84 | from a cursor on a board of at most 127 cells a side, a move is the plain clamped step |
| LegacyBoard.MoveAfterFarSetCursor | src/board.rs:76-84 | a cursor set to column 200 reads as −56, so a step right sends it to column 0 |
| UiShop.New | src/ui/shop.rs:21-35 | the seed rows reversed, the size (width of the last seed row, row count), the cursor at (0,0); there must be a seed row |
| UiShop.NewWellShaped | src/ui/shop.rs:21-35 | seed rows of one width give a consistent shop whose cursor starts on a seed |
| UiShop.MoveCursor | src/ui/shop.rs:41-47 | x becomes clamp(x + dx) and y becomes clamp(y − dy), so the y axis is inverted |
| UiShop.MoveCursorStaysInShop | src/ui/shop.rs:41-47 | in a consistent shop every move ends on a seed |
| UiShop.MoveUpIsPreviousRow | src/ui/shop.rs:41-47 | up moves to the previous stored row |
| UiShop.SelectedFlower | src/ui/shop.rs:88-92 | the seed under the cursor, `None` exactly off the shop |
| UiShop.NewSelectsLastRowFirstSeed | src/ui/shop.rs:21-35 | a new shop selects the first seed of the last seed row |
| UiShop.FirstRowIndex | src/ui/shop.rs:50 | the first shown row leaves room for a second row when there is one |
| UiShop.CursorRowShown | src/ui/shop.rs:50 | the view always contains the cursor row |
| UiShop.RenderRow | src/ui/shop.rs:55-66 | cell x is the seed at (x, original y), highlighted exactly at the cursor |
| UiShop.SpaceAfter | src/ui/shop.rs:77-85 | a space after every cell, doubling the length |
| UiShop.SpacedRowShows | src/ui/shop.rs:72-85 | a padded, spaced row shows its seeds at even positions and blanks elsewhere |
| UiShop.BlankRow | src/ui/shop.rs:71-85 | the inserted row is 3 (or 4 when padded) blank cells, spaced |
| UiShop.ToGrid | src/ui/shop.rs:49-86 | one more output row than shown shop rows (at most two) |
| UiShop.ToGridFirstRow | src/ui/shop.rs:49-86 | output row 0 shows shop row f = clamp(y, 0, len−2) |
| UiShop.ToGridBlankRow | src/ui/shop.rs:71 | output row 1 is the blank row |
| UiShop.ToGridSecondRow | src/ui/shop.rs:49-86 | with two or more shop rows, output row 2 shows row f+1 |
| Terminal.FromCode | src/ui/terminal.rs:19-21 | the colour holds the given palette code |
| Terminal.NewBlueprint | src/ui/terminal.rs:65-71 | no text colour, no background, no effects |
| Terminal.FromRgbCube | src/ui/terminal.rs:23-31 | defined exactly for components below 6, with a code in 16..231 |
| Terminal.RgbCubeComponents | src/ui/terminal.rs:23-31 | the code is 16 + 36r + 6g + b: the components can be read back from it |
| Terminal.RgbCubeCovers | src/ui/terminal.rs:23-31 | every code in 16..231 is some cube colour |
| Terminal.FromGrayValue | src/ui/terminal.rs:33-39 | defined exactly below 24, with code 232 + v |
| Terminal.EffectCodeInjective | src/ui/terminal.rs:48-54 | the five effect codes (1, 3, 4, 9, 21) are distinct |
| Terminal.DecimalString | src/ui/terminal.rs:101-107 | the decimal digits of n, without leading zeros |
| Terminal.WithTextColor | src/ui/terminal.rs:73-76 | sets the text colour and nothing else |
| Terminal.WithBackgroundColor | src/ui/terminal.rs:78-81 | sets the background colour and nothing else |
| Terminal.WithEffect | src/ui/terminal.rs:83-86 | appends one effect and keeps the rest |
| Terminal.WithEffects | src/ui/terminal.rs:88-91 | appends all effects in order |
| Terminal.WithEffectsIsRepeatedWithEffect | src/ui/terminal.rs:83-91 | `with_effects` is `with_effect` on each effect in turn |
| Terminal.EffectParams | src/ui/terminal.rs:106-108 | one decimal parameter per effect, in order |
| Terminal.TerminatedIsJoin | src/ui/terminal.rs:100-112 | pushing each parameter with a `;` and popping the last `;` is joining with `;` |
| Terminal.GetAnsi | src/ui/terminal.rs:97-115 | `ESC [` + the `;`-join of `38;5;t`, `48;5;b` and the effect codes + `m` |
| Terminal.NoSemicolonBeforeM | src/ui/terminal.rs:110-113 | there is never a `;` right before the `m` |
| Terminal.EmptyBlueprintAnsi | src/ui/terminal.rs:97-115 | an empty blueprint gives `ESC [m` |
| Terminal.TextColorOnlyAnsi | src/ui/terminal.rs:97-115 | a text-colour-only blueprint gives `ESC [38;5;<code>m` |
| Terminal.BackgroundOnlyAnsi | src/ui/terminal.rs:97-115 | a background-only blueprint gives `ESC [48;5;<code>m` |
| Terminal.Apply | src/ui/terminal.rs:117-122 | the escape sequence, then the text, then the reset `ESC [0m` of lines 93-95 |
| Terminal.PollKeys | src/ui/terminal.rs:144-148 | the pending keys in order; the buffer is left empty and the quit flag unchanged |
| Terminal.PollTwice | src/ui/terminal.rs:144-148 | a second poll right after a first finds nothing |
| Terminal.ShouldQuit | src/ui/terminal.rs:151-153 | true exactly when the quit flag is set |
| Terminal.PollKeepsQuit | src/ui/terminal.rs:143-153 | polling the keys does not change whether the program should quit |
| Terminal.NewKeyStackIdle | src/ui/terminal.rs:136-141 | a fresh key buffer holds no keys and does not ask to quit |
| GameContext.HandleKey | src/context.rs:60-75 | w/a/s/d move the board cursor by (0,1)/(−1,0)/(0,−1)/(1,0): the stepped coordinate is clamp(old ± 1), the other is clamped in place, and the cells and size stay. The arrows move the shop cursor the same way with y inverted, keeping its seeds and size, and always ending inside the shop. Space is `set_flower_at_cursor` with the selected seed and c is `set_flower_at_cursor` with nothing: the cell at the cursor changes, and every other cell, the grid's shape, the cursor and the size stay. Non-arrow keys leave the shop alone, non-board keys leave the board alone, and an on-board cursor stays on the board |
| GameContext.HandleKeys | src/context.rs:59-78 | the keys are handled oldest first, keeping the context usable and the board cursor on the board |
| GameContext.HandleKeysAppend | src/context.rs:59-78 | handling two batches is handling one after the other |
| GameContext.BoardKeysLeaveShop | src/context.rs:59-78 | keys without arrows never change the shop |
| GameContext.ShopKeysLeaveBoard | src/context.rs:59-78 | keys without board keys never change the board |
| GameContext.MovesKeepPlanting | src/context.rs:59-78 | without space or c the planted flowers stay as they are |
| GameContext.HandleKeysIgnoresBuffer | src/context.rs:59-78 | the key buffer plays no part in handling keys |
| GameContext.Redraw | src/context.rs:90-92 | the display is the board's `to_grid` stamped at (1,1), then the shop's `to_grid` stamped at (22,3); only those rows change and the display keeps its size |
| GameContext.Update | src/context.rs:81-97 | returns true exactly when quit is set, and then changes nothing; otherwise the keys are consumed, the quit flag stays clear, and the board and shop are the keys' effect; after a batch of keys the display is the redraw of the handled context, and without keys it is untouched |
| GameContext.UpdateSettles | src/context.rs:81-97 | right after an update that did not quit, a second update changes nothing |
| GameContext.UpDownReturns | src/context.rs:63-65 | `w` then `s` returns the board cursor when there is a row above it |
| GameContext.ShopDownUpReturns | src/context.rs:68-70 | Down then Up returns the shop cursor when there is a row after it |
| Flowers.PhenotypeToString | src/flowers/flower.rs:42-44 | the blueprint's escape sequence, the glyph alone, then the reset sequence |
| Flowers.FlowerDataGetters | src/flowers/flower.rs:55-73 | the getters return exactly the constructor's arguments |
| Flowers.GetColor | src/flowers/flower.rs:126-132 | entry i of the species' table, `None` exactly past its end |
| Flowers.MakeFlower | src/flowers/flower.rs:149-165 | the flower of the given species wrapping the given genotype |
| Flowers.SeedGenes | src/flowers/flower.rs:143-166 | three rows of three gene lists: four genes for the roses, three for the mums and the hyacinths |
| Flowers.SeedRow | src/flowers/flower.rs:147-166 | a row of three seeds of one species, built from the row's gene lists |
| Flowers.AcnhSeeds | src/flowers/flower.rs:142-167 | three rows (rose, mum, hyacinth) of three seeds, each built from its gene list |
| Flowers.SeedGeneLengths | src/flowers/flower.rs:142-167 | rose seeds have four genes; mum and hyacinth seeds have three |
| Flowers.AllSeeds | src/flowers/flower.rs:169-171 | flattening the single catalogue gives the ACNH seeds |
| Flowers.NewFlowerContext | src/flowers/flower.rs:173-178 | the context holds the given tables and the three seed rows |
| Flowers.GetPhenotypeString | src/flowers/flower.rs:180-184 | the colour name from the tag's table, `None` exactly past its end |
| Flowers.GetSeeds | src/flowers/flower.rs:186-188 | the context's seed rows |
| Flowers.NewContextSeeds | src/flowers/flower.rs:186-188 | a new context offers the catalogue seeds, roses first |
| AcnhFlowers.KnownColorNames | src/flowers/acnh_flowers.rs:11-24 | the known colour names are exactly the nine listed |
| AcnhFlowers.GetAcnhFlowerColor | src/flowers/acnh_flowers.rs:11-24 | Red 160, White 7, Purple 90, Yellow 221, Pink 211, Orange 208, Black 8, Blue 27, Green 106; every other string gives `None` |
| AcnhFlowers.ColorNamesDistinguishable | src/flowers/acnh_flowers.rs:11-24 | different names give different colours |
| AcnhFlowers.MendelianPrint | src/flowers/acnh_flowers.rs:31 | n Mendelian gene types |
| AcnhFlowers.Info | src/flowers/acnh_flowers.rs:30-37 | (likewise lines 63-70 and 96-103) fixed names and ACNH tags per species; the rose's gene print is 4 Mendelian genes, the others' 3 |
| AcnhFlowers.Genotype | src/flowers/acnh_flowers.rs:39-41 | (likewise lines 72-74 and 105-107) the wrapped genotype: rewrapping it gives the flower back |
| AcnhFlowers.SeedsFitGenePrints | src/flowers/flower.rs:142-167 | every seed's gene list is as long as its species' gene print |
| AcnhFlowers.Phenotype | src/flowers/acnh_flowers.rs:43-56 | (likewise lines 76-89 and 109-122) fails exactly when there is no index, the table is too short, or the name is unknown; otherwise the species' glyph (`@`, `⚛`, `⁑`) with the named colour as text colour only |
| AcnhFlowers.PhenotypeDefinedForCompleteTables | src/flowers/acnh_flowers.rs:43-56 | with complete tables naming only known colours, every indexed flower has a phenotype |
| AcnhFlowers.FlowerToString | src/flowers/flower.rs:81-83 | `ESC [38;5;<code>m`, the glyph, `ESC [0m`; the same failures as `phenotype` |
| AcnhFlowers.CanCross | src/flowers/flower.rs:85-90 | delegates to the two genotypes, for flowers of one species |
| AcnhFlowers.Cross | src/flowers/flower.rs:92-99 | the genotypes' cross, failing exactly where the source panics |

## Left out

- The key-polling thread, `getch`, the `Arc<Mutex>` around the key buffer and the `JoinHandle` (src/ui/terminal.rs:157-189). They are concurrency and terminal I/O. The buffer is the plain value `Terminal.KeyStackInner`.
- Every write to stdout is left out: `Display::refresh`, `Context::refresh`, the stdout lock that `Context::new` takes, the legacy `show_board`/`refresh_with`, and the `main` loop. Of the text written, only the display's joined rows (`UiDisplay.ToString`) are modelled. The per-row cursor escapes `ESC [<row>H` of `Display::refresh` and the legacy `show_board` text are not.
- The legacy board's rendering: `selected_blueprint` (src/board.rs:23-25), `blank_flower` (src/board.rs:43-47), `flower_string` (src/board.rs:63-74), `show_board` (src/board.rs:86-104) and the `flower_context` field (src/board.rs:17). `selected_blueprint`, `blank_flower` and `flower_string` give the same text as `UiBoard.SelectedBlueprint`, `UiBoard.BlankFlower` and `UiBoard.FlowerString`. `show_board` emits the top row first (`.rev()`). It joins a row's cells with a single space and no leading space, unlike `UiBoard.SpaceBefore`. It joins the rows with a newline and writes the result directly. `get_flower_mut` is folded into `LegacyBoard.SetFlower`, and likewise into `UiBoard.SetFlower`.
- `Display::reset_display`. It re-parses the full template where `new` parses the part before `#`, and what it should do is not settled.
- The serde/JSON loading of the phenotype tables and the `include_str!` of the grid template. Those files are not part of this model, so the tables (`Flowers.ACNHPhenotypes`) and the template are parameters.
- The `rand` machinery (`rand::rng`, `choose`, `Uniform`). Picks and draws are explicit arguments, so claims about probability distributions are not stated.
- The `Gene` enum, the `GeneType` variants other than `Mendelian`, and the genotype API that the flower files call. `src/genetics.rs` does not define them. The model keeps only the `GeneType` tags and the Mendelian gene states that the seeds use. The operations are the abstract `Flowers.GenotypeOps`.
- `Rc<dyn Flower>` dynamic dispatch and the `Debug` impl. The UI's flower is an opaque type, and the three species are one datatype.
- The `set_cursor` of the UI board and of the shop. Both store the position unchecked, like `LegacyBoard.SetCursor`. The shop's own `selected_blueprint` is the same blueprint as the board's, so `UiShop` uses `UiBoard.SelectedBlueprint`.
- `Context::to_string`, `get_keystack` and `board()`. They are accessors over the modelled state and the mutex.
- Genetics.AsIndex: does not model `usize` overflow. The index fits in 64 bits only up to 40 genes, and the catalogue's genotypes have 3 or 4.
- Genetics.Random: requires nothing of the draws beyond being trits. The `Uniform` distribution over 0..2 is not modelled.
- UiBoard.MoveCursor: the `as isize` casts and the `as usize` conversion back are exact here, because `usize` values of a real board fit in `isize`.
- LegacyBoard.MoveCursor: requires each dimension to be 1..127 and the stepped coordinate, read as `i8`, to stay within `i8`. Outside that, the source overflows in debug builds or hands `clamp` a minimum above its maximum.
- GameContext.Update: the display refresh after the stamping is I/O and is left out.
