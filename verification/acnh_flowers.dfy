/**
  The three catalogue species (rose, mum and hyacinth): their data, their
  genotype, their looks, and the flower behaviour every species shares
  (drawing itself, crossing).
 */
module AcnhFlowers {
  import opened Wrappers
  import opened Flowers
  import Terminal

  // -------------------------------------------------------- colour names

  /** The colour names of the phenotype tables and their palette codes. */
  const ColorTable: seq<(string, U8)> := [
    ("Red", 160), ("White", 7), ("Purple", 90), ("Yellow", 221), ("Pink", 211),
    ("Orange", 208), ("Black", 8), ("Blue", 27), ("Green", 106)]

  /** `name` is one of the nine colour names. */
  predicate KnownColor(name: string)
  {
    exists i :: 0 <= i < |ColorTable| && ColorTable[i].0 == name
  }

  /** The nine names spelled out. */
  lemma KnownColorNames(name: string)
    ensures KnownColor(name) <==>
      name in {"Red", "White", "Purple", "Yellow", "Pink", "Orange", "Black", "Blue", "Green"}
  {
    if name == "Red" {
      assert ColorTable[0].0 == name;
    } else if name == "White" {
      assert ColorTable[1].0 == name;
    } else if name == "Purple" {
      assert ColorTable[2].0 == name;
    } else if name == "Yellow" {
      assert ColorTable[3].0 == name;
    } else if name == "Pink" {
      assert ColorTable[4].0 == name;
    } else if name == "Orange" {
      assert ColorTable[5].0 == name;
    } else if name == "Black" {
      assert ColorTable[6].0 == name;
    } else if name == "Blue" {
      assert ColorTable[7].0 == name;
    } else if name == "Green" {
      assert ColorTable[8].0 == name;
    }
  }

  /**
    `get_acnh_flower_color`: the palette colour of a colour name; `None`
    for every string not among the nine names (the match is exact, so
    case matters).
   */
  function GetAcnhFlowerColor(name: string): (r: Option<Terminal.AnsiColor>)
    ensures r.Some? <==> KnownColor(name)
    ensures forall i :: 0 <= i < |ColorTable| && ColorTable[i].0 == name ==>
      r == Some(Terminal.FromCode(ColorTable[i].1))
  {
    KnownColorNames(name);
    if name == "Red" then Some(Terminal.FromCode(160))
    else if name == "White" then Some(Terminal.FromCode(7))
    else if name == "Purple" then Some(Terminal.FromCode(90))
    else if name == "Yellow" then Some(Terminal.FromCode(221))
    else if name == "Pink" then Some(Terminal.FromCode(211))
    else if name == "Orange" then Some(Terminal.FromCode(208))
    else if name == "Black" then Some(Terminal.FromCode(8))
    else if name == "Blue" then Some(Terminal.FromCode(27))
    else if name == "Green" then Some(Terminal.FromCode(106))
    else None
  }

  /** Different colour names give different colours: a drawn colour determines its name. */
  lemma ColorNamesDistinguishable(a: string, b: string)
    requires GetAcnhFlowerColor(a).Some? && GetAcnhFlowerColor(a) == GetAcnhFlowerColor(b)
    ensures a == b
  {
    var i :| 0 <= i < |ColorTable| && ColorTable[i].0 == a;
    var j :| 0 <= j < |ColorTable| && ColorTable[j].0 == b;
    assert ColorTable[i].1 == ColorTable[j].1;
  }

  // ---------------------------------------------------------- the species

  /** The glyph each species is drawn with. */
  function Glyph(t: ACNHFlowerType): char
  {
    match t
    case Rose => '@'
    case Mum => '\U{269B}'
    case Hyacinth => '\U{2051}'
  }

  /** `n` Mendelian genes. */
  function MendelianPrint(n: nat): (r: seq<GeneType>)
    ensures |r| == n && forall k :: 0 <= k < n ==> r[k] == Mendelian
  {
    seq(n, _ => Mendelian)
  }

  /**
    `info`: the species' name, its tag, and its gene print: four Mendelian
    genes for the rose, three for the mum and the hyacinth.
   */
  function Info<G>(f: AcnhFlower<G>): (r: FlowerData)
    ensures GetFlowerType(r) == ACNH(Species(f))
    ensures GenePrint(r) == MendelianPrint(if Species(f) == Rose then 4 else 3)
    ensures Name(r) == match Species(f)
      case Rose => "Rose (acnh)"
      case Mum => "Mum (acnh)"
      case Hyacinth => "Hyacinth (acnh)"
  {
    match f
    case ACNHRose(_) => NewFlowerData("Rose (acnh)", MendelianPrint(4), ACNH(Rose))
    case ACNHMum(_) => NewFlowerData("Mum (acnh)", MendelianPrint(3), ACNH(Mum))
    case ACNHHyacinth(_) => NewFlowerData("Hyacinth (acnh)", MendelianPrint(3), ACNH(Hyacinth))
  }

  /** `genotype`: the genotype the flower wraps; rewrapping it in the species gives the flower back. */
  function Genotype<G>(f: AcnhFlower<G>): (r: G)
    ensures MakeFlower(Species(f), r) == f
  {
    match f
    case ACNHRose(g) => g
    case ACNHMum(g) => g
    case ACNHHyacinth(g) => g
  }

  /** Every catalogue seed's gene list is as long as its species' gene print. */
  lemma SeedsFitGenePrints<G>(ops: GenotypeOps<G>)
    ensures forall i, j :: 0 <= i < 3 && 0 <= j < 3 ==>
      |SeedGenes()[i][j]| == |GenePrint(Info(AcnhSeeds(ops)[i][j]))|
  {
    SeedGeneLengths();
  }

  /** The ways `phenotype` panics. */
  datatype PhenotypeError =
    | NoColorIndex      // the genotype has no colour-table index
    | NoColorEntry      // the species' table has no entry at that index
    | UnknownColorName  // the entry is not one of the nine colour names

  /**
    `phenotype`: the genotype's index picks a colour name from the species'
    table; the flower is its glyph in that colour as text colour alone.
   */
  function Phenotype<G>(ctx: FlowerContext<G>, ops: GenotypeOps<G>, f: AcnhFlower<G>): (r: Result<Flowers.Phenotype, PhenotypeError>)
    ensures var table := Table(ctx.acnhPhenotypes, Species(f));
      var index := ops.intoIndex(Genotype(f));
      && (r == Failure(NoColorIndex) <==> index.None?)
      && (r == Failure(NoColorEntry) <==> index.Some? && index.value >= |table|)
      && (r.Success? <==> index.Some? && index.value < |table| && KnownColor(table[index.value]))
      && (r.Success? ==>
            && r.value.character == Glyph(Species(f))
            && r.value.blueprint == Terminal.WithTextColor(Terminal.NewBlueprint(), GetAcnhFlowerColor(table[index.value]).value))
  {
    match ops.intoIndex(Genotype(f))
    case None => Failure(NoColorIndex)
    case Some(index) =>
      match GetPhenotypeString(ctx, GetFlowerType(Info(f)), index)
      case None => Failure(NoColorEntry)
      case Some(colorName) =>
        match GetAcnhFlowerColor(colorName)
        case None => Failure(UnknownColorName)
        case Some(color) => Success(Flowers.Phenotype(Terminal.WithTextColor(Terminal.NewBlueprint(), color), Glyph(Species(f))))
  }

  /** With colour tables that cover every index and name only known colours, every indexed flower has a phenotype. */
  lemma PhenotypeDefinedForCompleteTables<G>(ctx: FlowerContext<G>, ops: GenotypeOps<G>, f: AcnhFlower<G>)
    requires ops.intoIndex(Genotype(f)).Some?
    requires ops.intoIndex(Genotype(f)).value < |Table(ctx.acnhPhenotypes, Species(f))|
    requires forall k :: 0 <= k < |Table(ctx.acnhPhenotypes, Species(f))| ==> KnownColor(Table(ctx.acnhPhenotypes, Species(f))[k])
    ensures Phenotype(ctx, ops, f).Success?
  {
  }

  /**
    `to_string`: the flower's glyph drawn in its colour: the escape sequence
    selecting palette colour `code` as text colour, the glyph, and the reset
    sequence.
   */
  function FlowerToString<G>(ctx: FlowerContext<G>, ops: GenotypeOps<G>, f: AcnhFlower<G>): (r: Result<string, PhenotypeError>)
    ensures r.Success? <==> Phenotype(ctx, ops, f).Success?
    ensures r.Failure? ==> r.error == Phenotype(ctx, ops, f).error
    ensures r.Success? ==>
      var code := Phenotype(ctx, ops, f).value.blueprint.textColor.value.code;
      r.value == Terminal.Csi + "38;5;" + Terminal.DecimalString(code) + "m" + [Glyph(Species(f))] + Terminal.Reset()
  {
    match Phenotype(ctx, ops, f)
    case Failure(e) => Failure(e)
    case Success(p) =>
      Terminal.TextColorOnlyAnsi(p.blueprint.textColor.value);
      Success(PhenotypeToString(p))
  }

  /** `can_cross`: whether the two flowers' genotypes can cross; both are of one species. */
  function CanCross<G>(ops: GenotypeOps<G>, a: AcnhFlower<G>, b: AcnhFlower<G>): (r: bool)
    requires Species(a) == Species(b)
    ensures r <==> ops.canCross(Genotype(a), Genotype(b))
  {
    ops.canCross(Genotype(a), Genotype(b))
  }

  datatype CrossError = CannotCross

  /** `cross`: the cross of the two genotypes; the source panics where the genotypes do not cross. */
  function Cross<G>(ops: GenotypeOps<G>, a: AcnhFlower<G>, b: AcnhFlower<G>): (r: Result<G, CrossError>)
    requires Species(a) == Species(b)
    ensures r.Success? <==> ops.crossWith(Genotype(a), Genotype(b)).Some?
    ensures r.Success? ==> r.value == ops.crossWith(Genotype(a), Genotype(b)).value
  {
    match ops.crossWith(Genotype(a), Genotype(b))
    case None => Failure(CannotCross)
    case Some(g) => Success(g)
  }
}
