/**
  The flower catalogue: species tags, phenotypes (a coloured glyph), the
  per-species data, the phenotype colour tables and the seed list.

  The genotype type the flower files use, with its constructor, lookup
  index and crossing, is not part of this model: it is the type parameter
  `G` and the operations in `GenotypeOps`. The colour tables are loaded
  from a JSON file that is not part of this model either; they are a
  parameter.
 */
module Flowers {
  import opened Wrappers
  import opened SeqUtil
  import Terminal

  datatype ACNHFlowerType = Rose | Mum | Hyacinth

  datatype FlowerType = ACNH(acnh: ACNHFlowerType)

  /** The three kinds of gene; the catalogue uses only `Mendelian`. */
  datatype GeneType = Mendelian | Bloodlike | Quadruplet

  /** The three states of a Mendelian gene. */
  datatype MendelianGene = HomozygousRecessive | Heterozygous | HomozygousDominant

  /**
    The genotype operations the flowers call: building a genotype from
    Mendelian genes, its colour-table index (when it has one), whether two
    genotypes can cross, and the cross itself (when it succeeds).
   */
  datatype GenotypeOps<!G> = GenotypeOps(
    make: seq<MendelianGene> -> G,
    intoIndex: G -> Option<nat>,
    canCross: (G, G) -> bool,
    crossWith: (G, G) -> Option<G>)

  /** A flower of one of the three catalogue species, holding its genotype. */
  datatype AcnhFlower<G> = ACNHRose(inner: G) | ACNHMum(inner: G) | ACNHHyacinth(inner: G)

  function Species<G>(f: AcnhFlower<G>): ACNHFlowerType
  {
    match f
    case ACNHRose(_) => Rose
    case ACNHMum(_) => Mum
    case ACNHHyacinth(_) => Hyacinth
  }

  // ------------------------------------------------------------ Phenotype

  /** What a flower looks like: a glyph and the blueprint it is drawn with. */
  datatype Phenotype = Phenotype(blueprint: Terminal.TextBlueprint, character: char)

  /** `Phenotype::to_string`: the blueprint's escape sequence, the glyph alone, then the reset sequence. */
  function PhenotypeToString(p: Phenotype): (r: string)
    ensures r == Terminal.GetAnsi(p.blueprint) + [p.character] + Terminal.Reset()
  {
    var r := Terminal.Apply(p.blueprint, [p.character]);
    var n := |Terminal.GetAnsi(p.blueprint)|;
    assert r == r[..n] + r[n..|r| - 4] + r[|r| - 4..];
    r
  }

  // ----------------------------------------------------------- FlowerData

  /** A species' name, tag and gene print (the gene types its genotypes have, in order). */
  datatype FlowerData = FlowerData(name: string, flowerType: FlowerType, genePrint: seq<GeneType>)

  /** `FlowerData::new`, which takes the gene print before the tag. */
  function NewFlowerData(name: string, genePrint: seq<GeneType>, flowerType: FlowerType): FlowerData
  {
    FlowerData(name, flowerType, genePrint)
  }

  function Name(d: FlowerData): string { d.name }

  function GenePrint(d: FlowerData): seq<GeneType> { d.genePrint }

  function GetFlowerType(d: FlowerData): FlowerType { d.flowerType }

  /** The getters give back exactly what `FlowerData::new` was given. */
  lemma FlowerDataGetters(name: string, genePrint: seq<GeneType>, flowerType: FlowerType)
    ensures var d := NewFlowerData(name, genePrint, flowerType);
      Name(d) == name && GenePrint(d) == genePrint && GetFlowerType(d) == flowerType
  {
  }

  // -------------------------------------------------------- ACNHPhenotypes

  /** The colour name of each genotype index, one table per species. */
  datatype ACNHPhenotypes = ACNHPhenotypes(acnhRose: seq<string>, acnhMum: seq<string>, acnhHyacinth: seq<string>)

  function Table(p: ACNHPhenotypes, t: ACNHFlowerType): seq<string>
  {
    match t
    case Rose => p.acnhRose
    case Mum => p.acnhMum
    case Hyacinth => p.acnhHyacinth
  }

  /** `get_color`: entry `index` of the species' table, or `None` past its end. */
  function GetColor(p: ACNHPhenotypes, t: ACNHFlowerType, index: nat): (r: Option<string>)
    ensures r.None? <==> index >= |Table(p, t)|
    ensures r.Some? ==> r.value == Table(p, t)[index]
  {
    match t
    case Rose => if index < |p.acnhRose| then Some(p.acnhRose[index]) else None
    case Mum => if index < |p.acnhMum| then Some(p.acnhMum[index]) else None
    case Hyacinth => if index < |p.acnhHyacinth| then Some(p.acnhHyacinth[index]) else None
  }

  // --------------------------------------------------------- FlowerContext

  datatype FlowerContext<G> = FlowerContext(acnhPhenotypes: ACNHPhenotypes, seeds: seq<seq<AcnhFlower<G>>>)

  /** The genes of the nine seeds: a row each of roses, mums and hyacinths. */
  function SeedGenes(): (r: seq<seq<seq<MendelianGene>>>)
    ensures |r| == 3 && forall i :: 0 <= i < 3 ==> |r[i]| == 3
    ensures forall i, j :: 0 <= i < 3 && 0 <= j < 3 ==> |r[i][j]| == if i == 0 then 4 else 3
  {
    var m0 := HomozygousRecessive;
    var m1 := Heterozygous;
    var m2 := HomozygousDominant;
    [ [[m2, m0, m0, m1], [m0, m0, m1, m0], [m0, m2, m0, m0]],
      [[m2, m0, m0], [m0, m0, m1], [m0, m2, m0]],
      [[m2, m0, m1], [m0, m0, m1], [m0, m2, m0]] ]
  }

  /** The species of seed row `i`. */
  function RowSpecies(i: nat): ACNHFlowerType
  {
    if i == 0 then Rose else if i == 1 then Mum else Hyacinth
  }

  function MakeFlower<G>(t: ACNHFlowerType, g: G): (r: AcnhFlower<G>)
    ensures Species(r) == t && r.inner == g
  {
    match t
    case Rose => ACNHRose(g)
    case Mum => ACNHMum(g)
    case Hyacinth => ACNHHyacinth(g)
  }

  /** Seed row `i`: a flower of the row's species for each of its gene lists. */
  function SeedRow<G>(ops: GenotypeOps<G>, i: nat): (r: seq<AcnhFlower<G>>)
    requires i < 3
    ensures |r| == 3
    ensures forall j :: 0 <= j < 3 ==> Species(r[j]) == RowSpecies(i) && r[j].inner == ops.make(SeedGenes()[i][j])
  {
    var genes := SeedGenes();
    assert |genes[i]| == 3;
    var r := seq(3, j requires 0 <= j < 3 => MakeFlower(RowSpecies(i), ops.make(genes[i][j])));
    assert forall j :: 0 <= j < 3 ==> r[j] == MakeFlower(RowSpecies(i), ops.make(genes[i][j]));
    r
  }

  /**
    `acnh_seeds`: three rows of three seeds, roses then mums then hyacinths,
    each built from the corresponding gene list.
   */
  function AcnhSeeds<G>(ops: GenotypeOps<G>): (r: seq<seq<AcnhFlower<G>>>)
    ensures |r| == 3
    ensures forall i :: 0 <= i < 3 ==> |r[i]| == 3
    ensures forall i, j :: 0 <= i < 3 && 0 <= j < 3 ==>
      Species(r[i][j]) == RowSpecies(i) && r[i][j].inner == ops.make(SeedGenes()[i][j])
  {
    [SeedRow(ops, 0), SeedRow(ops, 1), SeedRow(ops, 2)]
  }

  /** Every rose seed has four genes, every mum and hyacinth seed three. */
  lemma SeedGeneLengths()
    ensures |SeedGenes()| == 3
    ensures forall i, j :: 0 <= i < 3 && 0 <= j < |SeedGenes()[i]| ==>
      |SeedGenes()[i][j]| == if RowSpecies(i) == Rose then 4 else 3
  {
  }

  /** `all_seeds`: the seed rows of every catalogue, flattened; there is one catalogue. */
  function AllSeeds<G>(ops: GenotypeOps<G>): (r: seq<seq<AcnhFlower<G>>>)
    ensures r == AcnhSeeds(ops)
  {
    var catalogues := [AcnhSeeds(ops)];
    assert catalogues[1..] == [];
    assert Concat(catalogues) == catalogues[0] + Concat(catalogues[1..]);
    Concat(catalogues)
  }

  /** `FlowerContext::new`, given the colour tables. */
  function NewFlowerContext<G>(phenotypes: ACNHPhenotypes, ops: GenotypeOps<G>): (r: FlowerContext<G>)
    ensures r.acnhPhenotypes == phenotypes && |r.seeds| == 3
  {
    FlowerContext(phenotypes, AllSeeds(ops))
  }

  /** `get_phenotype_string`: the colour name in the tag's table, or `None` past its end. */
  function GetPhenotypeString<G>(ctx: FlowerContext<G>, t: FlowerType, index: nat): (r: Option<string>)
    ensures r.None? <==> index >= |Table(ctx.acnhPhenotypes, t.acnh)|
    ensures r.Some? ==> r.value == Table(ctx.acnhPhenotypes, t.acnh)[index]
  {
    match t
    case ACNH(f) => GetColor(ctx.acnhPhenotypes, f, index)
  }

  function GetSeeds<G>(ctx: FlowerContext<G>): (r: seq<seq<AcnhFlower<G>>>)
    ensures r == ctx.seeds
  {
    ctx.seeds
  }

  /** A new context offers the catalogue seeds: row 0 the roses, row 2 the hyacinths. */
  lemma NewContextSeeds<G>(phenotypes: ACNHPhenotypes, ops: GenotypeOps<G>)
    ensures GetSeeds(NewFlowerContext(phenotypes, ops)) == AcnhSeeds(ops)
    ensures forall j :: 0 <= j < 3 ==> Species(GetSeeds(NewFlowerContext(phenotypes, ops))[0][j]) == Rose
    ensures forall j :: 0 <= j < 3 ==> Species(GetSeeds(NewFlowerContext(phenotypes, ops))[2][j]) == Hyacinth
  {
  }
}
