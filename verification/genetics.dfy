/**
  The Mendelian genetics engine: trits with their two-allele decomposition,
  allele-picking crosses, validated trit genotypes and their base-3 index.

  The source draws allele picks and random trits from a thread-local random
  generator; here every draw is an explicit argument, so each operation is a
  pure function of its inputs and its draws.
 */
module Genetics {
  import opened Wrappers

  /** A valid trit: 0 (homozygous recessive), 1 (heterozygous) or 2 (homozygous dominant). */
  type Trit = t: int | 0 <= t <= 2

  /** A `[bool; 2]` allele pair; `true` is the dominant allele. */
  type AllelePair = s: seq<bool> | |s| == 2 witness [false, false]

  /** Which of the two alleles of a pair a random `choose` picked. */
  type Pick = i: int | 0 <= i < 2

  /** Number of dominant alleles carried by one allele. */
  function Dominance(b: bool): nat
  {
    if b then 1 else 0
  }

  // ---------------------------------------------------------------- Trit

  /** `Trit::new`: rejects every value above 2. */
  function TritNew(t: U8): (r: Option<Trit>)
    ensures r.Some? <==> t <= 2
    ensures r.Some? ==> r.value == t
  {
    if t > 2 then None else Some(t)
  }

  /** `Trit::from_bools`: the trit is the number of dominant alleles, in either order. */
  function FromBools(bools: AllelePair): (r: Trit)
    ensures r == Dominance(bools[0]) + Dominance(bools[1])
  {
    match (bools[0], bools[1])
    case (true, true) => 2
    case (false, false) => 0
    case _ => 1
  }

  /** `Trit::as_bools`: a pair carrying exactly `t` dominant alleles, dominant first. */
  function AsBools(t: Trit): (r: AllelePair)
    ensures Dominance(r[0]) + Dominance(r[1]) == t
    ensures r[1] ==> r[0]
    ensures FromBools(r) == t
  {
    if t == 0 then [false, false]
    else if t == 1 then [true, false]
    else [true, true]
  }

  /** `from_bools` ignores allele order: [true, false] and [false, true] both give 1. */
  lemma FromBoolsOrderInsensitive(a: bool, b: bool)
    ensures FromBools([a, b]) == FromBools([b, a])
    ensures a != b ==> FromBools([a, b]) == 1
  {
  }

  /**
    `Trit::cross`: picks allele `i` of this trit's pair and allele `j` of the
    other's; the offspring carries exactly the dominant alleles picked.
   */
  function TritCross(a: Trit, b: Trit, i: Pick, j: Pick): (r: Trit)
    ensures r == Dominance(AsBools(a)[i]) + Dominance(AsBools(b)[j])
  {
    FromBools([AsBools(a)[i], AsBools(b)[j]])
  }

  /** Fewest dominant alleles one parent can pass on: only a homozygous dominant must pass one. */
  function MinContribution(t: Trit): nat
  {
    if t == 2 then 1 else 0
  }

  /** Most dominant alleles one parent can pass on: any parent carrying one may pass it. */
  function MaxContribution(t: Trit): nat
  {
    if t == 0 then 0 else 1
  }

  /** A parent passes on 0 or 1 dominant alleles, and every count between its bounds is reachable. */
  lemma {:induction false} ContributionRange(t: Trit, c: nat)
    ensures (exists i: Pick :: Dominance(AsBools(t)[i]) == c)
        <==> MinContribution(t) <= c <= MaxContribution(t)
  {
    if MinContribution(t) <= c <= MaxContribution(t) {
      if Dominance(AsBools(t)[0]) == c {
        assert Dominance(AsBools(t)[0 as Pick]) == c;
      } else {
        assert Dominance(AsBools(t)[1 as Pick]) == c;
      }
    }
  }

  /**
    The Punnett square of a trit cross: `r` is an outcome of some pair of
    picks exactly when it lies between the summed minimum and maximum
    contributions of the two parents.
   */
  lemma {:induction false} TritCrossOutcomes(a: Trit, b: Trit, r: Trit)
    ensures (exists i: Pick, j: Pick :: TritCross(a, b, i, j) == r)
        <==> MinContribution(a) + MinContribution(b) <= r <= MaxContribution(a) + MaxContribution(b)
  {
    var lo := MinContribution(a) + MinContribution(b);
    var hi := MaxContribution(a) + MaxContribution(b);
    if lo <= r <= hi {
      // split r into a contribution from each parent within its bounds
      var ca := if r - MinContribution(b) > MaxContribution(a) then MaxContribution(a) else r - MinContribution(b);
      var cb := r - ca;
      ContributionRange(a, ca);
      ContributionRange(b, cb);
      var i: Pick :| Dominance(AsBools(a)[i]) == ca;
      var j: Pick :| Dominance(AsBools(b)[j]) == cb;
      assert TritCross(a, b, i, j) == r;
    } else {
      forall i: Pick, j: Pick
        ensures TritCross(a, b, i, j) != r
      {
        ContributionRange(a, Dominance(AsBools(a)[i]));
        ContributionRange(b, Dominance(AsBools(b)[j]));
      }
    }
  }

  /** The cross fixed by the source's tests: 2x2 = 2, 0x0 = 0 and 2x0 = 0x2 = 1, whatever is picked. */
  lemma TritCrossHomozygous(i: Pick, j: Pick)
    ensures TritCross(2, 2, i, j) == 2
    ensures TritCross(0, 0, i, j) == 0
    ensures TritCross(2, 0, i, j) == 1
    ensures TritCross(0, 2, i, j) == 1
  {
  }

  /** Swapping the parents and their picks gives the same offspring. */
  lemma TritCrossMirror(a: Trit, b: Trit, i: Pick, j: Pick)
    ensures TritCross(a, b, i, j) == TritCross(b, a, j, i)
  {
  }

  // ---------------------------------------------------- MendelianGenotype

  /** A genome with two alleles per gene, one trit per gene. */
  datatype MendelianGenotype = MendelianGenotype(genes: seq<Trit>)

  predicate AllTrits(values: seq<U8>)
  {
    forall i :: 0 <= i < |values| ==> values[i] <= 2
  }

  /** `MendelianGenotype::as_u8_vec`: the raw trit values, in order. */
  function AsU8Vec(g: MendelianGenotype): (r: seq<U8>)
    ensures |r| == |g.genes|
    ensures forall i :: 0 <= i < |r| ==> r[i] == g.genes[i]
    ensures AllTrits(r)
  {
    seq(|g.genes|, i requires 0 <= i < |g.genes| => g.genes[i])
  }

  /**
    `MendelianGenotype::new`: collecting the `Trit::new` of every value into
    an `Option`, which fails as soon as one value is above 2.
   */
  function New(values: seq<U8>): (r: Option<MendelianGenotype>)
    ensures r.Some? <==> AllTrits(values)
    ensures r.Some? ==> AsU8Vec(r.value) == values
    decreases |values|
  {
    if |values| == 0 then Some(MendelianGenotype([]))
    else
      match TritNew(values[0])
      case None => None
      case Some(t) =>
        match New(values[1..])
        case None =>
          assert !AllTrits(values[1..]);
          None
        case Some(rest) =>
          assert values == [values[0]] + values[1..];
          Some(MendelianGenotype([t] + rest.genes))
  }

  /** The number of genes (`Genotype::length`). */
  function Length(g: MendelianGenotype): (r: nat)
    ensures r == |g.genes|
  {
    |g.genes|
  }

  /**
    `MendelianGenotype::random`: takes the first `length` draws of a uniform
    0..=2 distribution and validates them with `new`, whose `unwrap` never
    fails because every draw is a trit.
   */
  function Random(length: U8, draws: nat -> Trit): (r: MendelianGenotype)
    ensures Length(r) == length
    ensures forall i :: 0 <= i < length ==> r.genes[i] == draws(i)
  {
    var sample: seq<U8> := seq(length, i requires 0 <= i < length => draws(i));
    var g := New(sample).value;
    assert AsU8Vec(g) == sample;
    g
  }

  /** Positionwise crossing of two equally long trit sequences (the `zip`/`map`/`collect`). */
  function CrossGenes(xs: seq<Trit>, ys: seq<Trit>, picks: nat -> (Pick, Pick), offset: nat): (r: seq<Trit>)
    requires |xs| == |ys|
    ensures |r| == |xs|
    ensures forall i :: 0 <= i < |r| ==>
      r[i] == Dominance(AsBools(xs[i])[picks(offset + i).0]) + Dominance(AsBools(ys[i])[picks(offset + i).1])
    decreases |xs|
  {
    if |xs| == 0 then []
    else [TritCross(xs[0], ys[0], picks(offset).0, picks(offset).1)]
         + CrossGenes(xs[1..], ys[1..], picks, offset + 1)
  }

  /**
    `MendelianGenotype::cross`: `None` exactly when the lengths differ;
    otherwise gene `i` of the child carries the dominant alleles picked by
    `picks(i)` from the two parents' gene `i`.
   */
  function Cross(a: MendelianGenotype, b: MendelianGenotype, picks: nat -> (Pick, Pick)): (r: Option<MendelianGenotype>)
    ensures r.None? <==> Length(a) != Length(b)
    ensures r.Some? ==> Length(r.value) == Length(a)
    ensures r.Some? ==> forall i :: 0 <= i < Length(a) ==>
      r.value.genes[i] == Dominance(AsBools(a.genes[i])[picks(i).0]) + Dominance(AsBools(b.genes[i])[picks(i).1])
  {
    if Length(a) != Length(b) then None
    else Some(MendelianGenotype(CrossGenes(a.genes, b.genes, picks, 0)))
  }

  /** Crossing is the positionwise trit cross. */
  lemma CrossIsPositionwise(a: MendelianGenotype, b: MendelianGenotype, picks: nat -> (Pick, Pick), i: nat)
    requires Length(a) == Length(b) && i < Length(a)
    ensures Cross(a, b, picks).value.genes[i] == TritCross(a.genes[i], b.genes[i], picks(i).0, picks(i).1)
  {
  }

  /** Swapping the parents, and each position's two picks, gives the same child. */
  lemma CrossMirror(a: MendelianGenotype, b: MendelianGenotype, picks: nat -> (Pick, Pick), mirrored: nat -> (Pick, Pick))
    requires forall i: nat :: mirrored(i) == (picks(i).1, picks(i).0)
    ensures Cross(a, b, picks) == Cross(b, a, mirrored)
  {
    if Length(a) == Length(b) {
      var c1 := Cross(a, b, picks).value.genes;
      var c2 := Cross(b, a, mirrored).value.genes;
      assert forall i :: 0 <= i < |c1| ==> c1[i] == c2[i] by {
        forall i | 0 <= i < |c1|
          ensures c1[i] == c2[i]
        {
          assert mirrored(i) == (picks(i).1, picks(i).0);
        }
      }
      assert c1 == c2;
    }
  }

  /** Validating values that are all trits keeps them as they are. */
  lemma NewKeepsValues(values: seq<U8>)
    requires AllTrits(values)
    ensures New(values).Some? && New(values).value.genes == values
  {
    assert AsU8Vec(New(values).value) == values;
  }

  /** The parents and the expected child of the source's `cross_genomes` test all validate unchanged. */
  lemma CrossGenomesParents()
    ensures New([0, 0, 2, 2]) == Some(MendelianGenotype([0, 0, 2, 2]))
    ensures New([2, 0, 2, 0]) == Some(MendelianGenotype([2, 0, 2, 0]))
    ensures New([1, 0, 2, 1]) == Some(MendelianGenotype([1, 0, 2, 1]))
  {
    NewKeepsValues([0, 0, 2, 2]);
    NewKeepsValues([2, 0, 2, 0]);
    NewKeepsValues([1, 0, 2, 1]);
  }

  /** The source's `cross_genomes` test: [0,0,2,2] x [2,0,2,0] is [1,0,2,1] under every allele choice. */
  lemma CrossGenomesExample(picks: nat -> (Pick, Pick))
    ensures Cross(MendelianGenotype([0, 0, 2, 2]), MendelianGenotype([2, 0, 2, 0]), picks)
         == Some(MendelianGenotype([1, 0, 2, 1]))
  {
    var a := MendelianGenotype([0, 0, 2, 2]);
    var b := MendelianGenotype([2, 0, 2, 0]);
    var c := Cross(a, b, picks).value.genes;
    CrossIsPositionwise(a, b, picks, 0);
    CrossIsPositionwise(a, b, picks, 1);
    CrossIsPositionwise(a, b, picks, 2);
    CrossIsPositionwise(a, b, picks, 3);
    TritCrossHomozygous(picks(0).0, picks(0).1);
    TritCrossHomozygous(picks(1).0, picks(1).1);
    TritCrossHomozygous(picks(2).0, picks(2).1);
    TritCrossHomozygous(picks(3).0, picks(3).1);
    assert c[0] == 1 && c[1] == 0 && c[2] == 2 && c[3] == 1;
    assert c == [1, 0, 2, 1];
  }

  // ---------------------------------------------------------- the index

  function Pow3(n: nat): (r: nat)
    ensures r >= 1
  {
    if n == 0 then 1 else 3 * Pow3(n - 1)
  }

  /**
    The base-3 value of a trit sequence with position 0 most significant:
    the sum of `ts[i] * 3^(|ts| - 1 - i)`.
   */
  function PositionalValue(ts: seq<Trit>): nat
  {
    if |ts| == 0 then 0 else ts[0] * Pow3(|ts| - 1) + PositionalValue(ts[1..])
  }

  /**
    `Genotype::as_index` for Mendelian genotypes: walks the genes from the
    last, multiplying the `p`-th of them by `3^p`, and sums with `reduce`,
    whose `unwrap` panics on an empty genotype.
   */
  method AsIndex(g: MendelianGenotype) returns (index: nat)
    requires Length(g) > 0
    ensures index == PositionalValue(g.genes)
    ensures index < Pow3(Length(g))
  {
    var n := |g.genes|;
    assert g.genes[n - 1..] == [g.genes[n - 1]];
    index := g.genes[n - 1] * Pow3(0);
    var p := 1;
    while p < n
      invariant 1 <= p <= n
      invariant index == PositionalValue(g.genes[n - p..])
    {
      assert g.genes[n - p - 1..][1..] == g.genes[n - p..];
      index := index + g.genes[n - 1 - p] * Pow3(p);
      p := p + 1;
    }
    assert g.genes[n - p..] == g.genes;
    PositionalValueBound(g.genes);
  }

  /** Appending a least significant digit multiplies the value by 3 and adds the digit. */
  lemma {:induction false} PositionalValueAppend(ts: seq<Trit>, d: Trit)
    ensures PositionalValue(ts + [d]) == 3 * PositionalValue(ts) + d
    decreases |ts|
  {
    if |ts| > 0 {
      assert (ts + [d])[1..] == ts[1..] + [d];
      PositionalValueAppend(ts[1..], d);
      calc {
        PositionalValue(ts + [d]);
        ts[0] * Pow3(|ts|) + PositionalValue(ts[1..] + [d]);
        ts[0] * (3 * Pow3(|ts| - 1)) + 3 * PositionalValue(ts[1..]) + d;
        3 * (ts[0] * Pow3(|ts| - 1) + PositionalValue(ts[1..])) + d;
      }
    } else {
      assert ts + [d] == [d];
    }
  }

  /** The index of an `n`-gene genotype lies in [0, 3^n). */
  lemma {:induction false} PositionalValueBound(ts: seq<Trit>)
    ensures PositionalValue(ts) < Pow3(|ts|)
    decreases |ts|
  {
    if |ts| > 0 {
      PositionalValueBound(ts[1..]);
      assert ts[0] * Pow3(|ts| - 1) <= 2 * Pow3(|ts| - 1);
    }
  }

  /** The `n` base-3 digits of `k`, most significant first (the inverse of the index). */
  function FromIndex(k: nat, n: nat): (r: seq<Trit>)
    ensures |r| == n
  {
    if n == 0 then [] else FromIndex(k / 3, n - 1) + [k % 3]
  }

  /** Decoding an index below 3^n and encoding it again gives the index back. */
  lemma {:induction false} IndexOfFromIndex(k: nat, n: nat)
    requires k < Pow3(n)
    ensures PositionalValue(FromIndex(k, n)) == k
    decreases n
  {
    if n > 0 {
      IndexOfFromIndex(k / 3, n - 1);
      PositionalValueAppend(FromIndex(k / 3, n - 1), k % 3);
    }
  }

  /** Encoding a genotype and decoding its index gives the genes back. */
  lemma {:induction false} FromIndexOfIndex(ts: seq<Trit>)
    ensures FromIndex(PositionalValue(ts), |ts|) == ts
    decreases |ts|
  {
    if |ts| > 0 {
      var init := ts[..|ts| - 1];
      var last := ts[|ts| - 1];
      assert ts == init + [last];
      PositionalValueAppend(init, last);
      var v := PositionalValue(ts);
      assert v / 3 == PositionalValue(init) && v % 3 == last;
      FromIndexOfIndex(init);
    }
  }

  /** The index is injective among genotypes with the same number of genes. */
  lemma IndexInjective(g1: MendelianGenotype, g2: MendelianGenotype)
    requires Length(g1) == Length(g2)
    requires PositionalValue(g1.genes) == PositionalValue(g2.genes)
    ensures g1 == g2
  {
    FromIndexOfIndex(g1.genes);
    FromIndexOfIndex(g2.genes);
  }

  /** Every index below 3^n is the index of some n-gene genotype: the index is onto [0, 3^n). */
  lemma IndexSurjective(k: nat, n: nat)
    requires k < Pow3(n)
    ensures exists g: MendelianGenotype :: Length(g) == n && PositionalValue(g.genes) == k
  {
    IndexOfFromIndex(k, n);
    var g := MendelianGenotype(FromIndex(k, n));
    assert Length(g) == n && PositionalValue(g.genes) == k;
  }

  /** [2, 0, 0, 1] (dominant, recessive, recessive, heterozygous) has index 2*27 + 1 = 55. */
  lemma IndexExample()
    ensures PositionalValue([2, 0, 0, 1]) == 55
  {
  }
}
