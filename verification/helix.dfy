/** The symbolic skeleton of `createDNAHelix`: which primitives the helix
    group receives, in which order, and what symbol, bond count, dash
    pattern and end-label anchor each one carries. Positions, angles,
    colours and curve geometry are floating-point rendering and are not
    part of this model. */
module Helix {
  import opened Wrappers
  import opened BasePairs
  import opened Strands
  import opened SequenceInput

  datatype StrandId = Strand1 | Strand2

  /** Which end of a backbone's point list a label sits at: point 0 or
      point n-1. The page computes `y = i*h/n - h/2`, so point 0 is the
      lowest point, although its variable is called `topTip`. */
  datatype End = First | Last

  datatype EndMark = FivePrime | ThreePrime

  /** One dash of a hydrogen bond, from `from/6` to `to/6` of the way
      between the two inner points. */
  datatype Dash = Dash(from: nat, to: nat)

  /** Where an end label is pushed: away from a neighbouring backbone point,
      or by a fixed vertical offset given in tenths of a unit. */
  datatype Direction = AwayFrom(neighbour: nat) | Vertical(tenths: int)

  datatype Primitive =
    | BaseBox(strand: StrandId, position: nat, symbol: char)
    | BaseLabel(strand: StrandId, position: nat, symbol: char)
    | HydrogenBond(position: nat, index: nat, dashes: seq<Dash>)
    | Backbone(strand: StrandId, tubularSegments: nat)
    | EndLabel(mark: EndMark, strand: StrandId, end: End, anchor: nat, direction: Direction)

  datatype HelixError = EmptyStrand

  /** `const segments = 6`. */
  const Segments: nat := 6

  /** The fixed vertical label offset, 0.3, in tenths. */
  const LabelOffsetTenths: int := 3

  /** `for (let k = start; k < segments; k += 2)`: one dash per even k,
      covering [k/6, (k+1)/6] and leaving the next sixth as a gap. */
  function Dashes(start: nat): (r: seq<Dash>)
    requires start % 2 == 0 && start <= Segments
    ensures |r| == (Segments - start) / 2
    ensures forall m :: 0 <= m < |r| ==> r[m].from == start + 2 * m && r[m].to == r[m].from + 1
    ensures forall m :: 0 <= m < |r| ==> r[m].to < Segments
    decreases Segments - start
  {
    if start == Segments then [] else [Dash(start, start + 1)] + Dashes(start + 2)
  }

  /** The dash pattern of every bond. */
  function BondDashes(): (r: seq<Dash>)
    ensures r == [Dash(0, 1), Dash(2, 3), Dash(4, 5)]
  {
    Dashes(0)
  }

  /** The symbol drawn on a strand at a position: the sequence itself on
      strand 1, the displayed complementary sequence on strand 2. */
  function StrandSymbol(s: string, strand: StrandId, i: nat): char
    requires i < |s|
  {
    match strand
    case Strand1 => s[i]
    case Strand2 => ComplementarySequence(s)[i]
  }

  /** `r` holds everything position i must draw: a box and a label on each
      strand showing that strand's symbol, and bonds 0 to c-1 for the bond
      count c of the strand-1 base. */
  predicate Covers(s: string, i: nat, r: seq<Primitive>)
    requires i < |s|
  {
    && (forall st :: BaseBox(st, i, StrandSymbol(s, st, i)) in r)
    && (forall st :: BaseLabel(st, i, StrandSymbol(s, st, i)) in r)
    && (forall j :: 0 <= j < BondCount(s[i]) ==> HydrogenBond(i, j, BondDashes()) in r)
  }

  /** The two boxes and two labels of position i, strand 1 first. */
  function BasePrimitives(s: string, i: nat): seq<Primitive>
    requires i < |s|
  {
    var base1 := s[i];
    var base2 := ComplementSymbol(base1);
    [BaseBox(Strand1, i, base1), BaseBox(Strand2, i, base2),
     BaseLabel(Strand1, i, base1), BaseLabel(Strand2, i, base2)]
  }

  /** What a primitive built for sequence `s` must carry: symbols that
      match the strand they sit on, the bond count of the strand-1 base,
      two tube segments per point, and an end label anchored at the first
      or last point and pushed away from that point's only neighbour. */
  predicate Faithful(s: string, p: Primitive) {
    match p
    case BaseBox(strand, i, sym) => i < |s| && sym == StrandSymbol(s, strand, i)
    case BaseLabel(strand, i, sym) => i < |s| && sym == StrandSymbol(s, strand, i)
    case HydrogenBond(i, j, dashes) => i < |s| && j < BondCount(s[i]) && |dashes| == 3
    case Backbone(_, n) => n == 2 * |s|
    case EndLabel(mark, strand, end, anchor, dir) =>
      && |s| > 0
      && anchor == (if end == First then 0 else |s| - 1)
      && (mark == FivePrime <==> (strand == Strand1) == (end == First))
      && (dir.AwayFrom? <==> |s| > 1)
      && (dir.AwayFrom? ==> dir.neighbour < |s| && (dir.neighbour == anchor + 1 || dir.neighbour + 1 == anchor))
      && (dir.Vertical? ==> dir.tenths == (if end == First then LabelOffsetTenths else -LabelOffsetTenths))
  }

  lemma BasePrimitivesFaithful(s: string, i: nat)
    requires i < |s|
    ensures forall p :: p in BasePrimitives(s, i) ==>
              Faithful(s, p) && !p.Backbone? && !p.EndLabel? && p.position == i
  {
  }

  lemma BasePrimitivesCover(s: string, i: nat)
    requires i < |s|
    ensures forall st :: BaseBox(st, i, StrandSymbol(s, st, i)) in BasePrimitives(s, i)
    ensures forall st :: BaseLabel(st, i, StrandSymbol(s, st, i)) in BasePrimitives(s, i)
  {
  }

  lemma BondsFaithful(s: string, i: nat, bonds: seq<Primitive>)
    requires i < |s|
    requires |bonds| == BondCount(s[i])
    requires forall j :: 0 <= j < |bonds| ==> bonds[j] == HydrogenBond(i, j, BondDashes())
    ensures forall p :: p in bonds ==> Faithful(s, p) && p.HydrogenBond? && p.position == i
  {
  }

  /** The body of the loop for position i (`for (let j = 0; j < bondCount;
      j++)` included): exactly 4 + c primitives for the bond count c of the
      strand-1 base, which are the box and label of each strand and bonds
      0 to c-1, all belonging to position i and faithful to the sequence. */
  function PositionPrimitives(s: string, i: nat): (r: seq<Primitive>)
    requires i < |s|
    ensures |r| == 4 + BondCount(s[i])
    ensures Covers(s, i, r)
    ensures forall p :: p in r ==> Faithful(s, p) && !p.Backbone? && !p.EndLabel? && p.position == i
  {
    var head := BasePrimitives(s, i);
    var count := BondCount(s[i]);
    var bonds := seq(count, j requires 0 <= j < count => HydrogenBond(i, j, BondDashes()));
    assert |BondDashes()| == 3;
    BasePrimitivesFaithful(s, i);
    BasePrimitivesCover(s, i);
    BondsFaithful(s, i, bonds);
    assert forall p :: p in head + bonds <==> p in head || p in bonds;
    assert forall j :: 0 <= j < count ==> (head + bonds)[4 + j] == bonds[j];
    head + bonds
  }

  /** Total number of hydrogen bonds drawn for a sequence: two per base,
      plus one more for each G and each C. */
  function BondTotal(s: string): (n: nat)
    ensures 2 * |s| <= n <= 3 * |s|
  {
    if s == [] then 0 else BondTotal(s[..|s| - 1]) + BondCount(s[|s| - 1])
  }

  /** The bond total counts two per base and one more per G and per C. */
  lemma {:induction false} BondTotalCountsGC(s: string)
    ensures BondTotal(s) == 2 * |s| + multiset(s)['G'] + multiset(s)['C']
  {
    if s != [] {
      var init, last := s[..|s| - 1], s[|s| - 1];
      assert s == init + [last];
      assert multiset(s) == multiset(init) + multiset([last]);
      BondTotalCountsGC(init);
    }
  }

  lemma CoversAppend(s: string, i: nat, a: seq<Primitive>, b: seq<Primitive>)
    requires i < |s|
    requires Covers(s, i, a) || Covers(s, i, b)
    ensures Covers(s, i, a + b)
  {
  }

  /** The primitives of the first k loop iterations, in order: 4k plus the
      bond total of the first k bases, everything each of those positions
      must draw, and nothing else that is not faithful to the sequence. */
  function Positions(s: string, k: nat): (r: seq<Primitive>)
    requires k <= |s|
    ensures |r| == 4 * k + BondTotal(s[..k])
    ensures forall p :: p in r ==> Faithful(s, p) && !p.Backbone? && !p.EndLabel? && p.position < k
    ensures forall i :: 0 <= i < k ==> Covers(s, i, r)
  {
    if k == 0 then []
    else
      assert s[..k][..k - 1] == s[..k - 1];
      var prefix := Positions(s, k - 1);
      var last := PositionPrimitives(s, k - 1);
      AppendKeepsFaithful(s, k, prefix, last);
      AppendKeepsCoverage(s, k, prefix, last);
      prefix + last
  }

  lemma AppendKeepsFaithful(s: string, k: nat, prefix: seq<Primitive>, last: seq<Primitive>)
    requires 0 < k <= |s|
    requires forall p :: p in prefix ==> Faithful(s, p) && !p.Backbone? && !p.EndLabel? && p.position < k - 1
    requires forall p :: p in last ==> Faithful(s, p) && !p.Backbone? && !p.EndLabel? && p.position == k - 1
    ensures forall p :: p in prefix + last ==> Faithful(s, p) && !p.Backbone? && !p.EndLabel? && p.position < k
  {
  }

  lemma AppendKeepsCoverage(s: string, k: nat, prefix: seq<Primitive>, last: seq<Primitive>)
    requires 0 < k <= |s|
    requires forall i :: 0 <= i < k - 1 ==> Covers(s, i, prefix)
    requires Covers(s, k - 1, last)
    ensures forall i :: 0 <= i < k ==> Covers(s, i, prefix + last)
  {
    forall i | 0 <= i < k
      ensures Covers(s, i, prefix + last)
    {
      CoversAppend(s, i, prefix, last);
    }
  }

  function FirstDirection(n: nat): Direction
    requires n >= 1
  {
    if n > 1 then AwayFrom(1) else Vertical(LabelOffsetTenths)
  }

  function LastDirection(n: nat): Direction
    requires n >= 1
  {
    if n > 1 then AwayFrom(n - 2) else Vertical(-LabelOffsetTenths)
  }

  /** `addStrandLabels` for strands of n points: 5' at point 0 of strand 1
      and at the last point of strand 2, 3' at the other ends, each label
      on a distinct strand end. */
  function EndLabels(s: string): (r: seq<Primitive>)
    requires |s| >= 1
    ensures |r| == 4
    ensures forall p :: p in r ==> p.EndLabel? && Faithful(s, p)
    ensures forall i, j :: 0 <= i < j < |r| ==> (r[i].strand, r[i].end) != (r[j].strand, r[j].end)
  {
    var n := |s|;
    [EndLabel(FivePrime, Strand1, First, 0, FirstDirection(n)),
     EndLabel(ThreePrime, Strand1, Last, n - 1, LastDirection(n)),
     EndLabel(ThreePrime, Strand2, First, 0, FirstDirection(n)),
     EndLabel(FivePrime, Strand2, Last, n - 1, LastDirection(n))]
  }

  /** The children of the group for a non-empty sequence, in the order
      they are added. */
  function Group(s: string): seq<Primitive>
    requires |s| >= 1
  {
    var n := |s|;
    Positions(s, n) + [Backbone(Strand1, 2 * n), Backbone(Strand2, 2 * n)] + EndLabels(s)
  }

  lemma GroupSize(s: string)
    requires |s| >= 1
    ensures |Group(s)| == 4 * |s| + BondTotal(s) + 6
  {
  }

  lemma GroupFaithful(s: string)
    requires |s| >= 1
    ensures forall p :: p in Group(s) ==> Faithful(s, p)
  {
  }

  lemma GroupCovers(s: string)
    requires |s| >= 1
    ensures forall i :: 0 <= i < |s| ==> Covers(s, i, Group(s))
    ensures Backbone(Strand1, 2 * |s|) in Group(s) && Backbone(Strand2, 2 * |s|) in Group(s)
    ensures forall l :: l in EndLabels(s) ==> l in Group(s)
  {
    var n := |s|;
    var body, rest := Positions(s, n), [Backbone(Strand1, 2 * n), Backbone(Strand2, 2 * n)] + EndLabels(s);
    assert Group(s) == body + rest;
    forall i | 0 <= i < n
      ensures Covers(s, i, Group(s))
    {
      CoversAppend(s, i, body, rest);
    }
    assert rest[0] == Backbone(Strand1, 2 * n) && rest[1] == Backbone(Strand2, 2 * n);
    assert forall l :: l in EndLabels(s) ==> l in rest;
  }

  /** `createDNAHelix` as written. On an empty sequence the end-label step
      reads `points1[0].clone()` of an empty array and throws. For a
      non-empty sequence the curve and tube construction of the backbones is
      taken to succeed; then the group has 4n + (total bonds) + 6 children,
      every one faithful to the sequence, and it contains everything each
      position must draw, both backbones and all four end labels; with the
      count this fixes its contents. */
  function BuildHelix(s: string): (r: Result<seq<Primitive>, HelixError>)
    ensures r.Failure? <==> |s| == 0
    ensures r.Success? ==> |r.value| == 4 * |s| + BondTotal(s) + 6
    ensures r.Success? ==> forall p :: p in r.value ==> Faithful(s, p)
    ensures r.Success? ==> forall i :: 0 <= i < |s| ==> Covers(s, i, r.value)
    ensures r.Success? ==> Backbone(Strand1, 2 * |s|) in r.value && Backbone(Strand2, 2 * |s|) in r.value
    ensures r.Success? ==> forall l :: l in EndLabels(s) ==> l in r.value
  {
    if |s| == 0 then Failure(EmptyStrand)
    else
      GroupSize(s);
      GroupFaithful(s);
      GroupCovers(s);
      Success(Group(s))
  }

  /** The helix with the empty sequence handled: no children at all, and
      the as-written group for every other sequence. */
  function RenderHelix(s: string): (r: seq<Primitive>)
    ensures |s| == 0 ==> r == []
    ensures |s| > 0 ==> |r| == 4 * |s| + BondTotal(s) + 6
    ensures forall p :: p in r ==> Faithful(s, p)
    ensures forall i :: 0 <= i < |s| ==> Covers(s, i, r)
    ensures |s| > 0 ==> Backbone(Strand1, 2 * |s|) in r && Backbone(Strand2, 2 * |s|) in r
    ensures |s| > 0 ==> forall l :: l in EndLabels(s) ==> l in r
  {
    match BuildHelix(s)
    case Success(group) => group
    case Failure(_) => []
  }

  /** The helix shows the typed base on strand 1 and, on strand 2, the
      complementary strand the page prints below the canvas: the partner
      looked up per base while building agrees with the whole-strand map. */
  lemma HelixShowsComplementaryStrand(s: string, i: nat)
    requires i < |s|
    ensures BuildHelix(s).Success?
    ensures BaseLabel(Strand1, i, s[i]) in BuildHelix(s).value
    ensures BaseLabel(Strand2, i, ComplementarySequence(s)[i]) in BuildHelix(s).value
  {
    var r := BuildHelix(s).value;
    assert Covers(s, i, r);
    assert StrandSymbol(s, Strand1, i) == s[i];
    assert StrandSymbol(s, Strand2, i) == ComplementarySequence(s)[i];
  }

  /** Clearing the text box reaches the builder with the empty sequence,
      on which the as-written builder throws and the guarded one draws
      nothing. */
  lemma EmptySequenceThrows()
    ensures Sanitize("u") == []
    ensures BuildHelix(Sanitize("u")).Failure?
    ensures RenderHelix(Sanitize("u")) == []
  {
  }

  /** A single base has no neighbour, so every end label uses the fixed
      vertical offset: +0.3 at point 0, -0.3 at the last point. */
  lemma SingleBaseLabelsAreVertical(s: string)
    requires |s| == 1
    ensures forall p :: p in EndLabels(s) ==> p.direction.Vertical?
    ensures forall p :: p in EndLabels(s) ==> (p.direction.tenths > 0 <==> p.end == First)
  {
  }
}
