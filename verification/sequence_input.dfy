/** How a sequence enters the explorer: the text box's sanitiser, which
    upper-cases what was typed and drops every character other than A, T,
    C and G, and the "Generate Random Sequence" button. */
module SequenceInput {
  import opened Text
  import opened BasePairs
  import opened Strands

  /** `t` can be obtained from `s` by deleting characters, keeping order. */
  predicate IsSubsequence(t: string, s: string)
    decreases |s|
  {
    if t == [] then true
    else if s == [] then false
    else (t[0] == s[0] && IsSubsequence(t[1..], s[1..])) || IsSubsequence(t, s[1..])
  }

  /** `s` and `t` hold the same number of each DNA symbol. */
  predicate SameDnaCounts(t: string, s: string) {
    forall d :: IsDnaSymbol(d) ==> multiset(t)[d] == multiset(s)[d]
  }

  /** `.replace(/[^ATCG]/g, '')`: the in-order subsequence of DNA symbols. */
  function KeepDna(s: string): (r: string)
    ensures IsDnaStrand(r)
    ensures IsSubsequence(r, s)
    ensures SameDnaCounts(r, s)
  {
    if s == [] then []
    else
      assert s == [s[0]] + s[1..];
      if IsDnaSymbol(s[0]) then [s[0]] + KeepDna(s[1..])
      else KeepDna(s[1..])
  }

  /** The text box's `onChange`: `value.toUpperCase().replace(/[^ATCG]/g, '')`.
      The result is a DNA strand, no longer than what was typed, made of
      the typed characters in order and keeping every A, T, C and G of the
      upper-cased text. */
  function Sanitize(typed: string): (r: string)
    ensures IsDnaStrand(r)
    ensures |r| <= |typed|
    ensures IsSubsequence(r, ToUpper(typed))
    ensures SameDnaCounts(r, ToUpper(typed))
  {
    var r := KeepDna(ToUpper(typed));
    SubsequenceNoLonger(r, ToUpper(typed));
    r
  }

  lemma {:induction false} SubsequenceNoLonger(t: string, s: string)
    requires IsSubsequence(t, s)
    ensures |t| <= |s|
    decreases |s|
  {
    if t != [] {
      if t[0] == s[0] && IsSubsequence(t[1..], s[1..]) {
        SubsequenceNoLonger(t[1..], s[1..]);
      } else {
        SubsequenceNoLonger(t, s[1..]);
      }
    }
  }

  lemma {:induction false} SubsequenceMultiset(t: string, s: string)
    requires IsSubsequence(t, s)
    ensures multiset(t) <= multiset(s)
    decreases |s|
  {
    if t != [] {
      assert s == [s[0]] + s[1..];
      if t[0] == s[0] && IsSubsequence(t[1..], s[1..]) {
        SubsequenceMultiset(t[1..], s[1..]);
        assert t == [t[0]] + t[1..];
      } else {
        SubsequenceMultiset(t, s[1..]);
      }
    }
  }

  /** A string without DNA symbols sanitises to the empty string. */
  lemma NoDnaKeepsNothing(s: string)
    requires SameDnaCounts([], s)
    ensures KeepDna(s) == []
  {
  }

  /** Uniqueness: a DNA-only subsequence of `s` that keeps every DNA symbol
      of `s` is `KeepDna(s)`. With the contract of `KeepDna` this
      characterises the filter completely. */
  lemma {:induction false} KeepDnaUnique(t: string, s: string)
    requires IsDnaStrand(t) && IsSubsequence(t, s) && SameDnaCounts(t, s)
    ensures t == KeepDna(s)
    decreases |s|
  {
    if t == [] {
      NoDnaKeepsNothing(s);
    } else {
      assert s != [];
      var x, s' := s[0], s[1..];
      assert s == [x] + s';
      assert multiset(s) == multiset([x]) + multiset(s');
      if !IsDnaSymbol(x) {
        assert IsDnaSymbol(t[0]);
        assert IsSubsequence(t, s');
        KeepDnaUnique(t, s');
      } else if t[0] == x && IsSubsequence(t[1..], s') {
        var t' := t[1..];
        assert t == [x] + t';
        assert multiset(t) == multiset([x]) + multiset(t');
        KeepDnaUnique(t', s');
      } else {
        assert IsSubsequence(t, s');
        SubsequenceMultiset(t, s');
        assert false;
      }
    }
  }

  lemma {:induction false} SubsequenceReflexive(s: string)
    ensures IsSubsequence(s, s)
    decreases |s|
  {
    if s != [] {
      SubsequenceReflexive(s[1..]);
    }
  }

  /** A DNA strand passes the sanitiser unchanged. */
  lemma SanitizeFixesDnaStrand(s: string)
    requires IsDnaStrand(s)
    ensures Sanitize(s) == s
  {
    assert ToUpper(s) == s;
    SubsequenceReflexive(s);
    KeepDnaUnique(s, s);
  }

  /** Sanitising twice is sanitising once. */
  lemma SanitizeIdempotent(typed: string)
    ensures Sanitize(Sanitize(typed)) == Sanitize(typed)
  {
    SanitizeFixesDnaStrand(Sanitize(typed));
  }

  // ------------------------------------------------------------------
  // Random sequence

  /** `const length = 16`. */
  const RandomLength: nat := 16

  /** `const bases = ['A', 'T', 'C', 'G']`, in this order. */
  const RandomAlphabet: seq<char> := ['A', 'T', 'C', 'G']

  /** A draw of `Math.random()`: a number in [0, 1). */
  predicate IsDraw(x: real) {
    0.0 <= x < 1.0
  }

  predicate AllDraws(draws: seq<real>) {
    forall i :: 0 <= i < |draws| ==> IsDraw(draws[i])
  }

  /** `Math.floor(draw * size)`: an index into a pool of `size` entries.
      For a power-of-two size the floating-point product is exact, so the
      real-number model agrees with the source. */
  function PickIndex(draw: real, size: nat): (k: nat)
    requires IsDraw(draw) && size > 0
    ensures k < size
    ensures k as real <= draw * size as real < k as real + 1.0
  {
    var x := draw * size as real;
    assert size as real - x == (1.0 - draw) * size as real;
    assert (1.0 - draw) * size as real > 0.0;
    x.Floor as nat
  }

  /** Every index can be drawn: the draw k/size picks index k. */
  lemma PickIndexReaches(k: nat, size: nat)
    requires k < size
    ensures IsDraw(k as real / size as real)
    ensures PickIndex(k as real / size as real, size) == k
  {
  }

  /** `generateRandomSequence`: sixteen draws, each choosing one of the four
      DNA symbols. The result is a DNA strand of length sixteen, which the
      sanitiser leaves unchanged. */
  function GenerateRandomSequence(draws: seq<real>): (r: string)
    requires |draws| == RandomLength && AllDraws(draws)
    ensures |r| == RandomLength
    ensures IsDnaStrand(r)
    ensures Sanitize(r) == r
  {
    var r := seq(RandomLength, i requires 0 <= i < RandomLength =>
                   RandomAlphabet[PickIndex(draws[i], |RandomAlphabet|)]);
    SanitizeFixesDnaStrand(r);
    r
  }

  function AlphabetIndex(c: char): (k: nat)
    requires IsDnaSymbol(c)
    ensures k < |RandomAlphabet| && RandomAlphabet[k] == c
  {
    if c == 'A' then 0 else if c == 'T' then 1 else if c == 'C' then 2 else 3
  }

  /** Every DNA strand of length sixteen is a possible random sequence. */
  lemma GenerateRandomSequenceReachesAll(target: string)
    requires |target| == RandomLength && IsDnaStrand(target)
    ensures exists draws :: |draws| == RandomLength && AllDraws(draws)
                            && GenerateRandomSequence(draws) == target
  {
    var draws := seq(RandomLength, i requires 0 <= i < RandomLength =>
                       AlphabetIndex(target[i]) as real / |RandomAlphabet| as real);
    forall i | 0 <= i < RandomLength
      ensures IsDraw(draws[i])
      ensures PickIndex(draws[i], |RandomAlphabet|) == AlphabetIndex(target[i])
    {
      PickIndexReaches(AlphabetIndex(target[i]), |RandomAlphabet|);
    }
    assert GenerateRandomSequence(draws) == target;
  }
}
