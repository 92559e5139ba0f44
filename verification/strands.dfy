/** `getComplementarySequence`: the 3'→5' strand shown under the input,
    obtained by replacing every character of the 5'→3' strand with its
    partner from the pairing table. */
module Strands {
  import opened BasePairs

  /** Every character is one of A, T, C, G. */
  predicate IsDnaStrand(s: string) {
    forall i :: 0 <= i < |s| ==> IsDnaSymbol(s[i])
  }

  /** `seq.split('').map(base => BASE_PAIRS[base]?.complement || 'N').join('')`.
      The result has the input's length; its character i depends only on
      character i of the input; an unmapped character becomes 'N'; a DNA
      strand yields a DNA strand. */
  function ComplementarySequence(s: string): (r: string)
    ensures |r| == |s|
    ensures forall i :: 0 <= i < |s| ==> r[i] == ComplementSymbol(s[i])
    ensures forall i :: 0 <= i < |s| ==> (r[i] == Unknown <==> FromSymbol(s[i]).None?)
    ensures IsDnaStrand(s) ==> IsDnaStrand(r)
  {
    if s == [] then [] else [ComplementSymbol(s[0])] + ComplementarySequence(s[1..])
  }

  /** The complement of a concatenation is the concatenation of the
      complements, so the map works independently on every position. */
  lemma ComplementaryConcat(a: string, b: string)
    ensures ComplementarySequence(a + b) == ComplementarySequence(a) + ComplementarySequence(b)
  {
  }

  /** Taking the complementary strand twice gives back any DNA strand. */
  lemma ComplementaryInvolutive(s: string)
    requires IsDnaStrand(s)
    ensures ComplementarySequence(ComplementarySequence(s)) == s
  {
  }

  /** The involution fails as soon as the strand carries uracil or any
      unmapped symbol. */
  lemma ComplementaryNotInvolutiveOffDna()
    ensures ComplementarySequence("AU") == "TA"
    ensures ComplementarySequence(ComplementarySequence("AU")) == "AT"
    ensures ComplementarySequence("AX") == "TN"
    ensures ComplementarySequence(ComplementarySequence("AX")) == "AN"
  {
  }
}
