/** The `BASE_PAIRS` table of src/App.js: for each nucleotide symbol, its
    pairing partner, the number of hydrogen bonds of the pair, and its ring
    class. Lookups go through the symbol as an object key, so any other
    character misses. */
module BasePairs {
  import opened Wrappers

  datatype Base = A | T | G | C | U

  datatype Ring = Purine | Pyrimidine

  datatype PairInfo = PairInfo(complement: Base, hBonds: nat, ring: Ring)

  /** Symbol printed for an unmapped base (`|| 'N'`). */
  const Unknown: char := 'N'

  /** Bond count used when the table gives none (`|| 2`). */
  const DefaultBonds: nat := 2

  /** One row of the table. Every row names a partner other than the base
      itself and other than uracil, and a non-zero bond count: three for
      the G-C pair, two otherwise. A and G are the purines. */
  function Info(b: Base): (r: PairInfo)
    ensures r.complement != b && r.complement != U
    ensures r.hBonds > 0 && (r.hBonds == 3 <==> b == G || b == C) && (r.hBonds == 2 <==> b != G && b != C)
    ensures r.ring == Purine <==> b == A || b == G
  {
    match b
    case A => PairInfo(T, 2, Purine)
    case T => PairInfo(A, 2, Pyrimidine)
    case G => PairInfo(C, 3, Purine)
    case C => PairInfo(G, 3, Pyrimidine)
    case U => PairInfo(A, 2, Pyrimidine)
  }

  /** The key under which a base is stored. */
  function Symbol(b: Base): (c: char)
    ensures c in {'A', 'T', 'G', 'C', 'U'}
  {
    match b
    case A => 'A'
    case T => 'T'
    case G => 'G'
    case C => 'C'
    case U => 'U'
  }

  /** Reading a key back: only the five table keys are present. */
  function FromSymbol(c: char): (r: Option<Base>)
    ensures r.Some? <==> c in {'A', 'T', 'G', 'C', 'U'}
    ensures r.Some? ==> Symbol(r.value) == c
  {
    match c
    case 'A' => Some(A)
    case 'T' => Some(T)
    case 'G' => Some(G)
    case 'C' => Some(C)
    case 'U' => Some(U)
    case _ => None
  }

  /** `BASE_PAIRS[c]`: a row exactly for the five keys, and that row is the
      one of the base stored under `c`. A found row always has a partner
      and a non-zero bond count, so the page's `||` fallbacks never fire
      for a present key. */
  function Lookup(c: char): (r: Option<PairInfo>)
    ensures r.Some? <==> c in {'A', 'T', 'G', 'C', 'U'}
    ensures forall b :: Symbol(b) == c ==> r == Some(Info(b))
    ensures r.Some? ==> r.value.hBonds > 0 && r.value.complement != U
  {
    match FromSymbol(c)
    case Some(b) => Some(Info(b))
    case None => None
  }

  /** The four DNA symbols accepted by the sequence input. */
  predicate IsDnaSymbol(c: char) {
    c == 'A' || c == 'T' || c == 'C' || c == 'G'
  }

  /** `BASE_PAIRS[c]?.complement || 'N'`. A table entry always names a
      partner, so the fallback fires exactly for a missing key; a DNA
      symbol pairs with a different DNA symbol, and the result is never
      uracil. */
  function ComplementSymbol(c: char): (r: char)
    ensures r == Unknown <==> FromSymbol(c).None?
    ensures r == Unknown || IsDnaSymbol(r)
    ensures IsDnaSymbol(c) ==> IsDnaSymbol(r) && r != c
  {
    match Lookup(c)
    case Some(info) => Symbol(info.complement)
    case None => Unknown
  }

  /** `BASE_PAIRS[c]?.hBonds || 2`: three for guanine and cytosine, two for
      every other symbol, mapped or not. */
  function BondCount(c: char): (n: nat)
    ensures n == 2 || n == 3
    ensures n == 3 <==> c == 'G' || c == 'C'
  {
    match Lookup(c)
    case Some(info) => if info.hBonds == 0 then DefaultBonds else info.hBonds
    case None => DefaultBonds
  }

  /** Pairing is an involution on the four DNA symbols. */
  lemma ComplementInvolutive(c: char)
    requires IsDnaSymbol(c)
    ensures ComplementSymbol(ComplementSymbol(c)) == c
  {
  }

  /** ... but not on uracil, which pairs with adenine, whose partner is
      thymine. */
  lemma UracilNotInvolutive()
    ensures ComplementSymbol('U') == 'A'
    ensures ComplementSymbol(ComplementSymbol('U')) == 'T'
  {
  }

  /** Both members of a pair agree on the number of hydrogen bonds. */
  lemma PairedBondsAgree(c: char)
    requires IsDnaSymbol(c)
    ensures BondCount(ComplementSymbol(c)) == BondCount(c)
  {
  }

  /** Every DNA pair joins a purine to a pyrimidine. */
  lemma PurinePairsWithPyrimidine(b: Base)
    requires b != U
    ensures Info(b).ring != Info(Info(b).complement).ring
  {
  }
}
