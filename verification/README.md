# DNA Structure: the symbolic core in Dafny

The application is a single React/three.js page, `src/App.js`, that draws a
DNA double helix for a sequence the user types or generates, shows the
complementary strand, and offers a small quiz ("Game Mode"). This project
models the parts of that page that are symbolic rather than graphical, and
proves properties about them:

- **Base-pairing table** (`BasePairs`): `BASE_PAIRS`, with each base's
  partner, hydrogen-bond count and ring class. It also models the two
  lookups the page performs, `?.complement || 'N'` and `?.hBonds || 2`.
- **Complementary strand** (`Strands`): `getComplementarySequence`.
- **Sequence input** (`SequenceInput`): the text box's sanitiser
  (`toUpperCase().replace(/[^ATCG]/g, '')`) and `generateRandomSequence`.
  `Math.random()` becomes a draw parameter in [0, 1).
- **Helix skeleton** (`Helix`): the primitives `createDNAHelix` adds to its
  group, listed in order with only their symbolic content:
  - the base boxes and labels of both strands;
  - the hydrogen-bond objects and their three dashes;
  - the two backbones with their tube segment count;
  - the four 5'/3' end labels with their anchor and direction rule.
- **Game mode** (`Game`): the four-question pool, `generateChallenge`,
  `checkAnswer` and the answer input, written as pure transitions on an
  immutable game state.

`Wrappers` holds `Option`/`Result`. `Text` holds the ASCII part of
`toUpperCase` and the case-insensitive equality it induces.

Three behaviours of the code are worth knowing before reading the model:
- Answers are compared without trimming, so `" T"` is wrong for the answer
  `T` (src/App.js:45).
- An empty sequence makes the helix builder throw instead of producing an
  empty helix (see Findings).
- The end labels are named after the first and last backbone points. The
  page calls point 0 the "top" tip, but its height grows with the index
  (src/App.js:283), so point 0 is the lowest point of the helix.

## Model

| member | source | states |
|---|---|---|
| BasePairs.Info | src/App.js:16-20 | each row names a partner other than the base itself and never uracil; the bond count is non-zero, 3 exactly for G and C and 2 otherwise; A and G are the purines |
| BasePairs.Lookup | src/App.js:294 | `BASE_PAIRS[c]` finds a row exactly for A, T, G, C and U, namely the row of the base stored under c, and a found row always has a partner and a non-zero bond count |
| BasePairs.FromSymbol | src/App.js:15-21 | exactly the five keys A, T, G, C, U are in the table, and a found base is stored under its own symbol |
| BasePairs.ComplementSymbol | src/App.js:294 | the partner symbol is 'N' exactly when the key is missing; otherwise it is a DNA symbol, and a DNA symbol never pairs with itself |
| BasePairs.BondCount | src/App.js:341 | the bond count drawn for a symbol is 3 exactly for G and C and 2 for everything else, unmapped symbols included |
| BasePairs.ComplementInvolutive | src/App.js:15-19 | the partner of the partner of A, T, G or C is the base itself |
| BasePairs.UracilNotInvolutive | src/App.js:20 | U pairs with A, but A pairs back with T, so pairing is not an involution on U |
| BasePairs.PairedBondsAgree | src/App.js:16-19 | a DNA base and its partner have the same hydrogen-bond count |
| BasePairs.PurinePairsWithPyrimidine | src/App.js:16-19 | every DNA pair joins a purine to a pyrimidine |
| Strands.ComplementarySequence | src/App.js:489-491 | the complementary strand has the input's length; character i is the partner of input character i; it is 'N' exactly where the input symbol is unmapped; a DNA strand gives a DNA strand |
| Strands.ComplementaryConcat | src/App.js:490 | the complement of a concatenation is the concatenation of the complements |
| Strands.ComplementaryInvolutive | src/App.js:489-491 | taking the complementary strand twice gives back any A/T/C/G strand |
| Strands.ComplementaryNotInvolutiveOffDna | src/App.js:20 | with U or an unmapped symbol the double complement differs from the input ("AU" gives "AT", "AX" gives "AN") |
| Text.UpperChar | src/App.js:519 | upper-casing a character gives a character with no lower-case letter; a lower-case letter maps to its upper-case partner 32 code points below, anything else is kept |
| Text.ToUpper | src/App.js:45 | the ASCII upper-casing keeps the length and upper-cases each character in place |
| Text.UpperCharEqualIffSameLetter | src/App.js:45 | two characters upper-case to the same character exactly when they are equal or are a lower-case ASCII letter and its upper-case partner |
| Text.UpperEqualIffEqualIgnoringCase | src/App.js:45 | two upper-cased strings are equal exactly when the originals have the same length and, position by position, are the same letter up to ASCII case |
| Text.ToUpperIdempotent | src/App.js:519 | upper-casing twice is the same as upper-casing once |
| SequenceInput.KeepDna | src/App.js:519 | removing non-ATCG characters yields an A/T/C/G string that is an in-order subsequence of the input and keeps every A, T, C and G |
| SequenceInput.Sanitize | src/App.js:519 | the accepted sequence contains only A/T/C/G, is no longer than the typed text, is an in-order subsequence of the upper-cased text, and keeps every A, T, C and G of it |
| SequenceInput.KeepDnaUnique | src/App.js:519 | any A/T/C/G-only subsequence that keeps every A, T, C and G equals the filter's output, so the contract determines the filter |
| SequenceInput.SanitizeFixesDnaStrand | src/App.js:519 | an upper-case A/T/C/G strand passes the sanitiser unchanged |
| SequenceInput.SanitizeIdempotent | src/App.js:519 | sanitising twice gives the same result as sanitising once |
| SequenceInput.PickIndex | src/App.js:485 | `Math.floor(draw * size)` is a valid index below size, for any draw in [0, 1) |
| SequenceInput.PickIndexReaches | src/App.js:485 | every index below size is picked by some draw |
| SequenceInput.GenerateRandomSequence | src/App.js:482-487 | a random sequence has 16 symbols, all from A/T/C/G, and the sanitiser accepts it unchanged |
| SequenceInput.GenerateRandomSequenceReachesAll | src/App.js:482-487 | every A/T/C/G strand of length 16 is produced by some choice of draws |
| Helix.Dashes | src/App.js:353-367 | the loop `k = start; k < 6; k += 2` yields one dash [k, k+1] (in sixths) per even k, all within the bond |
| Helix.BondDashes | src/App.js:353-367 | every bond is drawn as exactly three dashes, [0,1], [2,3] and [4,5] in sixths |
| Helix.PositionPrimitives | src/App.js:293-380 | position i adds exactly 4 + c primitives, where c is the bond count of its strand-1 base: a box and a label on each strand showing that strand's symbol (strand 2 reads the complementary sequence), and bonds 0 to c-1 with the three-dash pattern, all belonging to position i |
| Helix.BondTotal | src/App.js:341 | a sequence of n bases draws between 2n and 3n hydrogen bonds |
| Helix.BondTotalCountsGC | src/App.js:341 | the bond total is two per base plus one per G and one per C |
| Helix.Positions | src/App.js:281-381 | the first k iterations emit 4k plus the bond total of the first k bases. Every one of the first k positions has both boxes, both labels and all its bonds in the list, and nothing in it is inconsistent with the sequence or belongs to a later position |
| Helix.EndLabels | src/App.js:430-459 | there are four end labels, one per strand end. 5' sits at point 0 of strand 1 and the last point of strand 2, 3' at the other two ends. A label moves away from the adjacent point when there is more than one point, and otherwise by +0.3 at point 0 and -0.3 at the last point |
| Helix.BuildHelix | src/App.js:271-465 | the builder throws at the end-label step on the empty sequence (line 430). For n ≥ 1, with the backbone curve and tube construction at lines 385-386 taken to succeed, the group has 4n + bond total + 6 children, each consistent with the sequence, and it contains every position's boxes, labels and bonds, both backbones with 2n tube segments, and all four end labels |
| Helix.RenderHelix | src/App.js:430-433 | with the empty case guarded, the empty sequence draws nothing. Any other sequence gets the as-written group with its count, consistency and contents |
| Helix.HelixShowsComplementaryStrand | src/App.js:293-338 | the helix of a non-empty sequence labels position i with the typed base on strand 1 and, on strand 2, with character i of the complementary strand the page prints (line 540), although the builder looks each partner up on its own (line 294) |
| Helix.EmptySequenceThrows | src/App.js:519 | typing only "u" sanitises to the empty sequence, on which the as-written builder throws and the guarded one draws nothing |
| Helix.SingleBaseLabelsAreVertical | src/App.js:435-449 | with a single base every end label uses the vertical offset: +0.3 at point 0 and -0.3 at the last point. The page may never reach this code, since the one-point backbone curve at lines 385-386 may already throw |
| Game.GenerateChallenge | src/App.js:37-42 | the new challenge comes from the four-entry pool; the answer and feedback are cleared; the score is kept |
| Game.GenerateChallengeReachesAll | src/App.js:38 | each of the four challenges can be drawn |
| Game.EnterAnswer | src/App.js:77 | typing replaces the answer with the text as typed and leaves score, challenge and feedback alone |
| Game.TypeThenSubmit | src/App.js:44-48 | typing a text and submitting it raises the score on a pool challenge exactly when the text matches the expected answer up to case, and never lowers it |
| Game.CheckAnswer | src/App.js:44-52 | an answer equal up to case adds exactly the challenge's points with a "correct" feedback. Any other answer leaves the score alone and shows the expected answer. Challenge and typed text stay unchanged |
| Game.ResubmitScoresAgain | src/App.js:44-48 | submitting a right answer twice on one challenge adds its points twice |
| Game.AnswerMatchingExamples | src/App.js:45 | "t" is accepted for the answer T, but " T" is rejected because nothing is trimmed |
| Game.PoolAgreesWithTable | src/App.js:30-35 | the pool's expected answers are the pairing table's partners of A and G and the bond counts of A-T and G-C |
| Game.Step | src/App.js:37-52 | any handler keeps a challenge on screen and never lowers the score |
| Game.Run | src/App.js:37-86 | the score never decreases over any sequence of typing, submitting and next-challenge events |
| Game.Start | src/App.js:54-56 | mounting draws a pool challenge with score 0 |
| Game.StepInPlay | src/App.js:30-52 | each handler keeps the challenge in the pool and the score a non-negative multiple of ten |
| Game.RunInPlay | src/App.js:30-86 | the same holds after any sequence of events |

## Left out

- The three.js scene, renderer, lights, animation loop, mouse and wheel
  handlers and teardown (src/App.js:109-231) are I/O and rendering.
- All floating-point geometry is left out. This covers helix angles and
  heights, box and label positions, `atan2` orientation, bond offsets, the
  Catmull-Rom curve and tube, and normalised tangents. The model keeps only
  which point an end label is pushed away from, and the fixed ±0.3 offset
  in tenths. The curve library's own behaviour on short point lists is not
  part of this model.
- Helix.BuildHelix: the three.js `CatmullRomCurve3` and `TubeGeometry`
  calls (src/App.js:385-386) are taken to succeed for every non-empty
  point list. The curve library is not part of this model. If it throws on
  a one-point list, a one-base sequence crashes there too, and the
  single-point label offsets (Helix.SingleBaseLabelsAreVertical) are never
  reached. The builder's success on every non-empty sequence rests on this
  assumption; its failure on the empty sequence does not.
- Colours, canvas text sprites and JSX layout are cosmetic. The feedback
  text is a `Feedback` datatype rather than the rendered string.
- `Math.random()` is a draw parameter in [0, 1). No distribution is
  modelled. Scaling by the pool sizes used (4) is exact in floating point.
- Text.UpperChar: only ASCII letters are upper-cased. JavaScript's full
  Unicode mapping, including expansions such as U+FB06 to "ST", is not
  modelled.
- Strands.ComplementarySequence: a character is a Unicode scalar value,
  whereas `split('')` splits UTF-16 code units. A character outside the
  Basic Multilingual Plane gives one 'N' here but two in the page.
- Game.CheckAnswer: the score is an unbounded integer, so the loss of
  precision of JavaScript numbers above 2^53 is not modelled. React's
  batching of `setScore` with a stale closure is not modelled either; each
  submission is one transition.
- Exiting and re-entering game mode unmounts the component. That is modelled
  only as a fresh `Start`.

## Findings

| source | as written | input that shows it | evidently intended | confidence | as-written member | corrected member |
|---|---|---|---|---|---|---|
| src/App.js:430 | `createDNAHelix` reads `points1[0].clone()` without checking that the strand has a point, so an empty sequence throws inside the effect, at line 430 unless the backbone curve construction at lines 385-386 has already thrown | clearing the text box, or typing only "u": the sanitiser yields the empty sequence (Helix.EmptySequenceThrows) | an empty sequence shows an empty helix | high, not executed | Helix.BuildHelix | Helix.RenderHelix |
