/** `GameMode`: a fixed pool of four questions about base pairing, a score,
    the player's typed answer and the feedback line. Every handler is a
    pure transition on an immutable game state. */
module Game {
  import opened Wrappers
  import opened Text
  import opened BasePairs
  import opened SequenceInput

  datatype Challenge = Challenge(question: string, answer: string, points: nat)

  datatype Feedback = NoFeedback | CorrectFeedback(points: nat) | IncorrectFeedback(expected: string)

  /** `challenge` is `None` until the first challenge is drawn, mirroring
      the initial `useState('')`. */
  datatype GameState = GameState(score: int, challenge: Option<Challenge>, answer: string, feedback: Feedback)

  /** The `challenges` array. */
  const Pool: seq<Challenge> := [
    Challenge("What is the complementary base for A?", "T", 10),
    Challenge("What is the complementary base for G?", "C", 10),
    Challenge("How many hydrogen bonds form between A and T?", "2", 20),
    Challenge("How many hydrogen bonds form between G and C?", "3", 20)
  ]

  /** The state on mounting, before the effect draws a challenge. */
  const Initial: GameState := GameState(0, None, [], NoFeedback)

  /** `generateChallenge`: pick `challenges[Math.floor(draw * 4)]`, clear
      the typed answer and the feedback, keep the score. */
  function GenerateChallenge(st: GameState, draw: real): (r: GameState)
    requires IsDraw(draw)
    ensures r.challenge.Some? && r.challenge.value in Pool
    ensures r.answer == [] && r.feedback == NoFeedback
    ensures r.score == st.score
  {
    st.(challenge := Some(Pool[PickIndex(draw, |Pool|)]), answer := [], feedback := NoFeedback)
  }

  /** Every challenge of the pool can be drawn. */
  lemma GenerateChallengeReachesAll(st: GameState, k: nat)
    requires k < |Pool|
    ensures exists draw :: IsDraw(draw) && GenerateChallenge(st, draw).challenge == Some(Pool[k])
  {
    PickIndexReaches(k, |Pool|);
    assert GenerateChallenge(st, k as real / |Pool| as real).challenge == Some(Pool[k]);
  }

  /** The input's `onChange`: the typed text replaces the answer, as typed
      (not upper-cased); score, challenge and feedback are untouched. */
  function EnterAnswer(st: GameState, typed: string): (r: GameState)
    ensures r.answer == typed
    ensures r.score == st.score && r.challenge == st.challenge && r.feedback == st.feedback
  {
    st.(answer := typed)
  }

  /** Typing a text and submitting it scores on a pool challenge exactly
      when the text matches the expected answer up to case. */
  lemma TypeThenSubmit(st: GameState, typed: string)
    requires st.challenge.Some? && st.challenge.value in Pool
    ensures CheckAnswer(EnterAnswer(st, typed)).score > st.score <==> EqualIgnoringCase(typed, st.challenge.value.answer)
    ensures CheckAnswer(EnterAnswer(st, typed)).score >= st.score
  {
  }

  /** `checkAnswer`: the answer is right when the upper-cased texts are
      equal, i.e. when they agree ignoring case (nothing is trimmed). A
      right answer adds exactly the challenge's points, a wrong one leaves
      the score alone; neither changes the challenge or the typed text. */
  function CheckAnswer(st: GameState): (r: GameState)
    requires st.challenge.Some?
    ensures r.challenge == st.challenge && r.answer == st.answer
    ensures EqualIgnoringCase(st.answer, st.challenge.value.answer) ==>
              r.score == st.score + st.challenge.value.points
              && r.feedback == CorrectFeedback(st.challenge.value.points)
    ensures !EqualIgnoringCase(st.answer, st.challenge.value.answer) ==>
              r.score == st.score
              && r.feedback == IncorrectFeedback(st.challenge.value.answer)
  {
    var c := st.challenge.value;
    UpperEqualIffEqualIgnoringCase(st.answer, c.answer);
    if ToUpper(st.answer) == ToUpper(c.answer) then
      st.(score := st.score + c.points, feedback := CorrectFeedback(c.points))
    else
      st.(feedback := IncorrectFeedback(c.answer))
  }

  /** Submitting the same right answer twice scores twice. */
  lemma ResubmitScoresAgain(st: GameState)
    requires st.challenge.Some?
    requires EqualIgnoringCase(st.answer, st.challenge.value.answer)
    ensures CheckAnswer(CheckAnswer(st)).score == st.score + 2 * st.challenge.value.points
  {
  }

  /** Case is ignored, surrounding spaces are not. */
  lemma AnswerMatchingExamples()
    ensures CheckAnswer(GameState(0, Some(Pool[0]), "t", NoFeedback)).score == 10
    ensures CheckAnswer(GameState(0, Some(Pool[0]), " T", NoFeedback)).score == 0
  {
  }

  /** The expected answers agree with the pairing table. */
  lemma PoolAgreesWithTable()
    ensures Pool[0].answer == [ComplementSymbol('A')]
    ensures Pool[1].answer == [ComplementSymbol('G')]
    ensures Pool[2].answer == ['0' + BondCount('A') as char] && BondCount('T') == BondCount('A')
    ensures Pool[3].answer == ['0' + BondCount('G') as char] && BondCount('C') == BondCount('G')
  {
  }

  /** A user action in game mode. */
  datatype Event = Type(text: string) | Submit | Next(draw: real)

  predicate ValidEvent(e: Event) {
    e.Next? ==> IsDraw(e.draw)
  }

  /** One handler. */
  function Step(st: GameState, e: Event): (r: GameState)
    requires st.challenge.Some? && ValidEvent(e)
    ensures r.challenge.Some?
    ensures r.score >= st.score
  {
    match e
    case Type(text) => EnterAnswer(st, text)
    case Submit => CheckAnswer(st)
    case Next(draw) => GenerateChallenge(st, draw)
  }

  /** A session: the events in order, from a state that already shows a
      challenge (`Start` makes the first draw). */
  function Run(st: GameState, events: seq<Event>): (r: GameState)
    requires st.challenge.Some?
    requires forall i :: 0 <= i < |events| ==> ValidEvent(events[i])
    ensures r.challenge.Some?
    ensures r.score >= st.score
    decreases |events|
  {
    if events == [] then st else Run(Step(st, events[0]), events[1..])
  }

  /** The states a session can be in once a challenge has been drawn. */
  predicate InPlay(st: GameState) {
    && st.challenge.Some?
    && st.challenge.value in Pool
    && st.score >= 0
    && st.score % 10 == 0
  }

  /** Mounting draws the first challenge with a zero score. */
  function Start(draw: real): (r: GameState)
    requires IsDraw(draw)
    ensures InPlay(r) && r.score == 0
  {
    GenerateChallenge(Initial, draw)
  }

  /** Every handler keeps the session in play: the challenge always comes
      from the pool and the score is a non-negative multiple of ten. */
  lemma StepInPlay(st: GameState, e: Event)
    requires InPlay(st) && ValidEvent(e)
    ensures InPlay(Step(st, e))
  {
  }

  lemma {:induction false} RunInPlay(st: GameState, events: seq<Event>)
    requires InPlay(st)
    requires forall i :: 0 <= i < |events| ==> ValidEvent(events[i])
    ensures InPlay(Run(st, events))
    decreases |events|
  {
    if events != [] {
      StepInPlay(st, events[0]);
      RunInPlay(Step(st, events[0]), events[1..]);
    }
  }
}
