/**
 * The tutorial page: one randomly chosen target expression, a 50 ms interval
 * that grades the first detected face's probability for that expression, and
 * a one-way "finished" latch set by the first Perfect.
 *
 * The face detector is outside the model: each tick receives its result as a
 * sequence of faces, each a map from expression key to probability.
 */
module Tutorial {
  import opened Common

  /** One entry of the expression list (its label and emoji are display only). */
  datatype Expression = Expression(key: string)

  const ExpressionsList: seq<Expression> := [
    Expression("surprised"), Expression("happy"), Expression("sad"),
    Expression("angry"), Expression("neutral")
  ]

  /** The judgment text shown on screen: "", "Perfect", "Good" or "MISS". */
  datatype Judgment = Unjudged | Perfect | Good | Miss

  /** A detected face: expression key to probability. */
  type Face = map<string, real>

  const GoodThreshold: real := 0.5

  /** The stricter bar for a neutral face, the usual one for every other target. */
  function PerfectThreshold(key: string): (t: real)
    ensures GoodThreshold < t <= 1.0
    ensures key == "neutral" <==> t == 0.95
    ensures key != "neutral" <==> t == 0.8
  {
    if key == "neutral" then 0.95 else 0.8
  }

  /**
   * The grade chain for one probability. An absent key reads as `undefined`
   * in the source, and both comparisons with `undefined` are false, so it
   * grades as MISS.
   */
  function Grade(key: string, prob: Option<real>): (g: Judgment)
    ensures g != Unjudged
    ensures prob.None? ==> g == Miss
    ensures prob.Some? ==> (g == Perfect <==> prob.value >= PerfectThreshold(key))
    ensures prob.Some? ==> (g == Good <==> GoodThreshold <= prob.value < PerfectThreshold(key))
    ensures prob.Some? ==> (g == Miss <==> prob.value < GoodThreshold)
  {
    match prob
    case None => Miss
    case Some(p) =>
      if p >= PerfectThreshold(key) then Perfect
      else if p >= GoodThreshold then Good
      else Miss
  }

  /** Perfect > Good > Miss, for stating monotonicity. */
  function Rank(g: Judgment): nat
  {
    match g
    case Unjudged => 0
    case Miss => 1
    case Good => 2
    case Perfect => 3
  }

  /** A higher probability never earns a lower grade. */
  lemma GradeMonotone(key: string, p: real, q: real)
    requires p <= q
    ensures Rank(Grade(key, Some(p))) <= Rank(Grade(key, Some(q)))
  {
  }

  function Lookup(face: Face, key: string): Option<real>
  {
    if key in face then Some(face[key]) else None
  }

  /** The page state the interval callback reads and writes. */
  datatype PageState = PageState(
    modelLoaded: bool,
    target: Option<Expression>,
    currentScore: Judgment,
    finished: bool)

  const Initial: PageState := PageState(false, None, Unjudged, false)

  /** A finished page shows Perfect and only a finished page does. */
  predicate Consistent(s: PageState)
  {
    s.finished <==> s.currentScore == Perfect
  }

  /** The interval is armed only once the models are loaded and a target is set, and until finished. */
  predicate Armed(s: PageState)
  {
    s.modelLoaded && s.target.Some? && !s.finished
  }

  /** What one interval firing does, given the video readiness and the detector's result. */
  function Step(s: PageState, videoReady: bool, faces: seq<Face>): (r: PageState)
    ensures r.modelLoaded == s.modelLoaded && r.target == s.target
    ensures s.finished ==> r == s
    ensures !Armed(s) || !videoReady || |faces| == 0 ==> r == s
    ensures s.finished ==> r.finished
    ensures Consistent(s) ==> Consistent(r)
    ensures Armed(s) && videoReady && |faces| > 0 ==>
      var g := Grade(s.target.value.key, Lookup(faces[0], s.target.value.key));
      r.currentScore == g && (r.finished <==> g == Perfect)
  {
    if !Armed(s) || !videoReady || |faces| == 0 then s
    else
      var key := s.target.value.key;
      var g := Grade(key, Lookup(faces[0], key));
      if g == Perfect then s.(currentScore := Perfect, finished := true)
      else s.(currentScore := g)
  }

  /** Only the first face is consulted: two detector results that agree on it give the same tick. */
  lemma StepReadsFirstFaceOnly(s: PageState, videoReady: bool, faces: seq<Face>, others: seq<Face>)
    requires |faces| > 0 && |others| > 0 && faces[0] == others[0]
    ensures Step(s, videoReady, faces) == Step(s, videoReady, others)
  {
  }

  /** One interval firing's inputs. */
  datatype TickInput = TickInput(videoReady: bool, faces: seq<Face>)

  /** The state after a sequence of interval firings. */
  function Run(s: PageState, ticks: seq<TickInput>): PageState
    decreases |ticks|
  {
    if ticks == [] then s
    else Run(Step(s, ticks[0].videoReady, ticks[0].faces), ticks[1..])
  }

  lemma {:induction false} RunAppend(s: PageState, a: seq<TickInput>, b: seq<TickInput>)
    ensures Run(s, a + b) == Run(Run(s, a), b)
    decreases |a|
  {
    if a == [] {
      assert a + b == b;
    } else {
      assert (a + b)[1..] == a[1..] + b;
      RunAppend(Step(s, a[0].videoReady, a[0].faces), a[1..], b);
    }
  }

  /** Once finished, no later tick changes anything: Perfect is terminal. */
  lemma {:induction false} FinishedIsTerminal(s: PageState, ticks: seq<TickInput>)
    requires s.finished
    ensures Run(s, ticks) == s
    decreases |ticks|
  {
    if ticks != [] {
      FinishedIsTerminal(Step(s, ticks[0].videoReady, ticks[0].faces), ticks[1..]);
    }
  }

  /** Finished never goes back to false, whatever ticks follow. */
  lemma FinishedNeverUnset(s: PageState, before: seq<TickInput>, after: seq<TickInput>)
    requires Run(s, before).finished
    ensures Run(s, before + after) == Run(s, before)
  {
    RunAppend(s, before, after);
    FinishedIsTerminal(Run(s, before), after);
  }

  /** From any consistent state (the initial one included), every run stays consistent. */
  lemma {:induction false} RunConsistent(s: PageState, ticks: seq<TickInput>)
    requires Consistent(s)
    ensures Consistent(Run(s, ticks))
    decreases |ticks|
  {
    if ticks != [] {
      RunConsistent(Step(s, ticks[0].videoReady, ticks[0].faces), ticks[1..]);
    }
  }

  /** Before the models are loaded no interval is armed, so ticks do nothing. */
  lemma {:induction false} UnloadedRunIsIdle(s: PageState, ticks: seq<TickInput>)
    requires !s.modelLoaded
    ensures Run(s, ticks) == s
    decreases |ticks|
  {
    if ticks != [] {
      UnloadedRunIsIdle(Step(s, ticks[0].videoReady, ticks[0].faces), ticks[1..]);
    }
  }

  /** The page: React state and the latch ref collapse into these fields. */
  class TutorialPage {
    var modelLoaded: bool
    var target: Option<Expression>
    var currentScore: Judgment
    var isFinished: bool

    function State(): PageState
      reads this
    {
      PageState(modelLoaded, target, currentScore, isFinished)
    }

    ghost predicate Valid()
      reads this
    {
      Consistent(State()) && (modelLoaded <==> target.Some?)
    }

    /** Mount: no target yet, empty judgment, not finished. */
    constructor ()
      ensures Valid()
      ensures State() == Initial
    {
      modelLoaded, target, currentScore, isFinished := false, None, Unjudged, false;
    }

    /**
     * The model-loading effect. On success it picks the target with
     * `floor(r * 5)` and marks the models loaded; a failure is only logged.
     */
    method LoadModels(loadSucceeded: bool, r: real)
      requires Valid() && !modelLoaded
      requires 0.0 <= r < 1.0
      modifies this
      ensures Valid()
      ensures currentScore == old(currentScore) && isFinished == old(isFinished)
      ensures loadSucceeded ==> modelLoaded && target == Some(ExpressionsList[RandomIndex(r, |ExpressionsList|)])
      ensures !loadSucceeded ==> State() == old(State())
    {
      if loadSucceeded {
        var index := RandomIndex(r, |ExpressionsList|);
        target := Some(ExpressionsList[index]);
        modelLoaded := true;
      }
    }

    /** One firing of the 50 ms interval. */
    method Tick(videoReady: bool, faces: seq<Face>)
      requires Valid()
      modifies this
      ensures Valid()
      ensures State() == Step(old(State()), videoReady, faces)
    {
      if isFinished || !modelLoaded || target.None? {
        return;
      }
      if videoReady {
        if isFinished || |faces| == 0 {
          return;
        }
        var key := target.value.key;
        var prob := Lookup(faces[0], key);
        var perfectThreshold := PerfectThreshold(key);
        if prob.Some? && prob.value >= perfectThreshold {
          isFinished := true;
          currentScore := Perfect;
        } else if !isFinished {
          if prob.Some? && prob.value >= GoodThreshold {
            currentScore := Good;
          } else {
            currentScore := Miss;
          }
        }
      }
    }
  }
}
