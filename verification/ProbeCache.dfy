/** The single-flight, serve-stale cache of the calendar probe behind /health, as
    interleaved steps of any number of request threads over one lock and the two
    shared cells `at` and `result`. `resultFirst` chooses the order of the two
    writes that publish a probe; the code writes `at` first. A TTL of zero or less
    switches the cache off. */
module ProbeCache {
  import opened Reals
  import opened Wrappers

  type ThreadId = nat
  type Reading = nat

  datatype Params = Params(ttl: real, resultFirst: bool)

  /** Where a thread is in the call; the comment names the access it performs next. */
  datatype Place =
    | Start                                     // read the clock and `at`
    | Bypassing                                 // without a TTL: the probe is in flight
    | Serving                                   // read `result`, without the lock, and return it
    | TryLock                                   // acquire without blocking
    | WaitLock                                  // acquire, blocking
    | Locked                                    // read the clock and `at` again
    | LockedServing                             // read `result` under the lock
    | Due                                       // start the probe
    | Probing                                   // the probe is in flight
    | Publishing(reading: Reading, done: real)  // first write
    | HalfPublished(reading: Reading, done: real) // second write
    | Leaving(answer: Option<Reading>)          // release the lock and return

  datatype Return = Return(thread: ThreadId, answer: Option<Reading>)

  datatype State = State(
    clock: real, holder: Option<ThreadId>, at: Option<real>, result: Option<Reading>,
    threads: map<ThreadId, Place>,
    // history: when each probe started, the `at` recorded for each published
    // probe, the readings of completed probes, what calls returned
    starts: seq<real>, stamps: seq<real>, completed: set<Reading>, returned: seq<Return>)

  const INIT := State(0.0, None, None, None, map[], [], [], {}, [])

  /** One atomic step: time passes, a call arrives, or thread `t` performs its next
      access. `instant` is the clock reading the access uses, possibly an earlier
      one; `reading` is what the probe found. */
  datatype Step =
    | Tick(seconds: real)
    | Arrive(t: ThreadId)
    | Advance(t: ThreadId, instant: real, reading: Reading)

  predicate Fresh(at: Option<real>, now: real, p: Params) {
    at.Some? && now - at.value < p.ttl
  }

  predicate HoldsLock(place: Place) {
    place.Locked? || place.LockedServing? || place.Due? || place.Probing? || place.Publishing?
    || place.HalfPublished? || place.Leaving?
  }

  predicate Enabled(s: State, step: Step) {
    match step
    case Tick(seconds) => seconds >= 0.0
    case Arrive(t) => t !in s.threads
    case Advance(t, instant, _) =>
      && t in s.threads && instant <= s.clock
      && match s.threads[t]
         case WaitLock => s.holder == None
         case Publishing(_, done) => done <= instant
         case HalfPublished(_, done) => done <= instant
         case _ => true
  }

  function Goto(s: State, t: ThreadId, place: Place): State { s.(threads := s.threads[t := place]) }

  function Leave(s: State, t: ThreadId, answer: Option<Reading>): State {
    s.(threads := s.threads - {t}, returned := s.returned + [Return(t, answer)])
  }

  function WriteAt(s: State, instant: real): State { s.(at := Some(instant), stamps := s.stamps + [instant]) }

  function WriteResult(s: State, reading: Reading): State { s.(result := Some(reading)) }

  function Apply(s: State, step: Step, p: Params): State
    requires Enabled(s, step)
  {
    match step
    case Tick(seconds) => s.(clock := s.clock + seconds)
    case Arrive(t) => Goto(s, t, Start)
    case Advance(t, instant, reading) =>
      match s.threads[t]
      case Start =>
        if p.ttl <= 0.0 then Goto(s.(starts := s.starts + [s.clock]), t, Bypassing)
        else if Fresh(s.at, instant, p) then Goto(s, t, Serving)
        else Goto(s, t, if s.at.Some? then TryLock else WaitLock)
      case Bypassing => Leave(s.(completed := s.completed + {reading}), t, Some(reading))
      case Serving => Leave(s, t, s.result)
      case TryLock =>
        if s.holder.Some? then Goto(s, t, Serving) else Goto(s.(holder := Some(t)), t, Locked)
      case WaitLock => Goto(s.(holder := Some(t)), t, Locked)
      case Locked => Goto(s, t, if Fresh(s.at, instant, p) then LockedServing else Due)
      case LockedServing => Goto(s, t, Leaving(s.result))
      case Due => Goto(s.(starts := s.starts + [s.clock]), t, Probing)
      case Probing => Goto(s.(completed := s.completed + {reading}), t, Publishing(reading, s.clock))
      case Publishing(r, done) =>
        Goto(if p.resultFirst then WriteResult(s, r) else WriteAt(s, instant), t, HalfPublished(r, done))
      case HalfPublished(r, done) =>
        Goto(if p.resultFirst then WriteAt(s, instant) else WriteResult(s, r), t, Leaving(Some(r)))
      case Leaving(answer) => Leave(s.(holder := None), t, answer)
  }

  ghost predicate Path(s: State, steps: seq<Step>, s': State, p: Params)
    decreases |steps|
  {
    if steps == [] then s == s'
    else Enabled(s, steps[0]) && Path(Apply(s, steps[0], p), steps[1..], s', p)
  }

  ghost predicate Reachable(s: State, p: Params) {
    exists steps :: Path(INIT, steps, s, p)
  }

  // ---- the invariant ----

  /** The lock's holder is exactly the thread inside the locked section. */
  ghost predicate LockInv(s: State) {
    forall t :: s.holder == Some(t) <==> t in s.threads && HoldsLock(s.threads[t])
  }

  ghost predicate InSection(s: State) {
    s.holder.Some? && s.holder.value in s.threads
  }

  function Section(s: State): Place
    requires s.holder.Some? && s.holder.value in s.threads
  {
    s.threads[s.holder.value]
  }

  /** How far the probe of the thread in the locked section has come. */
  ghost predicate InFlight(s: State) {
    InSection(s) && (Section(s).Probing? || Section(s).Publishing? || Section(s).HalfPublished?)
  }

  ghost predicate AtWritten(s: State, p: Params) {
    InSection(s) && Section(s).HalfPublished? && !p.resultFirst
  }

  /** Probe starts are a TTL apart from the previous probe's recorded `at`. */
  ghost predicate Spaced(starts: seq<real>, stamps: seq<real>, ttl: real) {
    && |stamps| <= |starts| <= |stamps| + 1
    && (forall i | 0 <= i < |stamps| :: starts[i] <= stamps[i])
    && (forall i | 0 <= i < |stamps| && i + 1 < |starts| :: starts[i + 1] >= stamps[i] + ttl)
  }

  /** A thread about to probe found the TTL over. */
  ghost predicate DueInv(s: State, p: Params) {
    InSection(s) && Section(s).Due? && s.at.Some? ==> s.clock >= s.at.value + p.ttl
  }

  /** No probe starts in the future, and the one being published is over. */
  ghost predicate TimeInv(s: State) {
    && (forall i | 0 <= i < |s.starts| :: s.starts[i] <= s.clock)
    && (InSection(s) && Section(s).Publishing? ==> NotBefore(s.starts, Section(s).done) && Section(s).done <= s.clock)
    && (InSection(s) && Section(s).HalfPublished? ==>
          NotBefore(s.starts, Section(s).done) && Section(s).done <= s.clock)
  }

  ghost predicate NotBefore(starts: seq<real>, done: real) {
    forall i | 0 <= i < |starts| :: starts[i] <= done
  }

  /** `at` is the last recorded stamp, and a start without one is the probe in flight. */
  ghost predicate StampInv(s: State, p: Params) {
    && s.at == (if s.stamps == [] then None else Some(s.stamps[|s.stamps| - 1]))
    && |s.starts| == |s.stamps| + (if InFlight(s) && !AtWritten(s, p) then 1 else 0)
  }

  /** A published `at` has a published result, except between the first two writes;
      the cells hold what probes completed. */
  ghost predicate CellInv(s: State, p: Params) {
    && (s.result.Some? ==> s.result.value in s.completed)
    && (s.at.Some? && !AtWritten(s, p) ==> s.result.Some?)
    && (AtWritten(s, p) ==> s.at.Some?)
    && (InSection(s) && Section(s).Publishing? ==> Section(s).reading in s.completed)
    && (InSection(s) && Section(s).HalfPublished? ==>
          Section(s).reading in s.completed && (p.resultFirst ==> s.result.Some?))
  }

  /** Whoever is about to return has an answer, or has seen `at`. */
  ghost predicate AnswerInv(s: State, p: Params) {
    && (InSection(s) && Section(s).LockedServing? ==> s.at.Some?)
    && (InSection(s) && Section(s).Leaving? ==>
          s.result.Some? && Section(s).answer.Some? && Section(s).answer.value in s.completed)
    && SeenInv(s)
  }

  ghost predicate SeenInv(s: State) {
    forall t | t in s.threads && (s.threads[t].Serving? || s.threads[t].TryLock?) :: s.at.Some?
  }

  lemma SeenStep(s: State, step: Step, p: Params)
    requires SeenInv(s) && Enabled(s, step)
    ensures SeenInv(Apply(s, step, p))
  {
  }

  /** In the order as written, the first `at` comes before the first result. */
  ghost predicate FirstInv(s: State, p: Params) {
    && (AtWritten(s, p) ==> |s.stamps| >= 1)
    && (!p.resultFirst ==> (s.result == None <==> |s.stamps| == if AtWritten(s, p) then 1 else 0))
  }

  /** Which kind of call runs depends on the TTL alone. */
  ghost predicate ModeInv(s: State, p: Params) {
    && (p.ttl > 0.0 ==> forall t | t in s.threads :: !s.threads[t].Bypassing?)
    && (p.ttl <= 0.0 ==> forall t | t in s.threads :: s.threads[t].Start? || s.threads[t].Bypassing?)
  }

  lemma ModeStep(s: State, step: Step, p: Params)
    requires ModeInv(s, p) && Enabled(s, step)
    ensures ModeInv(Apply(s, step, p), p)
  {
  }

  lemma FirstStep(s: State, step: Step, p: Params)
    requires LockInv(s) && FirstInv(s, p) && Enabled(s, step)
    ensures FirstInv(Apply(s, step, p), p)
  {
    LockStep(s, step, p);
  }

  lemma LockStep(s: State, step: Step, p: Params)
    requires LockInv(s) && Enabled(s, step)
    ensures LockInv(Apply(s, step, p))
  {
  }

  lemma {:induction false} DueStep(s: State, step: Step, p: Params)
    requires LockInv(s) && DueInv(s, p) && Enabled(s, step)
    ensures DueInv(Apply(s, step, p), p)
  {
  }

  lemma {:induction false} TimeStep(s: State, step: Step, p: Params)
    requires p.ttl > 0.0 && ModeInv(s, p) && LockInv(s) && TimeInv(s) && Enabled(s, step)
    ensures TimeInv(Apply(s, step, p))
  {
  }

  lemma {:induction false} StampStep(s: State, step: Step, p: Params)
    requires p.ttl > 0.0 && ModeInv(s, p) && LockInv(s) && StampInv(s, p) && Enabled(s, step)
    ensures StampInv(Apply(s, step, p), p)
  {
    LockStep(s, step, p);
  }

  lemma {:induction false} SpacedStep(s: State, step: Step, p: Params)
    requires p.ttl > 0.0 && ModeInv(s, p) && Enabled(s, step)
    requires LockInv(s) && DueInv(s, p) && TimeInv(s) && StampInv(s, p)
    requires Spaced(s.starts, s.stamps, p.ttl)
    ensures Spaced(Apply(s, step, p).starts, Apply(s, step, p).stamps, p.ttl)
  {
  }

  lemma {:induction false} CellStep(s: State, step: Step, p: Params)
    requires LockInv(s) && CellInv(s, p) && Enabled(s, step)
    ensures CellInv(Apply(s, step, p), p)
  {
    LockStep(s, step, p);
  }

  lemma {:induction false} AnswerStep(s: State, step: Step, p: Params)
    requires LockInv(s) && CellInv(s, p) && AnswerInv(s, p) && Enabled(s, step)
    ensures AnswerInv(Apply(s, step, p), p)
  {
    LockStep(s, step, p);
    SeenStep(s, step, p);
  }

  ghost predicate Inv(s: State, p: Params) {
    && LockInv(s) && DueInv(s, p) && CellInv(s, p) && AnswerInv(s, p) && FirstInv(s, p) && ModeInv(s, p)
    && (p.ttl > 0.0 ==> TimeInv(s) && StampInv(s, p) && Spaced(s.starts, s.stamps, p.ttl))
  }

  lemma {:induction false} PathKeepsInv(s: State, steps: seq<Step>, s': State, p: Params)
    requires Inv(s, p) && Path(s, steps, s', p)
    ensures Inv(s', p)
    decreases |steps|
  {
    if steps != [] {
      LockStep(s, steps[0], p);
      DueStep(s, steps[0], p);
      if p.ttl > 0.0 {
        TimeStep(s, steps[0], p);
        StampStep(s, steps[0], p);
        SpacedStep(s, steps[0], p);
      }
      CellStep(s, steps[0], p);
      AnswerStep(s, steps[0], p);
      FirstStep(s, steps[0], p);
      ModeStep(s, steps[0], p);
      PathKeepsInv(Apply(s, steps[0], p), steps[1..], s', p);
    }
  }

  lemma ReachableInv(s: State, p: Params)
    requires Reachable(s, p)
    ensures Inv(s, p)
  {
    var steps :| Path(INIT, steps, s, p);
    PathKeepsInv(INIT, steps, s, p);
  }

  // ---- single flight ----

  predicate InProbe(place: Place) { place.Probing? || place.Bypassing? }

  /** In every reachable state, for either write order: at most one probe is in
      flight, and the thread that executes the release is the lock's holder. */
  lemma SingleFlight(s: State, p: Params, t: ThreadId, u: ThreadId)
    requires p.ttl > 0.0 && Reachable(s, p) && t in s.threads && u in s.threads
    ensures InProbe(s.threads[t]) && InProbe(s.threads[u]) ==> t == u
    ensures s.threads[t].Leaving? ==> s.holder == Some(t)
  {
    ReachableInv(s, p);
    assert s.holder == Some(t) <==> HoldsLock(s.threads[t]);
    assert s.holder == Some(u) <==> HoldsLock(s.threads[u]);
  }

  ghost predicate TwoInFlight(s: State) {
    exists t, u :: t in s.threads && u in s.threads && t != u && InProbe(s.threads[t]) && InProbe(s.threads[u])
  }

  /** Flights are single exactly with a positive TTL: without one, two calls are
      enough for two probes at once. */
  lemma SingleFlightExactlyWithATtl(p: Params)
    ensures (forall s | Reachable(s, p) :: !TwoInFlight(s)) <==> p.ttl > 0.0
  {
    if p.ttl > 0.0 {
      forall s | Reachable(s, p) ensures !TwoInFlight(s) {
        forall t, u | t in s.threads && u in s.threads && t != u
          ensures !(InProbe(s.threads[t]) && InProbe(s.threads[u]))
        {
          SingleFlight(s, p, t, u);
        }
      }
    } else {
      var s := TwoCallsBypass(p);
      assert s.threads[0].Bypassing? && s.threads[1].Bypassing?;
    }
  }

  lemma TwoCallsBypass(p: Params) returns (s: State)
    requires p.ttl <= 0.0
    ensures Reachable(s, p) && s.threads == map[0 := Bypassing, 1 := Bypassing]
  {
    var s1 := Apply(INIT, Arrive(0), p);
    var s2 := Apply(s1, Advance(0, 0.0, 0), p);
    var s3 := Apply(s2, Arrive(1), p);
    s := Apply(s3, Advance(1, 0.0, 0), p);
    assert Path(s, [], s, p);
    PathStep(s3, Advance(1, 0.0, 0), [], s, p);
    PathStep(s2, Arrive(1), [Advance(1, 0.0, 0)], s, p);
    PathStep(s1, Advance(0, 0.0, 0), [Arrive(1)] + [Advance(1, 0.0, 0)], s, p);
    PathStep(INIT, Arrive(0), [Advance(0, 0.0, 0)] + ([Arrive(1)] + [Advance(1, 0.0, 0)]), s, p);
  }

  lemma PathStep(s: State, step: Step, steps: seq<Step>, s': State, p: Params)
    requires Enabled(s, step) && Path(Apply(s, step, p), steps, s', p)
    ensures Path(s, [step] + steps, s', p)
  {
    assert ([step] + steps)[1..] == steps;
  }

  /** Each probe starts at least a TTL after the `at` recorded for the one before,
      itself not earlier than that probe's start. */
  lemma ProbesAreSpaced(s: State, p: Params, i: nat)
    requires p.ttl > 0.0 && Reachable(s, p) && i + 1 < |s.starts|
    ensures i < |s.stamps| && s.starts[i] <= s.stamps[i] && s.starts[i + 1] >= s.stamps[i] + p.ttl
  {
    ReachableInv(s, p);
  }

  /** The probes that start within the window [from, from + width]. */
  function StartsWithin(starts: seq<real>, from: real, width: real): nat {
    if starts == [] then 0
    else (if from <= starts[0] <= from + width then 1 else 0) + StartsWithin(starts[1..], from, width)
  }

  lemma {:induction false} SpacedCount(starts: seq<real>, stamps: seq<real>, ttl: real, from: real, width: real)
    requires ttl > 0.0 && width >= 0.0 && Spaced(starts, stamps, ttl)
    ensures starts != [] ==>
              StartsWithin(starts, from, width) as real * ttl
              <= (if starts[0] > from + width then 0.0
                  else if starts[0] >= from then from + width - starts[0] + ttl else width + ttl)
    decreases |starts|
  {
    if |starts| > 1 {
      SpacedCount(starts[1..], stamps[1..], ttl, from, width);
      assert starts[1] >= starts[0] + ttl;
      var k := StartsWithin(starts[1..], from, width) as real;
      assert (k + 1.0) * ttl == k * ttl + ttl;
    }
  }

  lemma CountBound(starts: seq<real>, stamps: seq<real>, ttl: real, from: real, width: real)
    requires ttl > 0.0 && width >= 0.0 && Spaced(starts, stamps, ttl)
    ensures StartsWithin(starts, from, width) as real <= width / ttl + 1.0
  {
    SpacedCount(starts, stamps, ttl, from, width);
    DividedBound(StartsWithin(starts, from, width) as real, width, ttl);
  }

  lemma DividedBound(k: real, width: real, ttl: real)
    requires ttl > 0.0 && width >= 0.0 && k * ttl <= width + ttl
    ensures k <= width / ttl + 1.0
  {
    DivideThenScale(width, ttl);
    ScaleKeepsOrder(k - 1.0, width / ttl, ttl);
    assert (k - 1.0) * ttl == k * ttl - ttl;
  }

  /** A window of `width` seconds sees at most width / TTL + 1 probe starts. */
  lemma ProbeRateBound(s: State, p: Params, from: real, width: real)
    requires p.ttl > 0.0 && width >= 0.0 && Reachable(s, p)
    ensures StartsWithin(s.starts, from, width) as real <= width / p.ttl + 1.0
  {
    ReachableInv(s, p);
    CountBound(s.starts, s.stamps, p.ttl, from, width);
  }

  // ---- what calls return ----

  /** A call that returned from `s` on got the reading of a completed probe. */
  ghost predicate AnswersAreReadings(s: State, from: nat) {
    forall i | from <= i < |s.returned| :: s.returned[i].answer.Some? && s.returned[i].answer.value in s.completed
  }

  /** The initial None can no longer be returned. */
  predicate NoneIsOver(s: State, p: Params) { p.resultFirst || p.ttl <= 0.0 || s.result.Some? }

  lemma {:induction false} AnswersFollow(s: State, steps: seq<Step>, s': State, p: Params, from: nat)
    requires Inv(s, p) && Path(s, steps, s', p) && from <= |s.returned|
    requires NoneIsOver(s, p) && AnswersAreReadings(s, from)
    ensures from <= |s'.returned| && AnswersAreReadings(s', from)
    decreases |steps|
  {
    if steps != [] {
      AnswerOf(s, steps[0], p);
      PathKeepsInv(s, [steps[0]], Apply(s, steps[0], p), p);
      var r, r' := s.returned, Apply(s, steps[0], p).returned;
      assert forall i | from <= i < |r| :: r'[i] == r[i];
      AnswersFollow(Apply(s, steps[0], p), steps[1..], s', p, from);
    }
  }

  /** One step returns at most one answer; once a result is published, or with the
      result written first, it is a completed probe's reading. */
  lemma {:induction false} AnswerOf(s: State, step: Step, p: Params)
    requires Inv(s, p) && Enabled(s, step) && NoneIsOver(s, p)
    ensures var s' := Apply(s, step, p);
            && s.completed <= s'.completed && (s.result.Some? ==> s'.result.Some?)
            && (s'.returned == s.returned
                || exists t, r :: s'.returned == s.returned + [Return(t, Some(r))] && r in s'.completed)
  {
  }

  /** With the result written before `at`, or without a TTL, every call of every run
      returns the reading of a completed probe. */
  lemma ResultFirstAlwaysAnswers(s: State, p: Params)
    requires (p.resultFirst || p.ttl <= 0.0) && Reachable(s, p)
    ensures AnswersAreReadings(s, 0)
  {
    var steps :| Path(INIT, steps, s, p);
    AnswersFollow(INIT, steps, s, p, 0);
  }

  // ---- the order as written ----

  /** Some continuation makes a call return the initial None. */
  ghost predicate CanReturnNone(s: State, p: Params) {
    exists steps, s' :: Path(s, steps, s', p) && ReturnsNone(s', |s.returned|)
  }

  ghost predicate ReturnsNone(s: State, from: nat) {
    exists i :: from <= i < |s.returned| && s.returned[i].answer == None
  }

  lemma Prepend(s: State, step: Step, p: Params)
    requires Enabled(s, step) && CanReturnNone(Apply(s, step, p), p)
    requires Apply(s, step, p).returned == s.returned
    ensures CanReturnNone(s, p)
  {
    var steps, s' :| Path(Apply(s, step, p), steps, s', p) && ReturnsNone(s', |s.returned|);
    assert ([step] + steps)[1..] == steps;
    assert Path(s, [step] + steps, s', p);
  }

  /** The window between the two writes of the first probe: a caller arriving now
      finds `at` set and is served the result cell, still None. */
  lemma HalfPublishedServesNone(s: State, p: Params)
    requires p.ttl > 0.0 && !p.resultFirst && Inv(s, p) && s.result == None
    requires InSection(s) && Section(s).HalfPublished?
    ensures CanReturnNone(s, p)
  {
    var b := FreshThread(s.threads.Keys);
    var s1 := Apply(s, Arrive(b), p);
    var s2 := Apply(s1, Advance(b, s.clock, 0), p);
    assert s2.threads[b].Serving? || s2.threads[b].TryLock?;
    var s3 := if s2.threads[b].TryLock? then Apply(s2, Advance(b, s.clock, 0), p) else s2;
    var s4 := Apply(s3, Advance(b, s.clock, 0), p);
    assert s4.returned == s.returned + [Return(b, None)];
    assert s4.returned[|s.returned|].answer == None;
    assert Path(s3, [], s3, p);
    ReturnsNow(s3, Advance(b, s.clock, 0), p);
    if s2 != s3 {
      Prepend(s2, Advance(b, s.clock, 0), p);
    }
    Prepend(s1, Advance(b, s.clock, 0), p);
    Prepend(s, Arrive(b), p);
  }

  lemma ReturnsNow(s: State, step: Step, p: Params)
    requires Enabled(s, step) && ReturnsNone(Apply(s, step, p), |s.returned|)
    ensures CanReturnNone(s, p)
  {
    assert [step][1..] == [];
    assert Path(s, [step], Apply(s, step, p), p);
  }

  lemma FreshThread(ids: set<ThreadId>) returns (t: ThreadId)
    ensures t !in ids && forall i | i in ids :: i < t
  {
    if ids == {} {
      t := 0;
    } else {
      var i :| i in ids;
      var above := FreshThread(ids - {i});
      t := if above <= i then i + 1 else above;
      assert forall j | j in ids :: j == i || j in ids - {i};
    }
  }

  /** Whoever is in the locked section can run on to the window. */
  lemma SectionServesNone(s: State, p: Params, togo: nat)
    requires p.ttl > 0.0 && !p.resultFirst && Inv(s, p) && s.result == None && InSection(s)
    requires togo == TogoOf(Section(s))
    ensures CanReturnNone(s, p)
    decreases togo
  {
    if Section(s).HalfPublished? {
      HalfPublishedServesNone(s, p);
    } else {
      assert HoldsLock(Section(s)) && s.at == None;
      var step := Advance(s.holder.value, s.clock, 0);
      PathKeepsInv(s, [step], Apply(s, step, p), p);
      SectionServesNone(Apply(s, step, p), p, togo - 1);
      Prepend(s, step, p);
    }
  }

  function TogoOf(place: Place): nat {
    match place
    case Locked => 4
    case Due => 3
    case Probing => 2
    case Publishing(_, _) => 1
    case _ => 0
  }

  /** With nobody in the locked section and no result yet, a new caller can go in
      and run on to the window. */
  lemma NewcomerServesNone(s: State, p: Params)
    requires p.ttl > 0.0 && !p.resultFirst && Inv(s, p) && s.result == None && s.holder == None
    ensures CanReturnNone(s, p)
  {
    var a := FreshThread(s.threads.Keys);
    var m := Move(a, s.clock, 0);
    var u := TakesTheLock(s, p, a, 0);
    assert s.at == None;
    PathKeepsInv(s, [Arrive(a), m, m], u, p);
    SectionServesNone(u, p, 4);
    NoneFollows(s, [Arrive(a), m, m], u, p);
  }

  lemma NoneFollows(s: State, steps: seq<Step>, u: State, p: Params)
    requires Path(s, steps, u, p) && u.returned == s.returned && CanReturnNone(u, p)
    ensures CanReturnNone(s, p)
  {
    var more, v :| Path(u, more, v, p) && ReturnsNone(v, |u.returned|);
    PathJoins(s, steps, u, more, v, p);
  }

  lemma {:induction false} PathJoins(s: State, a: seq<Step>, u: State, b: seq<Step>, v: State, p: Params)
    requires Path(s, a, u, p) && Path(u, b, v, p)
    ensures Path(s, a + b, v, p)
    decreases |a|
  {
    if a == [] {
      assert a + b == b;
    } else {
      assert (a + b)[1..] == a[1..] + b;
      PathJoins(Apply(s, a[0], p), a[1..], u, b, v, p);
    }
  }

  /** From any reachable state, some continuation makes a call return None exactly
      with the cache on, the order as written and no result published yet: the check
      a caller can make beforehand is `result is not None`. */
  lemma NoneReturnableExactlyBeforeFirstResult(s: State, p: Params)
    requires Reachable(s, p)
    ensures CanReturnNone(s, p) <==> p.ttl > 0.0 && !p.resultFirst && s.result == None
  {
    ReachableInv(s, p);
    if NoneIsOver(s, p) {
      NeverNone(s, p);
    } else if s.holder.Some? {
      SectionServesNone(s, p, TogoOf(Section(s)));
    } else {
      NewcomerServesNone(s, p);
    }
  }

  lemma NeverNone(s: State, p: Params)
    requires Inv(s, p) && NoneIsOver(s, p)
    ensures !CanReturnNone(s, p)
  {
    forall steps, s' | Path(s, steps, s', p) ensures !ReturnsNone(s', |s.returned|) {
      AnswersFollow(s, steps, s', p, |s.returned|);
    }
  }

  /** The step by which a thread returns what it has read. */
  ghost predicate Returns(s: State, step: Step, p: Params, answer: Option<Reading>)
    requires Enabled(s, step)
  {
    exists t :: Apply(s, step, p).returned == s.returned + [Return(t, answer)]
  }

  /** The step by which a thread reads the result cell without the lock. */
  predicate ReadsUnlocked(s: State, step: Step)
    requires Enabled(s, step)
  {
    step.Advance? && s.threads[step.t].Serving?
  }

  lemma LeaversAnswer(s: State, p: Params)
    requires Inv(s, p)
    ensures forall t | t in s.threads && s.threads[t].Leaving? :: s.threads[t].answer.Some?
  {
    forall t | t in s.threads && s.threads[t].Leaving? ensures s.threads[t].answer.Some? {
      assert s.holder == Some(t);
    }
  }

  /** A call returns None exactly by reading the result cell between the two writes
      of the very first probe, in the order as written. */
  lemma NoneIsReturnedExactlyInTheWindow(s: State, step: Step, p: Params)
    requires Reachable(s, p) && Enabled(s, step)
    ensures Returns(s, step, p, None) <==>
              ReadsUnlocked(s, step) && AtWritten(s, p) && |s.stamps| == 1
  {
    ReachableInv(s, p);
    forall t | Apply(s, step, p).returned == s.returned + [Return(t, None)]
      ensures ReadsUnlocked(s, step) && s.result == None
    {
      ReturnedNone(s, step, p);
    }
    if ReadsUnlocked(s, step) {
      assert s.result == None ==> Apply(s, step, p).returned == s.returned + [Return(step.t, None)];
      assert s.at.Some?;
    }
  }

  lemma ReturnedNone(s: State, step: Step, p: Params)
    requires Inv(s, p) && Enabled(s, step) && |Apply(s, step, p).returned| > |s.returned|
    requires Apply(s, step, p).returned[|s.returned|].answer == None
    ensures ReadsUnlocked(s, step) && s.result == None
  {
    LeaversAnswer(s, p);
  }

  // ---- what a call is good for ----

  /** Thread `t` moves alone, at this clock; a probe of its own finds `r`. */
  function Move(t: ThreadId, clock: real, r: Reading): Step { Advance(t, clock, r) }

  lemma ThreeSteps(s: State, a: Step, b: Step, c: Step, p: Params)
    requires Enabled(s, a) && Enabled(Apply(s, a, p), b) && Enabled(Apply(Apply(s, a, p), b, p), c)
    ensures Path(s, [a, b, c], Apply(Apply(Apply(s, a, p), b, p), c, p), p)
  {
    var u := Apply(Apply(Apply(s, a, p), b, p), c, p);
    assert Path(u, [], u, p);
    PathStep(Apply(Apply(s, a, p), b, p), c, [], u, p);
    PathStep(Apply(s, a, p), b, [c] + [], u, p);
    PathStep(s, a, [b] + ([c] + []), u, p);
    assert [a] + ([b] + ([c] + [])) == [a, b, c];
  }

  /** Nothing fresh and nobody in the locked section: a new call, running alone, takes
      the lock, makes one probe, however long that takes, publishes it as of its end,
      and returns that probe's own reading. */
  lemma StaleCallProbes(s: State, p: Params, t: ThreadId, r: Reading, takes: real)
      returns (steps: seq<Step>, s': State)
    requires p.ttl > 0.0 && s.holder == None && !Fresh(s.at, s.clock, p) && t !in s.threads && takes >= 0.0
    ensures Path(s, steps, s', p) && forall i | 0 <= i < |steps| :: steps[i].Tick? || steps[i].t == t
    ensures s' == s.(clock := s.clock + takes, at := Some(s.clock + takes), result := Some(r),
                     starts := s.starts + [s.clock], stamps := s.stamps + [s.clock + takes],
                     completed := s.completed + {r}, returned := s.returned + [Return(t, Some(r))])
  {
    var a, u := GetsAProbeGoing(s, p, t, r, takes);
    var b;
    b, s' := FinishesTheProbe(u, p, t, r);
    PathJoins(s, a, u, b, s', p);
    steps := a + b;
    assert s'.threads == s.threads;
  }

  lemma GetsAProbeGoing(s: State, p: Params, t: ThreadId, r: Reading, takes: real)
      returns (steps: seq<Step>, u: State)
    requires p.ttl > 0.0 && s.holder == None && !Fresh(s.at, s.clock, p) && t !in s.threads && takes >= 0.0
    ensures Path(s, steps, u, p) && forall i | 0 <= i < |steps| :: steps[i].Tick? || steps[i].t == t
    ensures u == s.(holder := Some(t), threads := s.threads[t := Probing], starts := s.starts + [s.clock],
                    clock := s.clock + takes)
  {
    var m := Move(t, s.clock, r);
    var a := TakesTheLock(s, p, t, r);
    u := StartsAProbe(a, p, t, r, takes);
    PathJoins(s, [Arrive(t), m, m], a, [m, m, Tick(takes)], u, p);
    steps := [Arrive(t), m, m] + [m, m, Tick(takes)];
    assert u.threads == s.threads[t := Probing];
  }

  lemma FinishesTheProbe(s: State, p: Params, t: ThreadId, r: Reading) returns (steps: seq<Step>, u: State)
    requires t in s.threads && s.threads[t].Probing?
    ensures Path(s, steps, u, p) && forall i | 0 <= i < |steps| :: steps[i].Tick? || steps[i].t == t
    ensures u == s.(threads := s.threads - {t}, at := Some(s.clock), result := Some(r), holder := None,
                    stamps := s.stamps + [s.clock], completed := s.completed + {r},
                    returned := s.returned + [Return(t, Some(r))])
  {
    var m := Move(t, s.clock, r);
    var a := Probes(s, p, t, r);
    u := Publishes(a, p, t, r);
    PathJoins(s, [m], a, [m, m, m], u, p);
    steps := [m] + [m, m, m];
    assert u.threads == s.threads - {t};
  }

  lemma TakesTheLock(s: State, p: Params, t: ThreadId, r: Reading) returns (u: State)
    requires p.ttl > 0.0 && s.holder == None && !Fresh(s.at, s.clock, p) && t !in s.threads
    ensures var m := Move(t, s.clock, r); Path(s, [Arrive(t), m, m], u, p)
    ensures u == s.(holder := Some(t), threads := s.threads[t := Locked])
  {
    var m := Move(t, s.clock, r);
    u := Apply(Apply(Apply(s, Arrive(t), p), m, p), m, p);
    ThreeSteps(s, Arrive(t), m, m, p);
    assert u.threads == s.threads[t := Locked];
  }

  lemma StartsAProbe(s: State, p: Params, t: ThreadId, r: Reading, takes: real) returns (u: State)
    requires !Fresh(s.at, s.clock, p) && t in s.threads && s.threads[t].Locked? && takes >= 0.0
    ensures var m := Move(t, s.clock, r); Path(s, [m, m, Tick(takes)], u, p)
    ensures u == s.(threads := s.threads[t := Probing], starts := s.starts + [s.clock], clock := s.clock + takes)
  {
    var m := Move(t, s.clock, r);
    u := Apply(Apply(Apply(s, m, p), m, p), Tick(takes), p);
    ThreeSteps(s, m, m, Tick(takes), p);
    assert u.threads == s.threads[t := Probing];
  }

  lemma Probes(s: State, p: Params, t: ThreadId, r: Reading) returns (u: State)
    requires t in s.threads && s.threads[t].Probing?
    ensures Path(s, [Move(t, s.clock, r)], u, p)
    ensures u == s.(threads := s.threads[t := Publishing(r, s.clock)], completed := s.completed + {r})
  {
    u := Apply(s, Move(t, s.clock, r), p);
    assert Path(u, [], u, p);
    PathStep(s, Move(t, s.clock, r), [], u, p);
    assert [Move(t, s.clock, r)] + [] == [Move(t, s.clock, r)];
  }

  lemma Publishes(s: State, p: Params, t: ThreadId, r: Reading) returns (u: State)
    requires t in s.threads && s.threads[t] == Publishing(r, s.clock)
    ensures var m := Move(t, s.clock, r); Path(s, [m, m, m], u, p)
    ensures u == s.(threads := s.threads - {t}, at := Some(s.clock), result := Some(r), holder := None,
                    stamps := s.stamps + [s.clock], returned := s.returned + [Return(t, Some(r))])
  {
    var m := Move(t, s.clock, r);
    u := Apply(Apply(Apply(s, m, p), m, p), m, p);
    ThreeSteps(s, m, m, m, p);
    assert u.threads == s.threads - {t};
  }

  /** Within the TTL a call is served what is published, without a lock and without a
      probe. */
  lemma FreshCallIsServed(s: State, p: Params, t: ThreadId, r: Reading) returns (s': State)
    requires p.ttl > 0.0 && Fresh(s.at, s.clock, p) && t !in s.threads
    ensures var m := Move(t, s.clock, r); Path(s, [Arrive(t), m, m], s', p)
    ensures s' == s.(returned := s.returned + [Return(t, s.result)])
  {
    var m := Move(t, s.clock, r);
    s' := Apply(Apply(Apply(s, Arrive(t), p), m, p), m, p);
    ThreeSteps(s, Arrive(t), m, m, p);
    assert s'.threads == s.threads;
  }

  /** While a refresh is in flight, a call that finds the reading expired is served it
      all the same, at once. */
  lemma ExpiredCallIsServedStale(s: State, p: Params, t: ThreadId, r: Reading) returns (s': State)
    requires p.ttl > 0.0 && s.at.Some? && !Fresh(s.at, s.clock, p) && s.holder.Some? && t !in s.threads
    ensures var m := Move(t, s.clock, r); Path(s, [Arrive(t), m, m] + [m], s', p)
    ensures s' == s.(returned := s.returned + [Return(t, s.result)])
  {
    var m := Move(t, s.clock, r);
    var u := Apply(Apply(Apply(s, Arrive(t), p), m, p), m, p);
    s' := Apply(u, m, p);
    ThreeSteps(s, Arrive(t), m, m, p);
    assert Path(s', [], s', p);
    PathStep(u, m, [], s', p);
    assert [m] + [] == [m];
    PathJoins(s, [Arrive(t), m, m], u, [m], s', p);
    assert s'.threads == s.threads;
  }

  /** A thread comes to read the result without the lock in two ways only: its first
      reading of `at` was within the TTL, or the lock was held when it tried. */
  lemma ServedUnlockedExactly(s: State, t: ThreadId, instant: real, r: Reading, p: Params)
    requires Enabled(s, Advance(t, instant, r)) && !s.threads[t].Serving?
    ensures var s' := Apply(s, Advance(t, instant, r), p);
            t in s'.threads && s'.threads[t].Serving? <==>
              || (s.threads[t].Start? && p.ttl > 0.0 && Fresh(s.at, instant, p))
              || (s.threads[t].TryLock? && s.holder.Some?)
    ensures var s' := Apply(s, Advance(t, instant, r), p);
            t in s'.threads && s'.threads[t].TryLock? <==>
              s.threads[t].Start? && p.ttl > 0.0 && s.at.Some? && instant >= s.at.value + p.ttl
  {
  }

  /** The state after the first `i` steps. */
  function After(s: State, steps: seq<Step>, i: nat, p: Params): State
    requires i <= |steps|
    decreases i
  {
    if i == 0 || !Enabled(s, steps[0]) then s else After(Apply(s, steps[0], p), steps[1..], i - 1, p)
  }

  /** Thread `t` tries the lock in the `i`-th step and finds it held. */
  ghost predicate MeetsALock(s: State, steps: seq<Step>, i: nat, t: ThreadId, p: Params)
    requires i < |steps|
  {
    var u := After(s, steps, i, p);
    steps[i].Advance? && steps[i].t == t && t in u.threads && u.threads[t].TryLock? && u.holder.Some?
  }

  /** Along any run, a call whose first reading of `at` was a TTL old or more, and that
      is then served without the lock, met a held lock in between: an expired reading
      is served only under a refresh. */
  lemma {:induction false} StaleServingMetALock(s: State, steps: seq<Step>, s': State, t: ThreadId, p: Params)
    requires Path(s, steps, s', p) && Arrive(t) !in steps
    requires t in s.threads && s.threads[t].TryLock? && t in s'.threads && s'.threads[t].Serving?
    ensures exists i :: 0 <= i < |steps| && MeetsALock(s, steps, i, t, p)
    decreases |steps|
  {
    var u := Apply(s, steps[0], p);
    if steps[0].Advance? && steps[0].t == t {
      if s.holder.Some? {
        assert MeetsALock(s, steps, 0, t, p);
      } else {
        InsideNeverServes(u, steps[1..], s', t, p);
      }
    } else {
      StaleServingMetALock(u, steps[1..], s', t, p);
      var i :| 0 <= i < |steps[1..]| && MeetsALock(u, steps[1..], i, t, p);
      assert MeetsALock(s, steps, i + 1, t, p);
    }
  }

  lemma {:induction false} InsideNeverServes(s: State, steps: seq<Step>, s': State, t: ThreadId, p: Params)
    requires Path(s, steps, s', p) && Arrive(t) !in steps && (t in s.threads ==> HoldsLock(s.threads[t]))
    ensures t in s'.threads ==> HoldsLock(s'.threads[t])
    decreases |steps|
  {
    if steps != [] {
      assert steps[0] in steps;
      InsideNeverServes(Apply(s, steps[0], p), steps[1..], s', t, p);
    }
  }
}
