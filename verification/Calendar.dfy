/** One lookup at the calendar, as /upgrade makes it: a read whose every pause is
    bounded by a socket timeout, in a worker joined for what is left of the request's
    time. The calendar is an adversary in what it answers and how it trickles. */
module Calendar {
  import opened ProofTree
  import opened Wrappers

  const UPGRADE_QUERY_TIMEOUT: real := 5.0

  type Duration = x: real | x >= 0.0

  datatype Reply = Answered(proof: Proof) | NotFound | Error

  /** How the bytes stop: the answer is complete, nothing more ever comes, or bytes
      keep coming without end. */
  datatype Ending = Completes | FallsSilent | TricklesOn

  /** One lookup: time passed before its budget check, the pauses between the bytes
      the calendar sends, how they stop, and what the answer says once complete. */
  datatype Turn = Turn(gap: Duration, pauses: seq<Duration>, ending: Ending, reply: Reply)

  /** What the worker brings back, and after how long (None: never). */
  datatype Fetched = Fetched(takes: Option<Duration>, reply: Reply)

  function Limit(remaining: Duration): Duration {
    if remaining < UPGRADE_QUERY_TIMEOUT then remaining else UPGRADE_QUERY_TIMEOUT
  }

  function Sum(pauses: seq<Duration>): (total: Duration) {
    if pauses == [] then 0.0 else pauses[0] + Sum(pauses[1..])
  }

  /** The pauses sat out before the first that is longer than the timeout. */
  function SatOut(pauses: seq<Duration>, limit: Duration): (heard: seq<Duration>)
    ensures heard <= pauses && forall i | 0 <= i < |heard| :: heard[i] <= limit
    ensures |heard| < |pauses| ==> pauses[|heard|] > limit
  {
    if pauses == [] || pauses[0] > limit then [] else [pauses[0]] + SatOut(pauses[1..], limit)
  }

  predicate CutOff(turn: Turn, limit: Duration) {
    |SatOut(turn.pauses, limit)| < |turn.pauses| || turn.ending.FallsSilent?
  }

  function Fetch(turn: Turn, limit: Duration): (f: Fetched)
    ensures f.reply == turn.reply || f.reply == Error
  {
    var read := Sum(SatOut(turn.pauses, limit));
    if CutOff(turn, limit) then Fetched(Some(read + limit), Error)
    else if turn.ending.TricklesOn? then Fetched(None, Error)
    else Fetched(Some(read), turn.reply)
  }

  predicate ComesBack(f: Fetched, remaining: Duration) { f.takes.Some? && f.takes.value <= remaining }

  datatype Outcome = Found | NotFoundYet | FailedLookup | Unmergeable | Abandoned

  function OutcomeOf(turn: Turn, remaining: Duration, commitment: Message): (o: Outcome)
    ensures o == Found ==> turn.reply.Answered? && turn.reply.proof.nodes[0].message == commitment
  {
    var f := Fetch(turn, Limit(remaining));
    if !ComesBack(f, remaining) then Abandoned
    else match f.reply
      case NotFound => NotFoundYet
      case Error => FailedLookup
      case Answered(u) => if u.nodes[0].message == commitment then Found else Unmergeable
  }

  function WaitOf(turn: Turn, remaining: Duration): (w: Duration)
    ensures w <= remaining
  {
    var f := Fetch(turn, Limit(remaining));
    if ComesBack(f, remaining) then f.takes.value else remaining
  }

  // ---- how each lookup ends, in the calendar's own terms ----

  /** The answer is complete in time: no pause is longer than the socket timeout and
      all of them together fit into the time left. */
  predicate ArrivesInTime(turn: Turn, left: Duration) {
    && turn.ending.Completes? && Sum(turn.pauses) <= left
    && forall i | 0 <= i < |turn.pauses| :: turn.pauses[i] <= UPGRADE_QUERY_TIMEOUT
  }

  /** The read after the first `k` pauses times out: the next pause is too long, or
      nothing more comes. */
  predicate StopsAfter(turn: Turn, limit: Duration, k: nat) {
    && k <= |turn.pauses| && (forall i | 0 <= i < k :: turn.pauses[i] <= limit)
    && if k < |turn.pauses| then turn.pauses[k] > limit else turn.ending.FallsSilent?
  }

  /** ... and the worker is back with the timeout before the time left is over. */
  ghost predicate TimesOut(turn: Turn, left: Duration) {
    exists k: nat :: StopsAfter(turn, Limit(left), k) && Sum(turn.pauses[..k]) + Limit(left) <= left
  }

  predicate Answers(turn: Turn, left: Duration, commitment: Message) {
    && ArrivesInTime(turn, left)
    && turn.reply.Answered? && turn.reply.proof.nodes[0].message == commitment
  }

  lemma {:induction false} SumSplits(a: seq<Duration>, b: seq<Duration>)
    ensures Sum(a + b) == Sum(a) + Sum(b)
    ensures forall x: Duration :: Sum([x]) == x
  {
    if a == [] {
      assert a + b == b;
    } else {
      assert (a + b)[1..] == a[1..] + b;
      SumSplits(a[1..], b);
    }
    forall x: Duration ensures Sum([x]) == x {
      assert [x][1..] == [];
    }
  }

  lemma PauseWithinSum(pauses: seq<Duration>, i: nat)
    requires i < |pauses|
    ensures pauses[i] <= Sum(pauses)
  {
    assert pauses == pauses[..i] + ([pauses[i]] + pauses[i + 1..]);
    SumSplits(pauses[..i], [pauses[i]] + pauses[i + 1..]);
    SumSplits([pauses[i]], pauses[i + 1..]);
  }

  lemma {:induction false} ArrivesExactly(turn: Turn, left: Duration)
    ensures ArrivesInTime(turn, left) <==>
              !CutOff(turn, Limit(left)) && turn.ending.Completes? && Sum(SatOut(turn.pauses, Limit(left))) <= left
    ensures ArrivesInTime(turn, left) ==> SatOut(turn.pauses, Limit(left)) == turn.pauses
  {
    if ArrivesInTime(turn, left) {
      forall i | 0 <= i < |turn.pauses| ensures turn.pauses[i] <= Limit(left) {
        PauseWithinSum(turn.pauses, i);
      }
    }
    assert !CutOff(turn, Limit(left)) ==> SatOut(turn.pauses, Limit(left)) == turn.pauses;
  }

  lemma {:induction false} TimesOutExactly(turn: Turn, left: Duration)
    ensures TimesOut(turn, left) <==>
              CutOff(turn, Limit(left)) && Sum(SatOut(turn.pauses, Limit(left))) + Limit(left) <= left
  {
    var limit := Limit(left);
    var heard := SatOut(turn.pauses, limit);
    if CutOff(turn, limit) {
      assert StopsAfter(turn, limit, |heard|) && turn.pauses[..|heard|] == heard;
    }
    forall k: nat | StopsAfter(turn, limit, k) ensures turn.pauses[..k] == heard && CutOff(turn, limit) {
      assert |heard| == k;
    }
  }

  /** Every outcome, and how long it was waited for, by what the calendar sent and when. */
  lemma {:induction false} OutcomesExactly(turn: Turn, left: Duration, commitment: Message)
    ensures var o := OutcomeOf(turn, left, commitment);
            && (o == Found <==> Answers(turn, left, commitment))
            && (o == Unmergeable <==>
                  ArrivesInTime(turn, left) && turn.reply.Answered? && !Answers(turn, left, commitment))
            && (o == NotFoundYet <==> ArrivesInTime(turn, left) && turn.reply.NotFound?)
            && (o == FailedLookup <==> TimesOut(turn, left) || (ArrivesInTime(turn, left) && turn.reply.Error?))
            && (o == Abandoned <==> !ArrivesInTime(turn, left) && !TimesOut(turn, left))
    ensures ArrivesInTime(turn, left) ==> !TimesOut(turn, left)
    ensures ArrivesInTime(turn, left) ==> WaitOf(turn, left) == Sum(turn.pauses)
    ensures !ArrivesInTime(turn, left) && !TimesOut(turn, left) ==> WaitOf(turn, left) == left
  {
    ArrivesExactly(turn, left);
    TimesOutExactly(turn, left);
  }

  // ---- what the socket timeout does and does not bound ----

  lemma {:induction false} SumIsBounded(pauses: seq<Duration>, limit: Duration)
    requires forall i | 0 <= i < |pauses| :: pauses[i] <= limit
    ensures 0.0 <= Sum(pauses) <= |pauses| as real * limit
  {
    if pauses != [] {
      SumIsBounded(pauses[1..], limit);
      assert (|pauses| - 1) as real * limit + limit == |pauses| as real * limit;
    }
  }

  /** Each read is waited for at most the timeout; so is a calendar that never sends
      a byte. */
  lemma {:induction false} ReadsAreBounded(turn: Turn, remaining: Duration)
    ensures var limit := Limit(remaining);
            turn.ending.TricklesOn? || WaitOf(turn, remaining) <= |turn.pauses| as real * limit + limit
    ensures turn.pauses == [] && turn.ending.FallsSilent? ==> WaitOf(turn, remaining) == Limit(remaining)
  {
    var limit := Limit(remaining);
    var heard := SatOut(turn.pauses, limit);
    SumIsBounded(heard, limit);
    Multiply(|turn.pauses| - |heard|, |heard|, limit);
  }

  lemma Multiply(a: nat, b: nat, limit: Duration)
    ensures b as real * limit <= (a + b) as real * limit
  {
    assert (a + b) as real * limit == a as real * limit + b as real * limit;
  }

  /** A lookup outlasts the timeout exactly when that much time is left and the bytes
      that come in time keep it open: they take longer than the timeout, or come
      without end, or are followed by a silence that takes a timeout of its own. */
  lemma {:induction false} OutlastsTheTimeoutExactly(turn: Turn, remaining: Duration)
    ensures WaitOf(turn, remaining) > UPGRADE_QUERY_TIMEOUT <==>
              var read := Sum(SatOut(turn.pauses, UPGRADE_QUERY_TIMEOUT));
              && remaining > UPGRADE_QUERY_TIMEOUT
              && if CutOff(turn, UPGRADE_QUERY_TIMEOUT) then read > 0.0
                 else turn.ending.TricklesOn? || read > UPGRADE_QUERY_TIMEOUT
  {
    SumIsBounded(SatOut(turn.pauses, Limit(remaining)), Limit(remaining));
  }
}
