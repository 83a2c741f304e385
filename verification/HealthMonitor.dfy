/** The alarm poller, one run per timer tick, over two state files: the last
    delivered condition with its time, and the first-seen time of an anchor stall.
    Delivery and every write can fail; the script stops only at a failed delivery
    and a failed temporary file, and goes on past the others. */
module HealthMonitor {
  import opened Wrappers

  // ---- what a run observes and what it leaves behind ----

  /** What the anchor probe printed: nothing usable, or pending commitments and
      whether the most recent anchor transaction is None. */
  datatype Probe = ProbeFailed | Probed(pending: nat, noRecentTx: bool)

  /** How a write of the state file goes: it replaces the file; no temporary file
      can be made; the temporary file cannot be moved; or it is moved into place
      without its text, leaving a file that reads as no state. */
  datatype StateWrite = Replaces | NoTempFile | NotMoved | LeftEmpty

  /** One run's inputs: the clock, the condition read from /health, the anchor
      probe, whether the stall file can be written and removed, whether notify.sh
      delivers, and how a write of the state file goes. */
  datatype Tick = Tick(now: nat, condition: string, probe: Probe, sidecar: bool, delivers: bool, write: StateWrite)

  datatype Settings = Settings(realertSeconds: nat, stallSeconds: nat)

  datatype Stored = Stored(condition: string, at: nat)

  datatype Message =
    | Alarm(condition: string, at: nat)
    | Recovered(at: nat)

  datatype Report = RecoveryOrOk | AlarmSent | RealertSent | Quiet | Undelivered | CannotWrite

  /** `${FP#status=}` cut at the first space. */
  function StatusWord(condition: string): string {
    FirstWord(if "status=" <= condition then condition[7..] else condition)
  }

  function FirstWord(s: string): string {
    if s == [] || s[0] == ' ' then [] else [s[0]] + FirstWord(s[1..])
  }

  predicate Bad(condition: string) { StatusWord(condition) != "ok" }

  const STALL_MARKER := "anchor_stall=yes "

  /** `case "$LAST_FP" in ""|"status=ok"*` */
  predicate NothingToRecoverFrom(condition: string) { condition == "" || "status=ok" <= condition }

  predicate Stalled(probe: Probe) { probe.Probed? && probe.pending > 0 && probe.noRecentTx }

  predicate Clear(probe: Probe) { probe.Probed? && !Stalled(probe) }

  class Monitor {
    const settings: Settings
    var stored: Option<Stored>
    var stallSince: Option<nat>
    var delivered: seq<Message>

    ghost function Now(): Files
      reads this
    {
      Files(stored, stallSince, delivered)
    }

    constructor (settings: Settings)
      ensures this.settings == settings && Now() == Files(None, None, [])
    {
      this.settings := settings;
      stored, stallSince, delivered := None, None, [];
    }

    method Push(message: Message, delivers: bool) returns (ok: bool)
      modifies this`delivered
      ensures ok == delivers
      ensures delivered == if delivers then old(delivered) + [message] else old(delivered)
    {
      if delivers {
        delivered := delivered + [message];
      }
      ok := delivers;
    }

    method WriteState(condition: string, now: nat, write: StateWrite) returns (ok: bool)
      modifies this`stored
      ensures ok <==> write != NoTempFile
      ensures stored == StoredAfter(old(stored), condition, now, write)
    {
      if write.NoTempFile? {
        return false;
      }
      match write {
        case Replaces => stored := Some(Stored(condition, now));
        case LeftEmpty => stored := None;
        case NotMoved =>
      }
      ok := true;
    }

    /** The anchor stall section: moves the stall clock and marks the condition. */
    method CheckStall(t: Tick) returns (condition: string, status: string)
      modifies this`stallSince
      ensures stallSince == StallAfter(old(stallSince), t)
      ensures condition == ConditionAt(old(stallSince), t, settings)
      ensures status == "ok" <==> !Bad(condition)
    {
      condition := t.condition;
      status := StatusWord(condition);
      MarkedIsBad(t.condition);
      match t.probe {
        case ProbeFailed =>
        case Probed(pending, noRecentTx) =>
          if pending > 0 && noRecentTx {
            var firstSeen := if stallSince.Some? then stallSince.value else t.now;
            if stallSince == None && t.sidecar {
              stallSince := Some(t.now);
            }
            if t.now - firstSeen > settings.stallSeconds {
              condition := STALL_MARKER + condition;
              status := if status == "ok" then "stalled" else status;
            }
          } else if t.sidecar {
            stallSince := None;
          }
      }
      assert condition == ConditionAt(old(stallSince), t, settings);
    }

    /** One run of the script. */
    method Run(t: Tick) returns (report: Report)
      modifies this
      ensures (Now(), report) == AfterRun(old(Now()), t, settings)
    {
      var condition, status := CheckStall(t);
      var last := if stored.Some? then stored.value else Stored("", 0);
      if condition != last.condition {
        if status == "ok" {
          if !NothingToRecoverFrom(last.condition) {
            var sent := Push(Recovered(t.now), t.delivers);
            if !sent {
              return Undelivered;
            }
          }
          var written := WriteState(condition, t.now, t.write);
          return if written then RecoveryOrOk else CannotWrite;
        }
        var sent := Push(Alarm(condition, t.now), t.delivers);
        if !sent {
          return Undelivered;
        }
        var written := WriteState(condition, t.now, t.write);
        return if written then AlarmSent else CannotWrite;
      }
      if status != "ok" && t.now - last.at >= settings.realertSeconds {
        var sent := Push(Alarm(condition, t.now), t.delivers);
        if !sent {
          return Undelivered;
        }
        var written := WriteState(condition, t.now, t.write);
        return if written then RealertSent else CannotWrite;
      }
      report := Quiet;
    }
  }

  /** A condition that carries the stall marker is never the ok condition. */
  lemma MarkedIsBad(condition: string)
    ensures Bad(STALL_MARKER + condition)
  {
    var c := STALL_MARKER + condition;
    assert c[0] == 'a' && ("status=")[0] == 's';
    assert FirstWord(c)[0] == 'a';
  }

  // ---- one run, and runs ----

  datatype Files = Files(stored: Option<Stored>, stallSince: Option<nat>, delivered: seq<Message>)

  function StallAfter(since: Option<nat>, t: Tick): Option<nat> {
    if Stamps(t) && since == None then Some(t.now) else if Clears(t) then None else since
  }

  /** A stalled probe whose write of the stall file succeeds, should it be needed. */
  predicate Stamps(t: Tick) { Stalled(t.probe) && t.sidecar }

  /** A probe that shows no stall and whose removal of the stall file succeeds. */
  predicate Clears(t: Tick) { Clear(t.probe) && t.sidecar }

  /** The stall clock, as this run reads it, stands past the threshold. */
  predicate Overdue(since: Option<nat>, now: nat, p: Settings) {
    since.Some? && now - since.value > p.stallSeconds
  }

  /** The stall alarm is due: a stall seen by this run's probe, older than the threshold. */
  predicate StallDue(since: Option<nat>, t: Tick, p: Settings) { Stalled(t.probe) && Overdue(since, t.now, p) }

  function StoredAfter(stored: Option<Stored>, condition: string, now: nat, write: StateWrite): Option<Stored> {
    match write
    case Replaces => Some(Stored(condition, now))
    case LeftEmpty => None
    case NoTempFile => stored
    case NotMoved => stored
  }

  function ConditionAt(since: Option<nat>, t: Tick, p: Settings): string {
    (if StallDue(since, t, p) then STALL_MARKER else "") + t.condition
  }

  function Last(f: Files): Stored { if f.stored.Some? then f.stored.value else Stored("", 0) }

  /** The message this run has to deliver, if any. */
  function Due(f: Files, t: Tick, p: Settings): Option<Message> {
    var condition, last := ConditionAt(f.stallSince, t, p), Last(f);
    if Bad(condition) then
      if condition != last.condition || t.now - last.at >= p.realertSeconds then Some(Alarm(condition, t.now)) else None
    else if condition != last.condition && !NothingToRecoverFrom(last.condition) then Some(Recovered(t.now))
    else None
  }

  function AfterRun(f: Files, t: Tick, p: Settings): (Files, Report) {
    var condition, since, due := ConditionAt(f.stallSince, t, p), StallAfter(f.stallSince, t), Due(f, t, p);
    if due.Some? && !t.delivers then (f.(stallSince := since), Undelivered)
    else if due == None && condition == Last(f).condition then (f.(stallSince := since), Quiet)
    else
      var g := Files(StoredAfter(f.stored, condition, t.now, t.write), since,
                     if due.Some? then f.delivered + [due.value] else f.delivered);
      (g, if t.write.NoTempFile? then CannotWrite
          else if !Bad(condition) then RecoveryOrOk
          else if condition != Last(f).condition then AlarmSent else RealertSent)
  }

  function AfterRuns(f: Files, ticks: seq<Tick>, p: Settings): Files {
    if ticks == [] then f else AfterRun(AfterRuns(f, ticks[..|ticks| - 1], p), ticks[|ticks| - 1], p).0
  }

  const FRESH := Files(None, None, [])

  // ---- delivery ----

  /** An alarm or recovery that is not delivered leaves the stored condition as it
      was, so the next run retries. */
  lemma UndeliveredChangesNothing(f: Files, t: Tick, p: Settings)
    ensures AfterRun(f, t, p).1 == Undelivered <==> Due(f, t, p).Some? && !t.delivers
    ensures AfterRun(f, t, p).1 == Undelivered ==>
              AfterRun(f, t, p).0.stored == f.stored && AfterRun(f, t, p).0.delivered == f.delivered
  {
  }

  predicate Successful(r: Report) { !r.Undelivered? && !r.CannotWrite? }

  ghost predicate WritesSucceed(ticks: seq<Tick>) { forall i | 0 <= i < |ticks| :: ticks[i].write == Replaces }

  ghost predicate AllFromHealth(ticks: seq<Tick>) { forall i | 0 <= i < |ticks| :: FromHealth(ticks[i].condition) }

  /** (alarm+ recovered)*, possibly broken off after an alarm: a recovery is
      always directly preceded by an alarm. */
  ghost predicate Alternates(log: seq<Message>) {
    forall i | 0 <= i < |log| && log[i].Recovered? :: i > 0 && log[i - 1].Alarm?
  }

  /** The stored condition, if bad, is the last message; if there is something to
      recover from in it, it is bad. */
  ghost predicate Recorded(f: Files)
    requires f.stored.Some?
  {
    var c := f.stored.value.condition;
    && (Bad(c) ==> f.delivered != [] && f.delivered[|f.delivered| - 1] == Alarm(c, f.stored.value.at))
    && (!NothingToRecoverFrom(c) ==> Bad(c))
  }

  /** A stored condition to recover from was alarmed, and nothing was delivered since;
      without a stored condition nothing was ever delivered. */
  ghost predicate Ledger(f: Files) {
    && Alternates(f.delivered)
    && (f.stored == None ==> f.delivered == [])
    && (f.stored.Some? ==> Recorded(f))
  }

  /** What /health can be read as: a status line, one of the two failure words, or
      nothing at all when the reader itself fails. */
  ghost predicate FromHealth(condition: string) {
    condition == "" || "status=" <= condition || condition == "unreachable" || condition == "unparseable"
  }

  /** Among those, only a condition with nothing to recover from is not bad. */
  lemma OkConditionsLookOk(condition: string)
    requires FromHealth(condition) && !Bad(condition)
    ensures "status=ok" <= condition
  {
    FirstWordIsPrefix(condition);
    if "status=" <= condition {
      FirstWordIsPrefix(condition[7..]);
      assert "ok" <= condition[7..];
      assert condition == "status=" + condition[7..];
    }
  }

  lemma {:induction false} FirstWordIsPrefix(s: string)
    ensures FirstWord(s) <= s
  {
    if s != [] && s[0] != ' ' {
      FirstWordIsPrefix(s[1..]);
    }
  }

  lemma RunKeepsLedger(f: Files, t: Tick, p: Settings)
    requires Ledger(f) && t.write == Replaces && FromHealth(t.condition)
    ensures Ledger(AfterRun(f, t, p).0)
  {
    OkConditionsStay(f.stallSince, t, p);
    RunKeepsAlternation(f, t, p);
    RunKeepsRecord(f, t, p);
  }

  /** A condition that is not bad is the one read from /health, and there is nothing
      to recover from in it. */
  lemma OkConditionsStay(since: Option<nat>, t: Tick, p: Settings)
    requires FromHealth(t.condition)
    ensures var condition := ConditionAt(since, t, p);
            !Bad(condition) ==> condition == t.condition && NothingToRecoverFrom(condition)
  {
    MarkedIsBad(t.condition);
    if !Bad(t.condition) {
      OkConditionsLookOk(t.condition);
    }
  }

  lemma RunKeepsAlternation(f: Files, t: Tick, p: Settings)
    requires Ledger(f)
    ensures Alternates(AfterRun(f, t, p).0.delivered)
  {
    DeliveredByRun(f, t, p);
  }

  /** What a run adds to the delivered messages. */
  lemma DeliveredByRun(f: Files, t: Tick, p: Settings)
    ensures var due := Due(f, t, p);
            AfterRun(f, t, p).0.delivered == if due.Some? && t.delivers then f.delivered + [due.value] else f.delivered
  {
  }

  lemma RunKeepsRecord(f: Files, t: Tick, p: Settings)
    requires Ledger(f) && t.write == Replaces
    requires !Bad(ConditionAt(f.stallSince, t, p)) ==> NothingToRecoverFrom(ConditionAt(f.stallSince, t, p))
    ensures var g := AfterRun(f, t, p).0;
            && (g.stored == None ==> g.delivered == [])
            && (g.stored.Some? ==> Recorded(g))
  {
  }

  /** Over any sequence of runs whose state writes succeed, the delivered messages
      are (alarm+ recovered)*, and the stored bad condition is the last message. */
  lemma {:induction false} DeliveriesAlternate(ticks: seq<Tick>, p: Settings)
    requires WritesSucceed(ticks) && AllFromHealth(ticks)
    ensures Ledger(AfterRuns(FRESH, ticks, p))
  {
    if ticks != [] {
      DeliveriesAlternate(ticks[..|ticks| - 1], p);
      RunKeepsLedger(AfterRuns(FRESH, ticks[..|ticks| - 1], p), ticks[|ticks| - 1], p);
    }
  }

  // ---- which conditions are bad ----

  lemma {:induction false} FirstWordIsOk(s: string)
    ensures FirstWord(s) == "ok" <==> s == "ok" || "ok " <= s
  {
    if |s| >= 2 && s[0] == 'o' && s[1] == 'k' {
      var rest := s[1..][1..];
      assert FirstWord(s) == ['o'] + (['k'] + FirstWord(rest));
      assert |s| > 2 ==> rest[0] == s[2];
      assert s[..2] == "ok" && (|s| > 2 && s[2] == ' ' ==> s[..3] == "ok ");
    } else if |s| >= 1 {
      FirstWordIsPrefix(s);
    }
  }

  /** A /health line is good exactly if its status is the whole word ok, alone or with
      further fields after a space. */
  lemma {:induction false} BadExactly(condition: string)
    requires FromHealth(condition)
    ensures !Bad(condition) <==> condition == "status=ok" || "status=ok " <= condition
  {
    if "status=" <= condition {
      var rest := condition[7..];
      FirstWordIsOk(rest);
      assert condition == "status=" + rest;
      assert "status=ok" == "status=" + "ok" && "status=ok " == "status=" + "ok ";
      assert "status=ok " <= condition ==> condition[7..10] == "ok ";
    } else {
      FirstWordIsPrefix(condition);
      assert condition != "" ==> condition[0] == 'u';
      assert "status=ok"[..7] == "status=" && "status=ok "[..7] == "status=";
    }
  }

  predicate SaysOk(condition: string) { condition == "status=ok" || "status=ok " <= condition }

  lemma SaysOkIsFine(condition: string)
    requires SaysOk(condition)
    ensures FromHealth(condition) && !Bad(condition) && NothingToRecoverFrom(condition)
  {
    assert "status=" <= condition && "status=ok" <= condition;
    BadExactly(condition);
  }

  /** A run that reads all is well, with no overdue stall and nothing to recover from,
      delivers nothing, and puts what it read on record if its write succeeds. */
  lemma {:induction false} HealthyRunIsQuiet(f: Files, t: Tick, p: Settings)
    requires SaysOk(t.condition) && !StallDue(f.stallSince, t, p) && NothingToRecoverFrom(Last(f).condition)
    ensures var (after, report) := AfterRun(f, t, p);
            && after.delivered == f.delivered && (Successful(report) || report.CannotWrite?)
            && (t.write == Replaces ==> Last(after).condition == t.condition)
            && (after.stored == f.stored || NothingToRecoverFrom(Last(after).condition))
  {
    SaysOkIsFine(t.condition);
    assert "" + t.condition == t.condition;
    DeliveredByRun(f, t, p);
  }

  /** A monitor that has only ever read all is well, and never saw a stall, has
      delivered nothing, whatever its writes did. */
  lemma {:induction false} HealthyHistoryIsSilent(ticks: seq<Tick>, p: Settings)
    requires forall i | 0 <= i < |ticks| :: SaysOk(ticks[i].condition) && !Stalled(ticks[i].probe)
    ensures AfterRuns(FRESH, ticks, p).delivered == []
    ensures NothingToRecoverFrom(Last(AfterRuns(FRESH, ticks, p)).condition)
  {
    if ticks != [] {
      HealthyHistoryIsSilent(ticks[..|ticks| - 1], p);
      HealthyRunIsQuiet(AfterRuns(FRESH, ticks[..|ticks| - 1], p), ticks[|ticks| - 1], p);
    }
  }

  // ---- exactly what a run delivers ----

  /** A last alarm is on record, unless it is one the script sees nothing to recover
      from in and all was well since. */
  ghost predicate LastIsRecorded(f: Files) {
    LastIsAlarm(f.delivered) ==>
      var last := f.delivered[|f.delivered| - 1];
      f.stored == Some(Stored(last.condition, last.at)) || NothingToRecoverFrom(last.condition)
  }

  predicate LastIsAlarm(log: seq<Message>) { log != [] && log[|log| - 1].Alarm? }

  /** What a run records. */
  lemma StoredByRun(f: Files, t: Tick, p: Settings)
    ensures var condition, due := ConditionAt(f.stallSince, t, p), Due(f, t, p);
            AfterRun(f, t, p).0.stored
            == if (due.Some? && t.delivers) || (due == None && condition != Last(f).condition)
               then StoredAfter(f.stored, condition, t.now, t.write) else f.stored
  {
  }

  lemma {:induction false} RunKeepsLastRecorded(f: Files, t: Tick, p: Settings)
    requires Ledger(f) && LastIsRecorded(f) && t.write == Replaces && FromHealth(t.condition)
    ensures LastIsRecorded(AfterRun(f, t, p).0)
  {
    DeliveredByRun(f, t, p);
    StoredByRun(f, t, p);
    if Due(f, t, p) == None {
      OkConditionsStay(f.stallSince, t, p);
    }
  }

  lemma {:induction false} RunsKeepLastRecorded(ticks: seq<Tick>, p: Settings)
    requires WritesSucceed(ticks) && AllFromHealth(ticks)
    ensures LastIsRecorded(AfterRuns(FRESH, ticks, p))
  {
    if ticks != [] {
      var before, t := ticks[..|ticks| - 1], ticks[|ticks| - 1];
      RunsKeepLastRecorded(before, p);
      DeliveriesAlternate(before, p);
      RunKeepsLastRecorded(AfterRuns(FRESH, before, p), t, p);
    }
  }

  /** After runs whose writes succeeded, a recovery is due exactly when all is well and
      the last message is an alarm there is something to recover from in ... */
  lemma {:induction false} RecoveryDueExactly(ticks: seq<Tick>, t: Tick, p: Settings)
    requires WritesSucceed(ticks) && AllFromHealth(ticks) && FromHealth(t.condition)
    ensures var f := AfterRuns(FRESH, ticks, p);
            Due(f, t, p) == Some(Recovered(t.now)) <==>
              && !Bad(ConditionAt(f.stallSince, t, p))
              && LastIsAlarm(f.delivered) && !NothingToRecoverFrom(f.delivered[|f.delivered| - 1].condition)
  {
    DeliveriesAlternate(ticks, p);
    RunsKeepLastRecorded(ticks, p);
    OkConditionsStay(AfterRuns(FRESH, ticks, p).stallSince, t, p);
  }

  /** ... and an alarm for a bad condition exactly when the last message is not an alarm
      for it younger than the re-alert interval. */
  lemma {:induction false} AlarmDueExactly(ticks: seq<Tick>, t: Tick, p: Settings)
    requires WritesSucceed(ticks) && AllFromHealth(ticks)
    ensures var f := AfterRuns(FRESH, ticks, p);
            var c := ConditionAt(f.stallSince, t, p);
            Bad(c) && !NothingToRecoverFrom(c) ==>
              (Due(f, t, p) == Some(Alarm(c, t.now)) <==> !YoungAlarm(f.delivered, c, t.now, p))
  {
    DeliveriesAlternate(ticks, p);
    RunsKeepLastRecorded(ticks, p);
  }

  predicate YoungAlarm(log: seq<Message>, condition: string, now: nat, p: Settings) {
    && LastIsAlarm(log) && log[|log| - 1].condition == condition && now - log[|log| - 1].at < p.realertSeconds
  }

  /** Two alarms in a row for one condition lie at least the re-alert interval apart. */
  ghost predicate SpacedAlarms(log: seq<Message>, p: Settings) {
    forall i | 0 < i < |log| && log[i].Alarm? && !NothingToRecoverFrom(log[i].condition) ::
      log[i - 1].Alarm? && log[i - 1].condition == log[i].condition ==> log[i].at - log[i - 1].at >= p.realertSeconds
  }

  /** Over any runs whose writes succeed, no alarm is repeated early. */
  lemma {:induction false} AlarmsAreSpaced(ticks: seq<Tick>, p: Settings)
    requires WritesSucceed(ticks) && AllFromHealth(ticks)
    ensures SpacedAlarms(AfterRuns(FRESH, ticks, p).delivered, p)
  {
    if ticks != [] {
      var before, t := ticks[..|ticks| - 1], ticks[|ticks| - 1];
      var f := AfterRuns(FRESH, before, p);
      AlarmsAreSpaced(before, p);
      DeliveredByRun(f, t, p);
      if Due(f, t, p).Some? && t.delivers {
        SpacedOnce(before, t, p);
      }
    }
  }

  lemma {:induction false} SpacedOnce(ticks: seq<Tick>, t: Tick, p: Settings)
    requires WritesSucceed(ticks) && AllFromHealth(ticks)
    requires SpacedAlarms(AfterRuns(FRESH, ticks, p).delivered, p) && Due(AfterRuns(FRESH, ticks, p), t, p).Some?
    ensures var f := AfterRuns(FRESH, ticks, p); SpacedAlarms(f.delivered + [Due(f, t, p).value], p)
  {
    var f := AfterRuns(FRESH, ticks, p);
    var due := Due(f, t, p).value;
    AlarmDueExactly(ticks, t, p);
    OneAlarmMore(f.delivered, due, p);
  }

  lemma {:induction false} OneAlarmMore(log: seq<Message>, m: Message, p: Settings)
    requires SpacedAlarms(log, p)
    requires m.Alarm? && !NothingToRecoverFrom(m.condition) ==> !YoungAlarm(log, m.condition, m.at, p)
    ensures SpacedAlarms(log + [m], p)
  {
    var more := log + [m];
    assert forall i | 0 <= i < |log| :: more[i] == log[i];
  }

  // ---- delivery when state writes fail ----

  /** What holds whatever writes fail: a stored condition to recover from was bad,
      and something was delivered. */
  ghost predicate Tracked(f: Files) {
    f.stored.Some? && !NothingToRecoverFrom(f.stored.value.condition) ==>
      Bad(f.stored.value.condition) && f.delivered != []
  }

  /** A recovery was the last message delivered, and the state file still names the
      condition recovered from. */
  ghost predicate Unrecorded(f: Files) {
    && f.delivered != [] && f.delivered[|f.delivered| - 1].Recovered?
    && f.stored.Some? && !NothingToRecoverFrom(f.stored.value.condition)
  }

  /** ... and this run finds all well again, and delivers. */
  ghost predicate RepeatsRecovery(f: Files, t: Tick, p: Settings) {
    Unrecorded(f) && t.delivers && !Bad(ConditionAt(f.stallSince, t, p))
  }

  lemma {:induction false} RunKeepsTracked(f: Files, t: Tick, p: Settings)
    requires Tracked(f) && FromHealth(t.condition)
    ensures Tracked(AfterRun(f, t, p).0)
  {
    OkConditionsStay(f.stallSince, t, p);
    DeliveredByRun(f, t, p);
    StoredByRun(f, t, p);
  }

  lemma OneMessageMore(log: seq<Message>, m: Message)
    requires Alternates(log)
    ensures Alternates(log + [m]) <==> m.Recovered? ==> log != [] && log[|log| - 1].Alarm?
  {
    var more := log + [m];
    assert more[|log|] == m && (log != [] ==> more[|log| - 1] == log[|log| - 1]);
    assert forall i | 0 <= i < |log| :: more[i] == log[i];
  }

  /** One run breaks the alternation exactly when the last recovery delivered went
      unrecorded and this run finds all well and delivers. */
  lemma {:induction false} AlternationBreaksExactly(f: Files, t: Tick, p: Settings)
    requires Tracked(f) && Alternates(f.delivered) && FromHealth(t.condition)
    ensures !Alternates(AfterRun(f, t, p).0.delivered) <==> RepeatsRecovery(f, t, p)
  {
    DeliveredByRun(f, t, p);
    var due := Due(f, t, p);
    if due.Some? {
      OneMessageMore(f.delivered, due.value);
    }
  }

  /** A recovery comes to be unrecorded exactly when it is delivered and the state
      file keeps the old condition, and stays so until a message is delivered. */
  lemma {:induction false} UnrecordedExactly(f: Files, t: Tick, p: Settings)
    requires Tracked(f) && FromHealth(t.condition)
    ensures Unrecorded(AfterRun(f, t, p).0) <==>
              var due := Due(f, t, p);
              if due.Some? && t.delivers then due.value.Recovered? && (t.write.NoTempFile? || t.write.NotMoved?)
              else Unrecorded(f)
  {
    OkConditionsStay(f.stallSince, t, p);
    DeliveredByRun(f, t, p);
  }

  lemma {:induction false} RunsKeepTracked(ticks: seq<Tick>, p: Settings)
    requires AllFromHealth(ticks)
    ensures Tracked(AfterRuns(FRESH, ticks, p))
  {
    if ticks != [] {
      RunsKeepTracked(ticks[..|ticks| - 1], p);
      RunKeepsTracked(AfterRuns(FRESH, ticks[..|ticks| - 1], p), ticks[|ticks| - 1], p);
    }
  }

  lemma {:induction false} AlternationStep(f: Files, t: Tick, p: Settings)
    requires Tracked(f) && FromHealth(t.condition)
    ensures Alternates(AfterRun(f, t, p).0.delivered) <==> Alternates(f.delivered) && !RepeatsRecovery(f, t, p)
  {
    DeliveredByRun(f, t, p);
    if Alternates(f.delivered) {
      AlternationBreaksExactly(f, t, p);
    } else {
      StaysBroken(f.delivered, AfterRun(f, t, p).0.delivered);
    }
  }

  /** No run repeats an unrecorded recovery. */
  ghost predicate NeverRepeats(ticks: seq<Tick>, p: Settings) {
    forall i | 0 <= i < |ticks| :: !RepeatsRecovery(AfterRuns(FRESH, ticks[..i], p), ticks[i], p)
  }

  lemma NeverRepeatsSplits(ticks: seq<Tick>, t: Tick, p: Settings)
    ensures NeverRepeats(ticks + [t], p) <==>
              NeverRepeats(ticks, p) && !RepeatsRecovery(AfterRuns(FRESH, ticks, p), t, p)
  {
    var more := ticks + [t];
    assert more[..|ticks|] == ticks;
    assert forall i | 0 <= i < |ticks| :: more[..i] == ticks[..i] && more[i] == ticks[i];
  }

  /** Over any sequence of runs, whatever fails in them, the delivered messages are
      (alarm+ recovered)* if and only if no run repeats an unrecorded recovery. */
  lemma {:induction false} DeliveriesAlternateExactly(ticks: seq<Tick>, p: Settings)
    requires AllFromHealth(ticks)
    ensures Alternates(AfterRuns(FRESH, ticks, p).delivered) <==> NeverRepeats(ticks, p)
  {
    if ticks != [] {
      var before, t := ticks[..|ticks| - 1], ticks[|ticks| - 1];
      DeliveriesAlternateExactly(before, p);
      RunsKeepTracked(before, p);
      AlternationStep(AfterRuns(FRESH, before, p), t, p);
      NeverRepeatsSplits(before, t, p);
      assert ticks == before + [t];
    }
  }

  lemma StaysBroken(log: seq<Message>, more: seq<Message>)
    requires log <= more && !Alternates(log)
    ensures !Alternates(more)
  {
    var i :| 0 <= i < |log| && log[i].Recovered? && !(i > 0 && log[i - 1].Alarm?);
    assert more[i] == log[i] && (i > 0 ==> more[i - 1] == log[i - 1]);
  }

  /** The last message delivered is an alarm naming this condition, sent now or less
      than the re-alert interval ago. */
  ghost predicate Alarmed(log: seq<Message>, condition: string, now: nat, p: Settings) {
    && log != [] && log[|log| - 1].Alarm? && log[|log| - 1].condition == condition
    && (log[|log| - 1].at == now || now - log[|log| - 1].at < p.realertSeconds)
  }

  /** After every successful run that finds a bad condition that condition is alarmed,
      except exactly when the condition reads empty, there is no state file yet and
      the clock stands below the re-alert interval: an empty condition then equals
      what a missing file is read as. */
  lemma {:induction false} BadConditionIsAlarmed(ticks: seq<Tick>, t: Tick, p: Settings)
    requires WritesSucceed(ticks) && AllFromHealth(ticks)
    ensures var before := AfterRuns(FRESH, ticks, p);
            var (after, report) := AfterRun(before, t, p);
            var condition := ConditionAt(before.stallSince, t, p);
            Successful(report) && Bad(condition) ==>
              (Alarmed(after.delivered, condition, t.now, p)
               <==> !(condition == "" && before.stored == None && t.now < p.realertSeconds))
  {
    DeliveriesAlternate(ticks, p);
    DeliveredByRun(AfterRuns(FRESH, ticks, p), t, p);
  }

  ghost predicate ClockInOrder(ticks: seq<Tick>) {
    forall i, j | 0 <= i < j < |ticks| :: ticks[i].now <= ticks[j].now
  }

  /** Nothing is dated after `now`, and no stored bad condition after the last message. */
  ghost predicate Dated(f: Files, now: nat) {
    && (f.delivered != [] ==> f.delivered[|f.delivered| - 1].at <= now)
    && (f.stored.Some? && Bad(f.stored.value.condition) ==>
          f.delivered != [] && f.stored.value.at <= f.delivered[|f.delivered| - 1].at)
  }

  lemma {:induction false} RunKeepsDated(f: Files, t: Tick, p: Settings, now: nat)
    requires Dated(f, now) && now <= t.now
    ensures Dated(AfterRun(f, t, p).0, t.now)
  {
    DeliveredByRun(f, t, p);
  }

  lemma {:induction false} RunsKeepDated(ticks: seq<Tick>, p: Settings, now: nat)
    requires ClockInOrder(ticks) && (ticks != [] ==> ticks[|ticks| - 1].now <= now)
    ensures Dated(AfterRuns(FRESH, ticks, p), now)
  {
    if ticks != [] {
      var before, last := ticks[..|ticks| - 1], ticks[|ticks| - 1];
      RunsKeepDated(before, p, last.now);
      RunKeepsDated(AfterRuns(FRESH, before, p), last, p, last.now);
    }
  }

  /** After any runs on a clock that is not set back, whatever writes failed in them:
      a successful run in a bad condition leaves it alarmed exactly if this run had a
      message to deliver or the last message delivered before names the condition. */
  lemma {:induction false} AlarmedExactly(ticks: seq<Tick>, t: Tick, p: Settings)
    requires ClockInOrder(ticks + [t])
    ensures var before := AfterRuns(FRESH, ticks, p);
            var (after, report) := AfterRun(before, t, p);
            var condition := ConditionAt(before.stallSince, t, p);
            Successful(report) && Bad(condition) ==>
              (Alarmed(after.delivered, condition, t.now, p)
               <==> Due(before, t, p).Some? || LastNames(before.delivered, condition))
  {
    var before := AfterRuns(FRESH, ticks, p);
    assert (ticks + [t])[|ticks|] == t;
    assert forall i | 0 <= i < |ticks| :: (ticks + [t])[i] == ticks[i];
    RunsKeepDated(ticks, p, t.now);
    DeliveredByRun(before, t, p);
  }

  ghost predicate LastNames(log: seq<Message>, condition: string) {
    log != [] && log[|log| - 1].Alarm? && log[|log| - 1].condition == condition
  }

  /** The exception occurs: a first run, early on the clock, that reads nothing stays quiet. */
  lemma EmptyConditionStaysQuiet(t: Tick, p: Settings)
    requires t.condition == "" && t.probe == ProbeFailed && t.now < p.realertSeconds
    ensures var (after, report) := AfterRun(FRESH, t, p);
            Successful(report) && Bad(ConditionAt(FRESH.stallSince, t, p)) && after.delivered == []
  {
    assert FirstWord("") == "" && "" != "ok";
  }

  /** All is well, but the state file cannot be replaced. */
  function OkUnwritten(now: nat): Tick { Tick(now, "status=ok", ProbeFailed, true, true, NoTempFile) }

  function Unreachable(now: nat): Tick { Tick(now, "unreachable", ProbeFailed, true, true, Replaces) }

  /** A run that breaks the alternation: the same recovery is delivered twice. */
  lemma FailedWriteRepeatsRecovery(p: Settings)
    ensures var ticks := [Unreachable(0), OkUnwritten(1), OkUnwritten(2)];
            AfterRuns(FRESH, ticks, p).delivered == [Alarm("unreachable", 0), Recovered(1), Recovered(2)]
  {
    var t0 := Unreachable(0);
    var f1 := FirstAlarm(t0, p);
    var f2 := RecoversUnwritten(f1, 1, p);
    var f3 := RecoversUnwritten(f2, 2, p);
    RunsOfTwo(t0, OkUnwritten(1), p);
    assert [t0, OkUnwritten(1), OkUnwritten(2)][..2] == [t0, OkUnwritten(1)];
  }

  lemma FirstAlarm(t: Tick, p: Settings) returns (f: Files)
    requires t == Unreachable(0)
    ensures f == AfterRun(FRESH, t, p).0 == Files(Some(Stored("unreachable", 0)), None, [Alarm("unreachable", 0)])
  {
    Words();
    f := AfterRun(FRESH, t, p).0;
    assert "" != t.condition;
  }

  lemma RecoversUnwritten(f: Files, now: nat, p: Settings) returns (g: Files)
    requires f.stored == Some(Stored("unreachable", 0))
    ensures g == AfterRun(f, OkUnwritten(now), p).0
    ensures g.stored == f.stored && g.delivered == f.delivered + [Recovered(now)]
  {
    Words();
    assert "unreachable" != "status=ok" by {
      assert "unreachable"[0] == 'u';
    }
    g := AfterRun(f, OkUnwritten(now), p).0;
  }

  lemma RunsOfTwo(a: Tick, b: Tick, p: Settings)
    ensures AfterRuns(FRESH, [a, b], p) == AfterRun(AfterRun(FRESH, a, p).0, b, p).0
  {
    assert [a][..0] == [] && [a, b][..1] == [a];
    assert AfterRuns(FRESH, [], p) == FRESH;
    assert AfterRuns(FRESH, [a], p) == AfterRun(FRESH, a, p).0;
  }

  lemma Words()
    ensures Bad("unreachable") && !NothingToRecoverFrom("unreachable")
    ensures !Bad("status=ok")
    ensures forall c :: "" + c == c
  {
    assert "unreachable"[0] == 'u';
    assert FirstWord("unreachable")[0] == 'u';
    assert "status=ok"[7..] == "ok";
    assert "ok"[1..] == "k" && "k"[1..] == "";
    assert FirstWord("k") == "k";
    assert FirstWord("ok") == "ok";
  }

  // ---- the stall clock ----

  /** The declarative meaning of the stall file after a history of runs: none when
      every stalled probe it could record was followed by a clear one it could be
      removed for, else the time of the earliest of those since the last of these. */
  ghost predicate StallClock(since: Option<nat>, ticks: seq<Tick>) {
    match since
    case None => forall i | 0 <= i < |ticks| && Stamps(ticks[i]) :: ClearBetween(ticks, i, |ticks|)
    case Some(at) =>
      exists i :: && 0 <= i < |ticks| && Stamps(ticks[i]) && ticks[i].now == at
                  && !ClearBetween(ticks, i, |ticks|)
                  && forall k | 0 <= k < i && Stamps(ticks[k]) :: ClearBetween(ticks, k, i)
  }

  ghost predicate ClearBetween(ticks: seq<Tick>, from: nat, to: nat)
    requires to <= |ticks|
  {
    exists j :: from < j < to && Clears(ticks[j])
  }

  /** Over any runs, whatever probes, deliveries and writes fail in them, the stall
      file is that clock. */
  lemma {:induction false} StallFileIsTheClock(ticks: seq<Tick>, p: Settings)
    ensures StallClock(AfterRuns(FRESH, ticks, p).stallSince, ticks)
  {
    if ticks != [] {
      var before, t := ticks[..|ticks| - 1], ticks[|ticks| - 1];
      StallFileIsTheClock(before, p);
      ClockStep(AfterRuns(FRESH, before, p).stallSince, before, t);
      assert ticks == before + [t];
    }
  }

  lemma ClockStep(since: Option<nat>, ticks: seq<Tick>, t: Tick)
    requires StallClock(since, ticks)
    ensures StallClock(StallAfter(since, t), ticks + [t])
  {
    var more, n := ticks + [t], |ticks|;
    forall i: nat, to: nat | i < n && to <= n ensures ClearBetween(more, i, to) == ClearBetween(ticks, i, to) {
      if ClearBetween(ticks, i, to) {
        var j :| i < j < to && Clears(ticks[j]);
        assert more[j] == ticks[j];
      }
    }
    if Clears(t) {
      forall i | 0 <= i < n + 1 && Stamps(more[i]) ensures ClearBetween(more, i, n + 1) {
        assert more[n] == t;
      }
    } else {
      forall i | 0 <= i < n ensures ClearBetween(more, i, n + 1) == ClearBetween(more, i, n) {
        if ClearBetween(more, i, n) {
          var j :| i < j < n && Clear(more[j].probe);
          assert ClearBetween(more, i, n + 1);
        }
      }
      if since == None && Stamps(t) {
        assert more[n] == t && !ClearBetween(more, n, n + 1);
      } else if since.Some? {
        var i :| 0 <= i < n && Stamps(ticks[i]) && ticks[i].now == since.value
              && !ClearBetween(ticks, i, n)
              && forall k | 0 <= k < i && Stamps(ticks[k]) :: ClearBetween(ticks, k, i);
        assert more[i] == ticks[i] && !ClearBetween(more, i, n + 1);
      }
    }
  }

  /** The clock the comments promise, which no write failure touches. */
  function TrueClock(since: Option<nat>, t: Tick): Option<nat> {
    if Stalled(t.probe) && since == None then Some(t.now) else if Clear(t.probe) then None else since
  }

  function TrueClocks(ticks: seq<Tick>): Option<nat> {
    if ticks == [] then None else TrueClock(TrueClocks(ticks[..|ticks| - 1]), ticks[|ticks| - 1])
  }

  /** This run has to change the stall file and cannot. */
  predicate LosesTheClock(since: Option<nat>, t: Tick) {
    !t.sidecar && if since == None then Stalled(t.probe) else Clear(t.probe)
  }

  ghost predicate NeverLosesTheClock(ticks: seq<Tick>) {
    forall i | 0 <= i < |ticks| :: !LosesTheClock(TrueClocks(ticks[..i]), ticks[i])
  }

  lemma {:induction false} StallFileAfter(ticks: seq<Tick>, t: Tick, p: Settings)
    ensures AfterRuns(FRESH, ticks + [t], p).stallSince == StallAfter(AfterRuns(FRESH, ticks, p).stallSince, t)
    ensures TrueClocks(ticks + [t]) == TrueClock(TrueClocks(ticks), t)
  {
    assert (ticks + [t])[..|ticks|] == ticks;
    StallFollows(AfterRuns(FRESH, ticks, p), t, p);
  }

  /** Over runs none of which has to change the stall file and cannot, the file is
      the promised clock. */
  lemma {:induction false} ClockIsKept(ticks: seq<Tick>, p: Settings)
    requires NeverLosesTheClock(ticks)
    ensures AfterRuns(FRESH, ticks, p).stallSince == TrueClocks(ticks)
  {
    if ticks != [] {
      var before, last := ticks[..|ticks| - 1], ticks[|ticks| - 1];
      assert ticks == before + [last];
      StartsSafe(ticks);
      ClockIsKept(before, p);
      ClockKeptOnce(before, last, p);
    }
  }

  lemma {:induction false} ClockKeptOnce(ticks: seq<Tick>, t: Tick, p: Settings)
    requires AfterRuns(FRESH, ticks, p).stallSince == TrueClocks(ticks) && !LosesTheClock(TrueClocks(ticks), t)
    ensures AfterRuns(FRESH, ticks + [t], p).stallSince == TrueClocks(ticks + [t])
  {
    StallFileAfter(ticks, t, p);
  }

  lemma StartsSafe(ticks: seq<Tick>)
    requires ticks != [] && NeverLosesTheClock(ticks)
    ensures var before := ticks[..|ticks| - 1];
            NeverLosesTheClock(before) && !LosesTheClock(TrueClocks(before), ticks[|ticks| - 1])
  {
    var before := ticks[..|ticks| - 1];
    assert forall i | 0 <= i < |before| :: before[..i] == ticks[..i] && before[i] == ticks[i];
  }

  /** ... and the next run takes it away from it exactly by that. */
  lemma {:induction false} ClockIsLostExactly(ticks: seq<Tick>, t: Tick, p: Settings)
    requires NeverLosesTheClock(ticks)
    ensures AfterRuns(FRESH, ticks + [t], p).stallSince == TrueClocks(ticks + [t])
            <==> !LosesTheClock(TrueClocks(ticks), t)
  {
    ClockIsKept(ticks, p);
    StallFileAfter(ticks, t, p);
  }

  /** The stall marker is in the condition exactly when this run's probe sees pending
      commitments and no recent anchor transaction, and the clock was set before and
      stands past the threshold. */
  lemma {:induction false} StallIsMarkedExactly(ticks: seq<Tick>, t: Tick, p: Settings)
    requires NeverLosesTheClock(ticks) && FromHealth(t.condition)
    ensures var c := ConditionAt(AfterRuns(FRESH, ticks, p).stallSince, t, p);
            && (STALL_MARKER <= c <==>
                  && t.probe.Probed? && t.probe.pending > 0 && t.probe.noRecentTx
                  && TrueClocks(ticks).Some? && t.now - TrueClocks(ticks).value > p.stallSeconds)
            && (STALL_MARKER <= c ==> Bad(c) && c == STALL_MARKER + t.condition)
            && (!(STALL_MARKER <= c) ==> c == t.condition)
  {
    ClockIsKept(ticks, p);
    MarkedIsBad(t.condition);
    assert "" + t.condition == t.condition;
    assert STALL_MARKER[0] == 'a' && "status="[0] == 's' && "unreachable"[0] == 'u' && "unparseable"[0] == 'u';
  }

  /** A recovery is due while the stall clock stands past its threshold exactly when
      the clock stood so before, this run's probe failed or could not clear it, and
      the condition turned ok from one to recover from: without a stalled probe the
      marker is gone but the clock runs on. */
  lemma RecoveryDuringStallExactly(f: Files, t: Tick, p: Settings)
    ensures Due(f, t, p) == Some(Recovered(t.now)) && Overdue(AfterRun(f, t, p).0.stallSince, t.now, p) <==>
              && Overdue(f.stallSince, t.now, p) && (t.probe.ProbeFailed? || (Clear(t.probe) && !t.sidecar))
              && !Bad(t.condition) && t.condition != Last(f).condition && !NothingToRecoverFrom(Last(f).condition)
  {
    MarkedIsBad(t.condition);
    StallFollows(f, t, p);
    assert "" + t.condition == t.condition;
  }

  lemma StallFollows(f: Files, t: Tick, p: Settings)
    ensures AfterRun(f, t, p).0.stallSince == StallAfter(f.stallSince, t)
  {
  }

  function StalledTick(now: nat): Tick { Tick(now, "status=ok", Probed(1, true), true, true, Replaces) }

  /** Such a run exists: a stall alarmed past its threshold, then one failed probe. */
  lemma FailedProbeRecoversAStall(p: Settings, a: Tick, b: Tick, last: Tick)
    requires a == StalledTick(0) && b == StalledTick(p.stallSeconds + 1)
    requires last == Tick(p.stallSeconds + 2, "status=ok", ProbeFailed, true, true, Replaces)
    ensures var f := AfterRuns(FRESH, [a, b], p);
            Due(f, last, p) == Some(Recovered(last.now)) && Overdue(f.stallSince, last.now, p)
  {
    var f := StalledAfterTwo(a, b, p);
    MarkerIsRecoveredFrom();
    RecoveryDuringStallExactly(f, last, p);
  }

  lemma MarkerIsRecoveredFrom()
    ensures !Bad("status=ok") && !NothingToRecoverFrom(STALL_MARKER + "status=ok")
    ensures STALL_MARKER + "status=ok" != "status=ok"
  {
    Words();
    assert (STALL_MARKER + "status=ok")[0] == 'a' && "status=ok"[0] == 's';
  }

  lemma StalledAfterTwo(a: Tick, b: Tick, p: Settings) returns (f: Files)
    requires a == StalledTick(0) && b == StalledTick(p.stallSeconds + 1)
    ensures f == AfterRuns(FRESH, [a, b], p)
    ensures f.stored == Some(Stored(STALL_MARKER + "status=ok", b.now)) && f.stallSince == Some(0)
  {
    RunsOfTwo(a, b, p);
    var f1 := FirstStalled(a, p);
    f := StallAlarmed(f1, b, p);
  }

  lemma FirstStalled(a: Tick, p: Settings) returns (f: Files)
    requires a == StalledTick(0)
    ensures f == AfterRun(FRESH, a, p).0 && f.stallSince == Some(0) && f.stored == Some(Stored("status=ok", 0))
  {
    Words();
    f := AfterRun(FRESH, a, p).0;
  }

  lemma StallAlarmed(f: Files, b: Tick, p: Settings) returns (g: Files)
    requires f.stallSince == Some(0) && f.stored == Some(Stored("status=ok", 0)) && b == StalledTick(p.stallSeconds + 1)
    ensures g == AfterRun(f, b, p).0
    ensures g.stored == Some(Stored(STALL_MARKER + "status=ok", b.now)) && g.stallSince == Some(0)
  {
    MarkedIsBad("status=ok");
    assert (STALL_MARKER + "status=ok")[0] == 'a' && "status=ok"[0] == 's';
    g := AfterRun(f, b, p).0;
  }
}
