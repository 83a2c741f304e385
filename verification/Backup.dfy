/** The live-state backup: one run of the script as a sequence of sections over its
    shell variables, with a failure allowed at any top-level command, and the
    error trap that restarts a calendar writer this run stopped. */
module Backup {
  import opened Wrappers

  datatype Status = AllOk | LocalOnly | Attention | Failed

  /** Which calendar writer the script sees running. */
  datatype Writer = NoWriter | Systemd | Compose

  datatype Setting = Unset | Stop | Stopped | Snapshot | Unknown

  /** A member's path: declared empty, present on the host, or missing from it. */
  datatype Member = DeclaredEmpty | Present | Missing

  /** The top-level commands that can fail and are not guarded by the script. */
  datatype Point = Prepare | Metadata | SnapshotNotes | BoundaryNote | Tar | Tidy | Encrypt | Prune | ListArchive

  /** How one writing of the status file goes: well; or no temporary file, no text in
      it, no move into place, or no change of owner afterwards. */
  datatype WriteOutcome = WriteOk | NoTemp | NoText | NoMove | NoOwner

  /** The status file as this run leaves it. */
  datatype StatusFile = Untouched | Holds(status: Status) | Garbled

  /** Everything the run meets: configuration, the host, and the commands' outcomes. */
  datatype Env = Env(
    envFile: bool, keepValid: bool, failAt: Option<Point>,
    // the obligation log
    dbIsFile: bool, dbConfigured: bool, hostSqlite: bool, container: bool, snapshotTaken: bool, snapshotVerifies: bool,
    gatewayStopped: bool,
    // the calendar
    boundary: Setting, stopExits: bool, stopTakes: bool, startExits: bool, startTakes: bool, declaredSnapshot: bool,
    members: seq<Member>,
    // encryption, push
    recipient: bool, ageInstalled: bool, remote: bool, pushed: bool, remotePrunes: seq<bool>,
    // the status file: the script's own write, and the error trap's
    finalWrite: WriteOutcome, trapWrite: WriteOutcome)

  datatype Host = Host(systemdUp: bool, composeUp: bool)

  function WriterOf(h: Host): Writer { if h.systemdUp then Systemd else if h.composeUp then Compose else NoWriter }

  predicate IsUp(h: Host, w: Writer) { (w.Systemd? ==> h.systemdUp) && (w.Compose? ==> h.composeUp) }

  function WithWriter(h: Host, w: Writer, up: bool): Host {
    match w
    case Systemd => h.(systemdUp := up)
    case Compose => h.(composeUp := up)
    case NoWriter => h
  }

  // ---- what a run's inputs amount to ----

  /** An online snapshot was taken and passed its check. */
  predicate SnapshotUsable(e: Env) {
    e.dbIsFile && (e.hostSqlite || e.container) && e.snapshotTaken && e.snapshotVerifies
  }

  /** Without a usable snapshot the run fails while a writer may run, or when the
      configured log is not a file here; a missing default log or a stopped gateway
      only degrades. */
  predicate SnapshotFails(e: Env) {
    !SnapshotUsable(e) && if e.dbIsFile then !e.gatewayStopped else e.dbConfigured
  }

  /** The calendar copy is a boundary copy: no writer ran, or this run stopped it and
      saw it stopped, or a declared snapshot stands in for the live directory. */
  predicate BoundaryEstablished(e: Env, h: Host) {
    match e.boundary
    case Unset => WriterOf(h).NoWriter?
    case Stopped => WriterOf(h).NoWriter?
    case Stop => WriterOf(h).NoWriter? || (e.stopExits && WriterOf(AfterStop(e, h)).NoWriter?)
    case Snapshot => e.declaredSnapshot
    case Unknown => false
  }

  function AfterStop(e: Env, h: Host): Host {
    if e.stopTakes then WithWriter(h, WriterOf(h), false) else h
  }

  predicate EveryMemberThere(e: Env) { Missing !in e.members }

  /** The run issues a stop command for the writer it found. */
  predicate StopsWriter(e: Env, h: Host) { e.boundary.Stop? && !WriterOf(h).NoWriter? }

  /** The writer this run stopped is seen running again after its one start. */
  predicate Restarted(e: Env, h: Host) {
    StopsWriter(e, h) ==> e.startExits && WriterOf(AfterStart(e, h)) == WriterOf(h)
  }

  function AfterStart(e: Env, h: Host): Host {
    if e.startTakes then WithWriter(AfterStop(e, h), WriterOf(h), true) else AfterStop(e, h)
  }

  predicate PushedAsConfigured(e: Env) {
    && (e.recipient ==> e.ageInstalled)
    && (e.remote ==> e.recipient && e.ageInstalled && e.pushed && false !in e.remotePrunes)
  }

  /** Something critical could not be captured, or the calendar was left in doubt. */
  predicate SomethingFailed(e: Env, h: Host) {
    SnapshotFails(e) || !BoundaryEstablished(e, h) || !Restarted(e, h)
  }

  predicate SomethingMissing(e: Env) {
    !SnapshotUsable(e) || !EveryMemberThere(e) || !PushedAsConfigured(e)
  }

  /** The severity of a run that reaches its end, whatever the order of its sections. */
  function Severity(e: Env, h: Host): Status {
    if SomethingFailed(e, h) then Failed else if SomethingMissing(e) then Attention else AllOk
  }

  /** The unguarded command that fails lies in a branch this run takes. */
  predicate Aborts(e: Env) { e.failAt.Some? && Executes(e, e.failAt.value) }

  predicate Executes(e: Env, p: Point) {
    && (p.SnapshotNotes? ==> e.dbIsFile)
    && (p.Encrypt? ==> e.recipient && e.ageInstalled)
  }

  predicate BeforeBoundary(p: Point) { p.Prepare? || p.Metadata? || p.SnapshotNotes? }

  predicate AbortsEarly(e: Env) { Aborts(e) && BeforeBoundary(e.failAt.value) }

  /** The script's own write stops it at the first command that fails, and its trap
      does not cover a function; under the trap's `|| true` the write goes on to the
      move whatever it has to move. */
  function AfterWrite(prior: StatusFile, s: Status, w: WriteOutcome, trapped: bool): StatusFile {
    if w.WriteOk? || w.NoOwner? then Holds(s) else if w.NoText? && trapped then Garbled else prior
  }

  function FinalStatus(e: Env, h: Host): Status {
    if Severity(e, h) == AllOk && !e.remote then LocalOnly else Severity(e, h)
  }

  /** The status file a run leaves. */
  function Written(e: Env, h: Host): StatusFile {
    if !e.envFile then AfterWrite(Untouched, Failed, e.finalWrite, false)
    else if !e.keepValid || (e.boundary.Unknown? && !AbortsEarly(e)) then Untouched
    else if Aborts(e) && !e.failAt.value.ListArchive? then Trapped(e)
    else Concluded(e, h)
  }

  function Trapped(e: Env): StatusFile { AfterWrite(Untouched, Failed, e.trapWrite, true) }

  function Concluded(e: Env, h: Host): StatusFile {
    AfterListing(e, AfterWrite(Untouched, FinalStatus(e, h), e.finalWrite, false))
  }

  /** The closing listing is reached only after a write without fault. */
  function AfterListing(e: Env, file: StatusFile): StatusFile {
    if e.finalWrite.WriteOk? && e.failAt == Some(ListArchive) then AfterWrite(file, Failed, e.trapWrite, true) else file
  }

  predicate IsSuccess(f: StatusFile) { f == Holds(AllOk) || f == Holds(LocalOnly) }

  /** Success stands on file exactly after the run in which no command before the
      final write failed, the obligation snapshot is usable, the calendar was copied
      at a boundary, every non-empty member is there, a stopped writer is back, the
      push went as configured, and the final write took and was not replaced for a
      failed listing. */
  lemma SuccessIsExactlyTheCleanRun(e: Env, h: Host)
    ensures IsSuccess(Written(e, h)) <==>
              && e.envFile && e.keepValid && (Aborts(e) ==> e.failAt == Some(ListArchive))
              && SnapshotUsable(e) && BoundaryEstablished(e, h) && EveryMemberThere(e) && Restarted(e, h)
              && PushedAsConfigured(e)
              && (e.finalWrite.NoOwner? || (e.finalWrite.WriteOk?
                  && (e.failAt == Some(ListArchive) ==> e.trapWrite.NoTemp? || e.trapWrite.NoMove?)))
    ensures Written(e, h) == Holds(AllOk) ==> e.remote && e.recipient && e.pushed
  {
  }

  /** A run to its end is failed exactly when: the log is there but no usable snapshot
      of it and its gateway was not seen stopped, or it is configured and not there;
      the calendar was copied under a writer that runs or could not be stopped, or
      without its declared snapshot; or a stopped writer is not seen running again. */
  lemma FailedExactly(e: Env, h: Host)
    ensures var snapshot := e.dbIsFile && (e.hostSqlite || e.container) && e.snapshotTaken && e.snapshotVerifies;
            var running := h.systemdUp || h.composeUp;
            Severity(e, h) == Failed <==>
              || (e.dbIsFile && !snapshot && !e.gatewayStopped) || (!e.dbIsFile && e.dbConfigured)
              || ((e.boundary.Unset? || e.boundary.Stopped?) && running)
              || (e.boundary.Stop? && running && !(e.stopExits && e.stopTakes && !(h.systemdUp && h.composeUp)))
              || (e.boundary.Stop? && running && !(e.startExits && (e.startTakes || !e.stopTakes)))
              || (e.boundary.Snapshot? && !e.declaredSnapshot) || e.boundary.Unknown?
  {
  }

  /** ... and otherwise needs attention exactly when a stopped gateway's log has no
      usable snapshot or a default log is missing, a member is missing, age is, or the
      push or a remote prune did not happen as configured. */
  lemma AttentionExactly(e: Env, h: Host)
    ensures var snapshot := e.dbIsFile && (e.hostSqlite || e.container) && e.snapshotTaken && e.snapshotVerifies;
            Severity(e, h) == Attention <==>
              && Severity(e, h) != Failed
              && (|| (e.dbIsFile && !snapshot && e.gatewayStopped) || (!e.dbIsFile && !e.dbConfigured)
                  || (exists i :: 0 <= i < |e.members| && e.members[i] == Missing)
                  || (e.recipient && !e.ageInstalled)
                  || (e.remote && (!e.recipient || !e.pushed
                                   || exists i :: 0 <= i < |e.remotePrunes| && !e.remotePrunes[i])))
  {
  }

  /** The host as the calendar is copied. */
  function AtTheCopy(e: Env, h: Host): Host { if StopsWriter(e, h) then AfterStop(e, h) else h }

  /** What an established boundary means: the copy is of a declared snapshot, or of a
      calendar no writer was running on. */
  lemma BoundaryMeansNoWriter(e: Env, h: Host)
    requires BoundaryEstablished(e, h)
    ensures if e.boundary.Snapshot? then e.declaredSnapshot
            else !AtTheCopy(e, h).systemdUp && !AtTheCopy(e, h).composeUp
  {
  }

  /** A run leaves the status file as it found it exactly when it refuses its
      settings before any write, or the one write it comes to does not reach the
      file. */
  lemma SilentExactly(e: Env, h: Host)
    ensures Written(e, h) == Untouched <==>
              if e.envFile && (!e.keepValid || (e.boundary.Unknown? && !AbortsEarly(e))) then true
              else if e.envFile && Aborts(e) && !e.failAt.value.ListArchive?
              then e.trapWrite.NoTemp? || e.trapWrite.NoMove?
              else e.finalWrite.NoTemp? || e.finalWrite.NoText? || e.finalWrite.NoMove?
  {
  }

  /** Such a run exists: an unknown boundary setting, nothing else amiss. */
  lemma UnknownBoundaryIsSilent(e: Env, h: Host)
    requires e.envFile && e.keepValid && e.failAt == None && e.boundary == Unknown
    ensures Written(e, h) == Untouched && !BoundaryEstablished(e, h)
  {
  }

  function Worse(a: Status, b: Status): Status {
    if a == Failed || b == Failed then Failed else if a == Attention || b == Attention then Attention else a
  }

  // ---- the run ----

  class Run {
    const env: Env
    const before: Host            // the host as the run found it
    var host: Host
    var status: Status
    var restartCalendar: Writer   // the writer to restart, NoWriter when none
    var statusFile: StatusFile
    var stops: nat
    var starts: nat

    constructor (env: Env, host: Host)
      ensures this.env == env && this.before == this.host == host && status == AllOk && restartCalendar == NoWriter
      ensures statusFile == Untouched && stops == starts == 0
    {
      this.env, this.before, this.host := env, host, host;
      status, restartCalendar, statusFile, stops, starts := AllOk, NoWriter, Untouched, 0, 0;
    }

    /** Where the run stands with the writer it may have stopped: nothing stopped
        yet, stopped and owed one start, or started once. */
    ghost predicate CalendarInOrder()
      reads this
    {
      && stops <= 1
      && (stops == 0 ==> starts == 0 && restartCalendar == NoWriter && host == before)
      && (stops != 0 ==> StopsWriter(env, before))
      && (stops != 0 && starts == 0 ==> restartCalendar == WriterOf(before) && host == AfterStop(env, before))
      && (stops != 0 && starts != 0 ==> starts == 1 && restartCalendar == NoWriter && host == AfterStart(env, before)
                                        && (status == Failed || Restarted(env, before)))
    }

    method Degrade()
      modifies this`status
      ensures status == Worse(old(status), Attention)
    {
      if status != Failed {
        status := Attention;
      }
    }

    method FailMember()
      modifies this`status
      ensures status == Failed
    {
      status := Failed;
    }

    method WriteStatus(s: Status, w: WriteOutcome, trapped: bool) returns (exits: bool)
      modifies this`statusFile
      ensures statusFile == AfterWrite(old(statusFile), s, w, trapped)
      ensures exits <==> !trapped && w != WriteOk
    {
      var named, filled := !w.NoTemp?, !w.NoTemp? && !w.NoText?;
      if !trapped && !filled {
        return true;
      }
      if named && !w.NoMove? {
        statusFile := if filled then Holds(s) else Garbled;
      }
      exits := !trapped && (w.NoMove? || w.NoOwner?);
    }

    method RestartCalendarWriter() returns (ok: bool)
      requires CalendarInOrder()
      modifies this`restartCalendar, this`host, this`starts, this`status
      ensures CalendarInOrder() && restartCalendar == NoWriter
      ensures status == if ok then old(status) else Failed
      ensures ok <==> old(restartCalendar) == NoWriter || Restarted(env, before)
      ensures old(restartCalendar) == NoWriter ==> starts == old(starts) && host == old(host)
      ensures old(restartCalendar) != NoWriter ==> starts == 1
    {
      if restartCalendar == NoWriter {
        return true;
      }
      var writer := restartCalendar;
      restartCalendar := NoWriter;
      starts := starts + 1;
      if env.startTakes {
        host := WithWriter(host, writer, true);
      }
      ok := env.startExits && WriterOf(host) == writer;
      if !ok {
        FailMember();
      }
    }

    /** The error trap: restart the writer first, then record the failure. */
    method OnErr()
      requires CalendarInOrder()
      modifies this`restartCalendar, this`host, this`starts, this`status, this`statusFile
      ensures CalendarInOrder() && restartCalendar == NoWriter
      ensures statusFile == AfterWrite(old(statusFile), Failed, env.trapWrite, true)
      ensures old(restartCalendar) == NoWriter ==> starts == old(starts) && host == old(host)
    {
      var _ := RestartCalendarWriter();
      var _ := WriteStatus(Failed, env.trapWrite, true);
    }

    method SnapshotObligations() returns (aborts: bool)
      modifies this`status
      ensures aborts <==> env.dbIsFile && env.failAt == Some(SnapshotNotes)
      ensures old(status) == Failed ==> status == Failed
      ensures !aborts ==> status == if SnapshotFails(env) then Failed
                                    else if !SnapshotUsable(env) then Worse(old(status), Attention)
                                    else old(status)
    {
      aborts := false;
      if !env.dbIsFile {
        if env.dbConfigured {
          FailMember();
        } else {
          Degrade();
        }
        return;
      }
      if env.failAt == Some(SnapshotNotes) {
        return true;
      }
      var taken := false;
      if env.hostSqlite {
        taken := env.snapshotTaken;
      } else if env.container {
        taken := env.snapshotTaken;
      }
      var usable := taken && env.snapshotVerifies;
      if !usable {
        if env.gatewayStopped {
          Degrade();
        } else {
          FailMember();
        }
      }
    }

    method EstablishBoundary()
      requires CalendarInOrder() && stops == 0 && !env.boundary.Unknown?
      modifies this`status, this`restartCalendar, this`host, this`stops
      ensures CalendarInOrder() && starts == 0
      ensures stops == if StopsWriter(env, before) then 1 else 0
      ensures status == if BoundaryEstablished(env, before) then old(status) else Failed
    {
      var writer := WriterOf(host);
      match env.boundary {
        case Unset =>
          if writer != NoWriter {
            FailMember();
          }
        case Stopped =>
          if writer != NoWriter {
            FailMember();
          }
        case Stop =>
          if writer != NoWriter {
            restartCalendar := writer;
            stops := stops + 1;
            if env.stopTakes {
              host := WithWriter(host, writer, false);
            }
            if !(env.stopExits && WriterOf(host) == NoWriter) {
              FailMember();
            }
          }
        case Snapshot =>
          if !env.declaredSnapshot {
            FailMember();
          }
      }
    }

    method CollectMembers() returns (archived: nat)
      modifies this`status
      ensures status == if EveryMemberThere(env) then old(status) else Worse(old(status), Attention)
      ensures var members := multiset(env.members); archived == |members| - members[DeclaredEmpty] - members[Missing]
    {
      archived := 0;
      for i := 0 to |env.members|
        invariant status == if Missing !in env.members[..i] then old(status) else Worse(old(status), Attention)
        invariant archived == i - multiset(env.members[..i])[DeclaredEmpty] - multiset(env.members[..i])[Missing]
      {
        assert env.members[..i + 1] == env.members[..i] + [env.members[i]];
        match env.members[i] {
          case DeclaredEmpty =>
          case Present => archived := archived + 1;
          case Missing => Degrade();
        }
      }
      assert env.members[..|env.members|] == env.members;
    }

    method EncryptAndPush() returns (aborts: bool)
      modifies this`status
      ensures aborts <==> env.recipient && env.ageInstalled && env.failAt == Some(Encrypt)
      ensures old(status) == Failed ==> status == Failed
      ensures !aborts ==> status == if PushedAsConfigured(env) then old(status) else Worse(old(status), Attention)
    {
      aborts := false;
      var encrypted := false;
      if env.recipient {
        if env.ageInstalled {
          if env.failAt == Some(Encrypt) {
            return true;
          }
          encrypted := true;
        } else {
          Degrade();
        }
      }
      if env.remote {
        if encrypted {
          if env.pushed {
            var statusAtPush := status;
            for i := 0 to |env.remotePrunes|
              invariant status == if false !in env.remotePrunes[..i] then statusAtPush
                                  else Worse(statusAtPush, Attention)
            {
              assert env.remotePrunes[..i + 1] == env.remotePrunes[..i] + [env.remotePrunes[i]];
              if !env.remotePrunes[i] {
                Degrade();
              }
            }
            assert env.remotePrunes[..|env.remotePrunes|] == env.remotePrunes;
          } else {
            Degrade();
          }
        } else {
          Degrade();
        }
      }
    }

    /** From the boundary to the push; `aborts` when an unguarded command failed. */
    method CopyAndPush() returns (aborts: bool)
      requires CalendarInOrder() && stops == 0 && !env.boundary.Unknown?
      requires status == if SnapshotFails(env) then Failed else if !SnapshotUsable(env) then Attention else AllOk
      modifies this`status, this`restartCalendar, this`host, this`stops, this`starts
      ensures CalendarInOrder()
      ensures aborts <==> Aborts(env) && InCopyAndPush(env.failAt.value)
      ensures !aborts ==> restartCalendar == NoWriter && status == Severity(env, before)
    {
      EstablishBoundary();
      if env.failAt == Some(BoundaryNote) {
        return true;
      }
      var _ := CollectMembers();
      if env.failAt == Some(Tar) {
        return true;
      }
      var _ := RestartCalendarWriter();
      if env.failAt == Some(Tidy) {
        return true;
      }
      aborts := EncryptAndPush();
    }

    predicate InCopyAndPush(p: Point) { p.BoundaryNote? || p.Tar? || p.Tidy? || p.Encrypt? }

    /** The end of a run: the trap, or the final status and the closing listing. */
    method Conclude(aborted: bool)
      requires CalendarInOrder() && statusFile == Untouched
      requires !aborted ==> restartCalendar == NoWriter && status == Severity(env, before)
      modifies this
      ensures CalendarInOrder() && restartCalendar == NoWriter && stops == old(stops)
      ensures statusFile == if aborted || env.failAt == Some(Prune) then Trapped(env) else Concluded(env, before)
    {
      if aborted || env.failAt == Some(Prune) {
        OnErr();
        return;
      }
      if status == AllOk && !env.remote {
        status := LocalOnly;
      }
      var exits := WriteStatus(status, env.finalWrite, false);
      if !exits && env.failAt == Some(ListArchive) {
        OnErr();
      }
    }

    /** The whole script. Settings it cannot use are refused without a status, an
        unknown boundary after the snapshot and before the first stop. Whatever
        happens, a writer this run stopped gets exactly one start, and at exit it
        runs or no better status than failed is on file. */
    method Execute()
      requires CalendarInOrder() && stops == 0 && status == AllOk && statusFile == Untouched
      modifies this
      ensures statusFile == Written(env, before)
      ensures CalendarInOrder() && restartCalendar == NoWriter && starts == stops
      ensures stops == 1 ==> IsUp(host, WriterOf(before)) || statusFile == Holds(Failed) || !statusFile.Holds?
    {
      if !env.envFile {
        var _ := WriteStatus(Failed, env.finalWrite, false);
      } else if env.keepValid {
        var aborts := env.failAt == Some(Prepare) || env.failAt == Some(Metadata);
        if !aborts {
          aborts := SnapshotObligations();
        }
        if aborts || !env.boundary.Unknown? {
          ConcludeAfter(aborts);
        }
      }
    }

    /** From the boundary check on; `early` when a command before it failed. */
    method ConcludeAfter(early: bool)
      requires CalendarInOrder() && stops == 0 && statusFile == Untouched
      requires early <==> AbortsEarly(env)
      requires !early ==> !env.boundary.Unknown?
                          && status == if SnapshotFails(env) then Failed
                                       else if !SnapshotUsable(env) then Attention else AllOk
      modifies this
      ensures CalendarInOrder() && restartCalendar == NoWriter
      ensures statusFile == if Aborts(env) && !env.failAt.value.ListArchive? then Trapped(env)
                            else Concluded(env, before)
    {
      var aborts := early;
      if !aborts {
        aborts := CopyAndPush();
      }
      Conclude(aborts);
    }
  }
}
