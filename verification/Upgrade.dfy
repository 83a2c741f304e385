/** /upgrade: a lazy walk over a proof tree asks the calendar about each pending
    commitment and merges what it answers into the very tree being walked, within a
    query budget and a wall-clock budget. */
module Upgrade {
  import opened Calendar
  import opened ProofTree
  import opened Wrappers

  const MAX_CALENDAR_QUERIES: nat := 8
  const MAX_SECONDS: real := 15.0

  // ---- the log and the tally ----

  /** One calendar query: the node asked about, its commitment, when it started, how
      long it was waited for, and how it ended. */
  datatype Query = Query(node: NodeId, commitment: Message, started: real, waited: real, outcome: Outcome)

  datatype Tally = Tally(queries: nat, found: nat, notFound: nat, failed: nat, budgetExhausted: bool, anchored: bool)

  // ---- the generator ----

  /** A suspended `for sub in stamp.ops.values()`: the dictionary, the iterator's
      position, and the size it had when the iterator was made. */
  datatype Frame = Frame(node: NodeId, next: nat, size: nat)

  datatype Event = Yield(node: NodeId) | Finished | SizeChangedDuringIteration

  /** Ghost record of the walk: the nodes yielded so far, each with how many of its
      children have been. */
  type Progress = map<NodeId, nat>

  /** The nodes yielded so far are closed under parents, and each has had exactly its
      first `done` children yielded. */
  ghost predicate DoneOk(t: Tree, done: Progress)
    requires WellFormed(t)
  {
    && (forall v | v in done :: v < |t.nodes| && done[v] <= |t.nodes[v].ops| && (v > 0 ==> t.places[v].parent in done))
    && (forall v | 0 < v < |t.nodes| && t.places[v].parent in done ::
          v in done <==> t.places[v].slot < done[t.places[v].parent])
  }

  /** A frame is a live iterator over a dictionary that has not changed size. */
  ghost predicate FrameOk(t: Tree, f: Frame, done: Progress) {
    && f.node in done && f.node < |t.nodes|
    && f.size == |t.nodes[f.node].ops| && f.next == done[f.node] <= f.size
  }

  /** The stack is a line of frames with ever later nodes, the current one last. */
  ghost predicate StackOk(t: Tree, stack: seq<Frame>, current: Option<NodeId>, done: Progress) {
    && (forall i | 0 <= i < |stack| :: FrameOk(t, stack[i], done))
    && (forall i, j | 0 <= i < j < |stack| :: stack[i].node < stack[j].node)
    && (current.Some? ==> current.value in done && done[current.value] == 0
                          && forall i | 0 <= i < |stack| :: stack[i].node < current.value)
  }

  ghost predicate OnStack(stack: seq<Frame>, v: NodeId) {
    exists i :: 0 <= i < |stack| && stack[i].node == v
  }

  /** A node not done with its children is the current one or has an open frame. */
  ghost predicate OpenOk(t: Tree, stack: seq<Frame>, current: Option<NodeId>, done: Progress)
    requires DoneBounds(t, done)
  {
    forall v | v in done && done[v] < |t.nodes[v].ops| :: current == Some(v) || OnStack(stack, v)
  }

  ghost predicate DoneBounds(t: Tree, done: Progress) { forall v | v in done :: v < |t.nodes| }

  ghost predicate WalkInv(t: Tree, stack: seq<Frame>, current: Option<NodeId>, done: Progress)
    requires WellFormed(t)
  {
    DoneOk(t, done) && DoneBounds(t, done) && StackOk(t, stack, current, done) && OpenOk(t, stack, current, done)
  }

  class Walk {
    var started: bool
    var stack: seq<Frame>
    var current: Option<NodeId>
    ghost var done: Progress

    ghost predicate Valid(t: Tree)
      requires WellFormed(t)
      reads this
    {
      && WalkInv(t, stack, current, done)
      && (started <==> 0 in done)
      && (!started ==> done == map[] && stack == [] && current == None)
    }

    constructor ()
      ensures !started && stack == [] && current == None && done == map[]
    {
      started, stack, current, done := false, [], None, map[];
    }

    /** Resumes the generator on the tree as it now is: never raises, yields only
        nodes not yielded before, and finishes only when every node of the tree
        has been. */
    method Next(t: Tree) returns (e: Event)
      requires WellFormed(t) && Valid(t)
      modifies this
      ensures Valid(t) && started
      ensures e.Yield? || e.Finished?
      ensures e.Yield? ==> e.node < |t.nodes| && e.node !in old(done) && current == Some(e.node)
                           && done.Keys == old(done).Keys + {e.node}
      ensures e.Finished? ==> done == old(done) && forall v | 0 <= v < |t.nodes| :: v in done
    {
      if !started {
        started, current, done := true, Some(0), map[0 := 0];
        FirstYield(t);
        return Yield(0);
      }
      var frames := stack;
      if current.Some? {
        FramePush(t, stack, current.value, done);
        frames := stack + [Frame(current.value, 0, |t.nodes[current.value].ops|)];
      }
      e, stack, current, done := Advance(t, frames, done);
    }
  }

  /** The loops over children, from the innermost frame out. */
  method Advance(t: Tree, frames: seq<Frame>, ghost done: Progress)
      returns (e: Event, stack: seq<Frame>, current: Option<NodeId>, ghost done': Progress)
    requires WellFormed(t) && WalkInv(t, frames, None, done) && 0 in done
    ensures WalkInv(t, stack, current, done')
    ensures e.Yield? || e.Finished?
    ensures e.Yield? ==> e.node < |t.nodes| && e.node !in done && current == Some(e.node)
                         && done'.Keys == done.Keys + {e.node}
    ensures e.Finished? ==> done' == done && forall v | 0 <= v < |t.nodes| :: v in done
  {
    var changed;
    stack, changed := Unwind(t, frames, done);
    current, done' := None, done;
    if changed {
      e := SizeChangedDuringIteration;
    } else if stack == [] {
      AllYielded(t, done);
      e := Finished;
    } else {
      ChildYield(t, stack, done);
      var top := |stack| - 1;
      var f := stack[top];
      var child := t.nodes[f.node].ops[f.next].child;
      e, stack, current := Yield(child), stack[top := f.(next := f.next + 1)], Some(child);
      done' := done[f.node := f.next + 1][child := 0];
    }
  }

  /** Leaves the loops that have come to their end. Each `next` first checks that its
      dictionary has the size it had. */
  method Unwind(t: Tree, frames: seq<Frame>, ghost done: Progress) returns (stack: seq<Frame>, changed: bool)
    requires WellFormed(t) && WalkInv(t, frames, None, done)
    ensures WalkInv(t, stack, None, done) && !changed
    ensures stack != [] ==> stack[|stack| - 1].next < stack[|stack| - 1].size
  {
    stack := frames;
    while stack != []
      invariant WalkInv(t, stack, None, done)
      decreases |stack|
    {
      var f := stack[|stack| - 1];
      assert FrameOk(t, f, done);
      if |t.nodes[f.node].ops| != f.size {
        return stack, true;
      }
      if f.next < f.size {
        return stack, false;
      }
      FramePop(t, stack, done);
      stack := stack[..|stack| - 1];
    }
    changed := false;
  }

  lemma FirstYield(t: Tree)
    requires WellFormed(t)
    ensures WalkInv(t, [], Some(0), map[0 := 0])
  {
  }

  lemma FramePush(t: Tree, stack: seq<Frame>, n: NodeId, done: Progress)
    requires WellFormed(t) && WalkInv(t, stack, Some(n), done)
    ensures n < |t.nodes| && WalkInv(t, stack + [Frame(n, 0, |t.nodes[n].ops|)], None, done)
  {
    var pushed := stack + [Frame(n, 0, |t.nodes[n].ops|)];
    forall v | v in done && done[v] < |t.nodes[v].ops| ensures OnStack(pushed, v) {
      if v == n {
        assert pushed[|stack|].node == n;
      } else {
        var i :| 0 <= i < |stack| && stack[i].node == v;
        assert pushed[i].node == v;
      }
    }
  }

  lemma {:induction false} FramePop(t: Tree, stack: seq<Frame>, done: Progress)
    requires WellFormed(t) && WalkInv(t, stack, None, done) && stack != []
    requires stack[|stack| - 1].next == stack[|stack| - 1].size
    ensures WalkInv(t, stack[..|stack| - 1], None, done)
  {
  }

  lemma ChildYield(t: Tree, stack: seq<Frame>, done: Progress)
    requires WellFormed(t) && WalkInv(t, stack, None, done) && stack != []
    requires stack[|stack| - 1].next < stack[|stack| - 1].size
    ensures var f := stack[|stack| - 1];
            && f.node < |t.nodes| && f.next < |t.nodes[f.node].ops|
            && var c := t.nodes[f.node].ops[f.next].child;
               && c < |t.nodes| && c !in done && f.node in done
               && WalkInv(t, stack[|stack| - 1 := f.(next := f.next + 1)], Some(c), done[f.node := f.next + 1][c := 0])
  {
    var f := stack[|stack| - 1];
    assert FrameOk(t, f, done);
    ChildDone(t, done, f.node, f.next);
    ChildStack(t, stack, done, t.nodes[f.node].ops[f.next].child);
    ChildOpen(t, stack, done, t.nodes[f.node].ops[f.next].child);
  }

  lemma {:induction false} ChildStack(t: Tree, stack: seq<Frame>, done: Progress, c: NodeId)
    requires StackOk(t, stack, None, done) && stack != [] && stack[|stack| - 1].next < stack[|stack| - 1].size
    requires stack[|stack| - 1].node < c && c !in done
    ensures var f := stack[|stack| - 1];
            StackOk(t, stack[|stack| - 1 := f.(next := f.next + 1)], Some(c), done[f.node := f.next + 1][c := 0])
  {
  }

  lemma ChildOpen(t: Tree, stack: seq<Frame>, done: Progress, c: NodeId)
    requires DoneBounds(t, done) && OpenOk(t, stack, None, done) && stack != [] && c < |t.nodes|
    requires var f := stack[|stack| - 1]; f.node in done && done[f.node] == f.next < |t.nodes[f.node].ops|
    ensures var f := stack[|stack| - 1];
            var done' := done[f.node := f.next + 1][c := 0];
            DoneBounds(t, done') && OpenOk(t, stack[|stack| - 1 := f.(next := f.next + 1)], Some(c), done')
  {
    var f := stack[|stack| - 1];
    var stack', done' := stack[|stack| - 1 := f.(next := f.next + 1)], done[f.node := f.next + 1][c := 0];
    forall v | v in done' && done'[v] < |t.nodes[v].ops| && v != c ensures OnStack(stack', v) {
      var i :| 0 <= i < |stack| && stack[i].node == v;
      assert stack'[i].node == v;
    }
  }

  lemma ChildDone(t: Tree, done: Progress, n: NodeId, k: nat)
    requires WellFormed(t) && DoneOk(t, done) && n in done && done[n] == k < |t.nodes[n].ops|
    ensures var c := t.nodes[n].ops[k].child;
            n < c < |t.nodes| && c !in done && DoneOk(t, done[n := k + 1][c := 0])
  {
    assert EdgeOk(t, n, k);
    var c := t.nodes[n].ops[k].child;
    var done' := done[n := k + 1][c := 0];
    forall v | 0 < v < |t.nodes| && t.places[v].parent in done'
      ensures v in done' <==> t.places[v].slot < done'[t.places[v].parent]
    {
      assert PlaceOk(t, v);
    }
  }

  /** With no open frame every yielded node is done with its children, so the yielded
      nodes are closed under children and, starting at the root, are all nodes. */
  lemma AllYielded(t: Tree, done: Progress)
    requires WellFormed(t) && WalkInv(t, [], None, done) && 0 in done
    ensures forall v | 0 <= v < |t.nodes| :: v in done
  {
    forall v | 0 <= v < |t.nodes| ensures v in done {
      Yielded(t, done, v);
    }
  }

  lemma {:induction false} Yielded(t: Tree, done: Progress, v: NodeId)
    requires WellFormed(t) && WalkInv(t, [], None, done) && 0 in done && v < |t.nodes|
    ensures v in done
    decreases v
  {
    if v > 0 {
      assert PlaceOk(t, v);
      Yielded(t, done, t.places[v].parent);
      var p := t.places[v].parent;
      assert !OnStack([], p);
    }
  }

  // ---- merging into the tree under the walk ----

  /** No descendant of the current node has been yielded. */
  lemma {:induction false} NothingYieldedBelow(t: Tree, done: Progress, n: NodeId, v: NodeId)
    requires WellFormed(t) && DoneOk(t, done) && n in done && done[n] == 0 && v in done && Under(t, n, v)
    ensures v == n
    decreases v
  {
    if v != n {
      NothingYieldedBelow(t, done, n, t.places[v].parent);
    }
  }

  /** Growth under the current node leaves every other yielded node as it was: in
      particular no dictionary with a live iterator is touched. */
  lemma OthersUntouched(t: Tree, stack: seq<Frame>, n: NodeId, done: Progress, u: Tree)
    requires WellFormed(t) && WalkInv(t, stack, Some(n), done) && GrownUnder(t, n, u)
    ensures forall v | v in done && v != n :: u.nodes[v] == t.nodes[v]
    ensures forall i | 0 <= i < |stack| :: stack[i].node < |t.nodes| && u.nodes[stack[i].node] == t.nodes[stack[i].node]
  {
    forall v | v in done && v != n ensures u.nodes[v] == t.nodes[v] {
      if Under(t, n, v) {
        NothingYieldedBelow(t, done, n, v);
      }
    }
    forall i | 0 <= i < |stack| ensures stack[i].node < |t.nodes| && u.nodes[stack[i].node] == t.nodes[stack[i].node] {
      assert FrameOk(t, stack[i], done);
    }
  }

  lemma {:induction false} GrowthKeepsWalk(t: Tree, stack: seq<Frame>, n: NodeId, done: Progress, u: Tree)
    requires WellFormed(t) && WellFormed(u) && WalkInv(t, stack, Some(n), done) && GrownUnder(t, n, u)
    ensures WalkInv(u, stack, Some(n), done)
  {
    OthersUntouched(t, stack, n, done, u);
    GrowthKeepsDone(t, n, done, u);
    forall i | 0 <= i < |stack| ensures FrameOk(u, stack[i], done) {
      assert FrameOk(t, stack[i], done);
    }
  }

  lemma GrowthKeepsDone(t: Tree, n: NodeId, done: Progress, u: Tree)
    requires WellFormed(t) && WellFormed(u) && DoneOk(t, done) && n in done && done[n] == 0 && Grown(t, u)
    requires forall v | v in done && v != n :: u.nodes[v] == t.nodes[v]
    ensures DoneOk(u, done)
  {
    forall v | 0 < v < |u.nodes| && u.places[v].parent in done
      ensures v in done <==> u.places[v].slot < done[u.places[v].parent]
    {
      var p, k := u.places[v].parent, u.places[v].slot;
      assert PlaceOk(u, v);
      assert k < |t.nodes[p].ops| ==> EdgeOk(t, p, k);
      assert v < |t.nodes| ==> u.places[v] == t.places[v];
    }
  }

  // ---- the log of queries ----

  function Answer(turn: Turn): Proof
    requires turn.reply.Answered?
  {
    turn.reply.proof
  }

  ghost predicate Mergeable(t: Tree, q: Query, turn: Turn) {
    && q.outcome == Found && turn.reply.Answered?
    && q.node < |t.nodes| && t.nodes[q.node].message == turn.reply.proof.nodes[0].message
  }

  /** The tree after the found answers of the log have been merged in, in order. */
  ghost function MergeAll(t: Tree, log: seq<Query>, script: nat -> Turn): (r: Tree)
    requires WellFormed(t)
    ensures WellFormed(r)
  {
    if log == [] then t
    else
      var before, q := MergeAll(t, log[..|log| - 1], script), log[|log| - 1];
      if Mergeable(before, q, script(|log| - 1)) then Merge(before, q.node, Answer(script(|log| - 1)), 0) else before
  }

  /** Upgrading only grows the proof: every node, message, attestation and operation
      of the original is still there. */
  lemma {:induction false} MergeAllGrows(t: Tree, log: seq<Query>, script: nat -> Turn)
    requires WellFormed(t)
    ensures Grown(t, MergeAll(t, log, script))
  {
    if log != [] {
      MergeAllGrows(t, log[..|log| - 1], script);
      GrownTwice(t, MergeAll(t, log[..|log| - 1], script), MergeAll(t, log, script));
    }
  }

  lemma GrownTwice(t: Tree, u: Tree, v: Tree)
    requires Grown(t, u) && (u == v || Grown(u, v))
    ensures Grown(t, v)
  {
  }

  /** Every answer counted as found did merge where it was asked about. */
  ghost predicate FoundMerges(t: Tree, log: seq<Query>, script: nat -> Turn)
    requires WellFormed(t)
  {
    log != [] ==>
      var before, q := log[..|log| - 1], log[|log| - 1];
      && FoundMerges(t, before, script)
      && (q.outcome == Found ==> Mergeable(MergeAll(t, before, script), q, script(|log| - 1)))
  }

  ghost predicate AnswersAttest(log: seq<Query>, script: nat -> Turn, x: Message, a: Attestation) {
    exists i :: 0 <= i < |log| && FoundAttests(log[i], script(i), x, a)
  }

  ghost predicate FoundAttests(q: Query, turn: Turn, x: Message, a: Attestation) {
    q.outcome == Found && turn.reply.Answered? && Attests(turn.reply.proof, x, a)
  }

  /** ... and what it attests is exactly the original's attestations and those of the
      answers merged. */
  lemma {:induction false} MergeAllAttests(t: Tree, log: seq<Query>, script: nat -> Turn, x: Message, a: Attestation)
    requires WellFormed(t) && FoundMerges(t, log, script)
    ensures Attests(MergeAll(t, log, script), x, a) <==> Attests(t, x, a) || AnswersAttest(log, script, x, a)
  {
    if log != [] {
      var before, q, turn := log[..|log| - 1], log[|log| - 1], script(|log| - 1);
      MergeAllAttests(t, before, script, x, a);
      AnswersAttestSplits(log, script, x, a);
      if q.outcome == Found {
        MergeRootAttests(MergeAll(t, before, script), q.node, Answer(turn), x, a);
      }
    }
  }

  lemma {:induction false} AnswersAttestSplits(log: seq<Query>, script: nat -> Turn, x: Message, a: Attestation)
    requires log != []
    ensures AnswersAttest(log, script, x, a) <==>
              AnswersAttest(log[..|log| - 1], script, x, a) || FoundAttests(log[|log| - 1], script(|log| - 1), x, a)
  {
  }

  function Commitments(log: seq<Query>): set<Message> {
    set i | 0 <= i < |log| :: log[i].commitment
  }

  /** The clock, from the start of the walk to the end of the last lookup. */
  function Clock(log: seq<Query>): real {
    if log == [] then 0.0 else log[|log| - 1].started + log[|log| - 1].waited
  }

  function LastOutcome(log: seq<Query>): Option<Outcome> {
    if log == [] then None else Some(log[|log| - 1].outcome)
  }

  /** One query, put to the calendar on the tree as it then was: within both budgets,
      for a pending commitment not asked about before, with no Bitcoin attestation
      just obtained and no worker abandoned, waited for no longer than the budget
      left. */
  ghost predicate Asked(now: Tree, before: seq<Query>, q: Query, turn: Turn) {
    && |before| < MAX_CALENDAR_QUERIES && q.started == Clock(before) + turn.gap < MAX_SECONDS
    && q.node < |now.nodes| && IsPending(now, q.node)
    && q.commitment == now.nodes[q.node].message && q.commitment !in Commitments(before)
    && LastOutcome(before) != Some(Abandoned)
    && (LastOutcome(before) == Some(Found) ==> !HasBitcoin(AllAttestations(now)))
    && q.outcome == OutcomeOf(turn, MAX_SECONDS - q.started, q.commitment)
    && q.waited == WaitOf(turn, MAX_SECONDS - q.started)
  }

  /** Every query of the log was asked properly, on the tree its predecessors left. */
  ghost predicate Ran(t: Tree, log: seq<Query>, script: nat -> Turn)
    requires WellFormed(t)
  {
    log != [] ==>
      var before := log[..|log| - 1];
      Ran(t, before, script) && Asked(MergeAll(t, before, script), before, log[|log| - 1], script(|log| - 1))
  }

  /** Every answer counted as found was about the commitment asked for. */
  lemma {:induction false} RanMerges(t: Tree, log: seq<Query>, script: nat -> Turn)
    requires WellFormed(t) && Ran(t, log, script)
    ensures FoundMerges(t, log, script)
  {
    if log != [] {
      RanMerges(t, log[..|log| - 1], script);
    }
  }

  /** Every pending node of the tree has had its commitment asked about. */
  ghost predicate Covered(t: Tree, log: seq<Query>) {
    forall v | 0 <= v < |t.nodes| && IsPending(t, v) :: t.nodes[v].message in Commitments(log)
  }

  function Count(log: seq<Query>, o: Outcome): nat {
    if log == [] then 0 else Count(log[..|log| - 1], o) + (if log[|log| - 1].outcome == o then 1 else 0)
  }

  ghost predicate Counted(log: seq<Query>, tally: Tally) {
    && tally.queries == |log|
    && tally.found == Count(log, Found)
    && tally.notFound == Count(log, NotFoundYet)
    && tally.failed == Count(log, FailedLookup) + Count(log, Abandoned)
  }

  /** Why the walk stopped. Anchored: the last answer merged brought a Bitcoin
      attestation. Budget exhausted: otherwise, and either the last worker was
      abandoned or a pending commitment was left unasked with no budget for it. */
  ghost predicate Stopped(t: Tree, log: seq<Query>, script: nat -> Turn, tally: Tally) {
    && (tally.anchored <==> LastOutcome(log) == Some(Found) && HasBitcoin(AllAttestations(t)))
    && (tally.budgetExhausted <==> !tally.anchored && (LastOutcome(log) == Some(Abandoned) || !Covered(t, log)))
    && (tally.budgetExhausted ==> LastOutcome(log) == Some(Abandoned) || OutOfBudget(log, script))
  }

  predicate OutOfBudget(log: seq<Query>, script: nat -> Turn) {
    |log| == MAX_CALENDAR_QUERIES || Clock(log) + script(|log|).gap >= MAX_SECONDS
  }

  /** What holds each time round the loop. */
  ghost predicate Going(t0: Tree, t: Tree, log: seq<Query>, script: nat -> Turn, tally: Tally)
    requires WellFormed(t0)
  {
    && t == MergeAll(t0, log, script) && Ran(t0, log, script) && Counted(log, tally) && |log| <= MAX_CALENDAR_QUERIES
    && !tally.anchored && !tally.budgetExhausted
    && LastOutcome(log) != Some(Abandoned) && (LastOutcome(log) == Some(Found) ==> !HasBitcoin(AllAttestations(t)))
  }

  ghost predicate Ended(t0: Tree, t: Tree, log: seq<Query>, script: nat -> Turn, tally: Tally)
    requires WellFormed(t0)
  {
    && t == MergeAll(t0, log, script) && Ran(t0, log, script) && Counted(log, tally)
    && Stopped(t, log, script, tally)
  }

  /** Every node yielded that is pending has had its commitment asked about. */
  ghost predicate CoveredSoFar(t: Tree, done: Progress, log: seq<Query>) {
    forall v | v in done && v < |t.nodes| && IsPending(t, v) :: t.nodes[v].message in Commitments(log)
  }

  /** The loop's invariant, `seen` being the source's set of the same name. */
  ghost predicate Upgrading(t0: Tree, t: Tree, done: Progress, log: seq<Query>, script: nat -> Turn, tally: Tally,
                            seen: set<Message>)
    requires WellFormed(t0)
  {
    Going(t0, t, log, script, tally) && CoveredSoFar(t, done, log) && seen == Commitments(log)
  }

  /** A parsed proof, updated in place. */
  class Timestamp {
    var tree: Proof

    constructor (parsed: Proof)
      ensures tree == parsed
    {
      tree := parsed;
    }

    /** Asks the calendar about each pending commitment the walk meets, merging what
        it answers into this very tree, until the walk ends, a budget runs out or a
        Bitcoin attestation is in hand. */
    method UpgradePending(script: nat -> Turn) returns (tally: Tally, log: seq<Query>)
      modifies this
      ensures Ended(old(tree), tree, log, script, tally)
    {
      tally, log := Tally(0, 0, 0, 0, false, false), [];
      var walk := new Walk();
      var seen, stop := {}, false;
      ghost var t0 := tree;
      while !stop
        invariant fresh(walk)
        invariant stop || (walk.Valid(tree) && Upgrading(t0, tree, walk.done, log, script, tally, seen))
        invariant !stop || Ended(t0, tree, log, script, tally)
        decreases !stop, MAX_CALENDAR_QUERIES - |log|, |tree.nodes| - |walk.done|
      {
        tree, tally, log, seen, stop := Resumed(t0, tree, walk, script, tally, log, seen);
      }
    }
  }

  /** Once round the loop. */
  method Resumed(ghost t0: Tree, t: Proof, walk: Walk, script: nat -> Turn, tally: Tally, log: seq<Query>,
                 seen: set<Message>)
      returns (t': Proof, tally': Tally, log': seq<Query>, seen': set<Message>, stop: bool)
    requires WellFormed(t0) && walk.Valid(t) && Upgrading(t0, t, walk.done, log, script, tally, seen)
    modifies walk
    ensures stop || (walk.Valid(t') && Upgrading(t0, t', walk.done, log', script, tally', seen'))
    ensures !stop || Ended(t0, t', log', script, tally')
    ensures |old(walk.done)| <= |t.nodes|
    ensures stop || |log'| == |log| + 1 || (log' == log && t' == t && |walk.done| == |old(walk.done)| + 1)
  {
    YieldedBound(t, walk.done);
    ghost var before := walk.done;
    var e := walk.Next(t);
    if e.Yield? {
      t', tally', log', seen', stop := Visit(t0, t, walk.stack, e.node, before, walk.done, script, tally, log, seen);
    } else {
      t', tally', log', seen', stop := t, tally, log, seen, true;
    }
  }

  /** One node of the walk. */
  method Visit(ghost t0: Tree, t: Tree, ghost stack: seq<Frame>, n: NodeId,
               ghost before: Progress, ghost done: Progress,
               script: nat -> Turn, tally: Tally, log: seq<Query>, seen: set<Message>)
      returns (t': Tree, tally': Tally, log': seq<Query>, seen': set<Message>, stop: bool)
    requires WellFormed(t0) && WellFormed(t) && Upgrading(t0, t, before, log, script, tally, seen)
    requires n < |t.nodes| && n !in before && done.Keys == before.Keys + {n} && WalkInv(t, stack, Some(n), done)
    ensures WellFormed(t') && WalkInv(t', stack, Some(n), done)
    ensures !stop || Ended(t0, t', log', script, tally')
    ensures stop || Upgrading(t0, t', done, log', script, tally', seen')
    ensures stop || |log'| == |log| + 1 || (log' == log && t' == t && |done| == |before| + 1)
  {
    t', tally', log', seen', stop := t, tally, log, seen, false;
    if HasPending(t.nodes[n].attestations) && t.nodes[n].message !in seen {
      seen' := seen + {t.nodes[n].message};
      t', tally', log', stop := Consult(t0, t, n, script, tally, log);
      GrowthKeepsWalk(t, stack, n, done, t');
      if !stop {
        Continue(t, stack, n, before, done, t', log, log');
      }
    } else {
      OneMore(before, done, n);
    }
  }

  /** Asks the calendar about one pending commitment, if the budgets allow. */
  method Consult(ghost t0: Tree, t: Tree, n: NodeId, script: nat -> Turn, tally: Tally, log: seq<Query>)
      returns (t': Tree, tally': Tally, log': seq<Query>, stop: bool)
    requires WellFormed(t0) && WellFormed(t) && Going(t0, t, log, script, tally)
    requires n < |t.nodes| && IsPending(t, n) && t.nodes[n].message !in Commitments(log)
    ensures WellFormed(t') && GrownUnder(t, n, t')
    ensures stop ==> Ended(t0, t', log', script, tally')
    ensures !stop ==> Going(t0, t', log', script, tally')
                      && |log'| == |log| + 1 && log == log'[..|log|] && log'[|log|].commitment == t.nodes[n].message
  {
    var turn := script(|log|);
    var elapsed := Clock(log) + turn.gap;
    if tally.queries >= MAX_CALENDAR_QUERIES || elapsed >= MAX_SECONDS {
      assert !Covered(t, log);
      return t, tally.(budgetExhausted := true), log, true;
    }
    var remaining := MAX_SECONDS - elapsed;
    var commitment := t.nodes[n].message;
    var q := Query(n, commitment, elapsed, WaitOf(turn, remaining), OutcomeOf(turn, remaining, commitment));
    LogGrows(t0, t, log, q, script);
    t', log' := t, log + [q];
    tally' := Tallied(tally, log, q);
    if q.outcome == Found {
      t' := Merge(t, n, Answer(turn), 0);
      tally' := tally'.(anchored := HasBitcoin(AllAttestations(t')));
    }
    stop := q.outcome == Abandoned || tally'.anchored;
  }

  method Tallied(tally: Tally, log: seq<Query>, q: Query) returns (tally': Tally)
    requires Counted(log, tally)
    ensures Counted(log + [q], tally') && tally'.anchored == tally.anchored
    ensures tally'.budgetExhausted == (tally.budgetExhausted || q.outcome == Abandoned)
  {
    CountGrows(log, q);
    tally' := tally.(queries := tally.queries + 1);
    match q.outcome
    case Found => tally' := tally'.(found := tally.found + 1);
    case NotFoundYet => tally' := tally'.(notFound := tally.notFound + 1);
    case FailedLookup => tally' := tally'.(failed := tally.failed + 1);
    case Unmergeable =>
    case Abandoned => tally' := tally'.(failed := tally.failed + 1, budgetExhausted := true);
  }

  lemma {:induction false} CountGrows(log: seq<Query>, q: Query)
    ensures forall o :: Count(log + [q], o) == Count(log, o) + (if q.outcome == o then 1 else 0)
  {
  }

  lemma {:induction false} LogGrows(t0: Tree, t: Tree, log: seq<Query>, q: Query, script: nat -> Turn)
    requires WellFormed(t0) && t == MergeAll(t0, log, script) && Ran(t0, log, script) && Asked(t, log, q, script(|log|))
    ensures Ran(t0, log + [q], script)
    ensures MergeAll(t0, log + [q], script)
         == if Mergeable(t, q, script(|log|)) then Merge(t, q.node, Answer(script(|log|)), 0) else t
  {
    assert (log + [q])[..|log|] == log;
  }

  /** After an answer that did not stop the walk, the walk goes on soundly. */
  lemma {:induction false} Continue(t: Tree, stack: seq<Frame>, n: NodeId, before: Progress, done: Progress,
                                    u: Tree, asked: seq<Query>, log: seq<Query>)
    requires WellFormed(t) && WellFormed(u) && WalkInv(t, stack, Some(n), done) && GrownUnder(t, n, u)
    requires done.Keys == before.Keys + {n} && CoveredSoFar(t, before, asked)
    requires |log| == |asked| + 1 && asked == log[..|asked|] && log[|asked|].commitment == t.nodes[n].message
    ensures WalkInv(u, stack, Some(n), done) && CoveredSoFar(u, done, log)
    ensures Commitments(log) == Commitments(asked) + {t.nodes[n].message}
  {
    GrowthKeepsWalk(t, stack, n, done, u);
    OthersUntouched(t, stack, n, done, u);
    OneCommitmentMore(asked, log);
  }

  lemma {:induction false} OneCommitmentMore(asked: seq<Query>, log: seq<Query>)
    requires |log| == |asked| + 1 && asked == log[..|asked|]
    ensures Commitments(log) == Commitments(asked) + {log[|asked|].commitment}
  {
  }

  lemma {:induction false} OneMore(before: Progress, done: Progress, n: NodeId)
    requires n !in before && done.Keys == before.Keys + {n}
    ensures |done| == |before| + 1
  {
  }

  lemma YieldedBound(t: Tree, done: Progress)
    requires DoneBounds(t, done)
    ensures |done| <= |t.nodes|
  {
    Bounded(|t.nodes|, done.Keys);
  }

  lemma {:induction false} Bounded(n: nat, s: set<nat>)
    requires forall v | v in s :: v < n
    ensures |s| <= n
  {
    if n > 0 {
      Bounded(n - 1, s - {n - 1});
    } else {
      assert s == {};
    }
  }

  // ---- what a walk guarantees, against any calendar ----

  /** At most eight queries, for pairwise distinct commitments. */
  lemma {:induction false} QueriesAreDistinct(t: Tree, log: seq<Query>, script: nat -> Turn)
    requires WellFormed(t) && Ran(t, log, script)
    ensures |log| <= MAX_CALENDAR_QUERIES && |Commitments(log)| == |log|
  {
    if log != [] {
      QueriesAreDistinct(t, log[..|log| - 1], script);
      OneCommitmentMore(log[..|log| - 1], log);
    }
  }

  /** Once a worker is abandoned nothing more is asked. */
  lemma {:induction false} OnlyTheLastIsAbandoned(t: Tree, log: seq<Query>, script: nat -> Turn, i: nat)
    requires WellFormed(t) && Ran(t, log, script) && i < |log| && log[i].outcome == Abandoned
    ensures i == |log| - 1
  {
    if i < |log| - 1 {
      OnlyTheLastIsAbandoned(t, log[..|log| - 1], script, i);
    }
  }

  /** Every commitment asked about is that of a node of the upgraded proof with a
      pending attestation. */
  lemma {:induction false} QueriesArePending(t: Tree, log: seq<Query>, script: nat -> Turn, i: nat)
    requires WellFormed(t) && Ran(t, log, script) && i < |log|
    ensures StillPending(MergeAll(t, log, script), log[i])
  {
    var before := log[..|log| - 1];
    if i < |before| {
      QueriesArePending(t, before, script, i);
    }
    PendingGrows(MergeAll(t, before, script), MergeAll(t, log, script), log[i]);
  }

  lemma {:induction false} EachWasAsked(t: Tree, log: seq<Query>, script: nat -> Turn, i: nat)
    requires WellFormed(t) && Ran(t, log, script) && i < |log|
    ensures Asked(MergeAll(t, log[..i], script), log[..i], log[i], script(i))
  {
    var before := log[..|log| - 1];
    if i < |before| {
      EachWasAsked(t, before, script, i);
      assert before[..i] == log[..i];
    } else {
      assert before == log[..i];
    }
  }

  /** Each query ends as the calendar's bytes and the time then left determine. */
  lemma {:induction false} OutcomeLogged(t: Tree, log: seq<Query>, script: nat -> Turn, i: nat)
    requires WellFormed(t) && Ran(t, log, script) && i < |log|
    ensures log[i].started < MAX_SECONDS
    ensures log[i].outcome == OutcomeOf(script(i), MAX_SECONDS - log[i].started, log[i].commitment)
    ensures log[i].waited == WaitOf(script(i), MAX_SECONDS - log[i].started)
  {
    EachWasAsked(t, log, script, i);
  }

  lemma {:induction false} PendingGrows(t: Tree, u: Tree, q: Query)
    requires StillPending(t, q) && (t == u || Grown(t, u))
    ensures StillPending(u, q)
  {
  }

  ghost predicate StillPending(t: Tree, q: Query) {
    q.node < |t.nodes| && t.nodes[q.node].message == q.commitment && IsPending(t, q.node)
  }

  /** All lookups together are waited for at most fifteen seconds, and are over that
      long after the walk began. */
  lemma {:induction false} TimeBudgetHolds(t: Tree, log: seq<Query>, script: nat -> Turn)
    requires WellFormed(t) && Ran(t, log, script)
    ensures 0.0 <= TotalWaited(log) <= Clock(log) <= MAX_SECONDS
  {
    if log != [] {
      TimeBudgetHolds(t, log[..|log| - 1], script);
    }
  }

  function TotalWaited(log: seq<Query>): real {
    if log == [] then 0.0 else TotalWaited(log[..|log| - 1]) + log[|log| - 1].waited
  }

  lemma {:induction false} CountsAddUp(log: seq<Query>)
    ensures Count(log, Found) + Count(log, NotFoundYet) + Count(log, FailedLookup) + Count(log, Unmergeable)
            + Count(log, Abandoned) == |log|
  {
    if log != [] {
      CountsAddUp(log[..|log| - 1]);
    }
  }

  /** Every lookup is in the tally once, except an answer that could not be merged. */
  lemma TallyAddsUp(log: seq<Query>, tally: Tally)
    requires Counted(log, tally)
    ensures tally.queries == tally.found + tally.notFound + tally.failed + Count(log, Unmergeable)
    ensures tally.failed == tally.queries <==> forall i | 0 <= i < |log| :: log[i].outcome in {FailedLookup, Abandoned}
  {
    CountsAddUp(log);
    AllFailed(log);
  }

  lemma {:induction false} AllFailed(log: seq<Query>)
    ensures Count(log, FailedLookup) + Count(log, Abandoned) <= |log|
    ensures Count(log, FailedLookup) + Count(log, Abandoned) == |log|
            <==> forall i | 0 <= i < |log| :: log[i].outcome in {FailedLookup, Abandoned}
  {
    if log != [] {
      var before := log[..|log| - 1];
      AllFailed(before);
      assert forall i | 0 <= i < |before| :: before[i] == log[i];
    }
  }

  /** A tree without a Bitcoin attestation stays so until the last query. */
  lemma {:induction false} NoBitcoinBeforeTheLast(t: Tree, log: seq<Query>, script: nat -> Turn)
    requires WellFormed(t) && Ran(t, log, script) && !HasBitcoin(AllAttestations(t))
    requires log == [] || log[|log| - 1].outcome != Found || !HasBitcoin(AllAttestations(MergeAll(t, log, script)))
    ensures !HasBitcoin(AllAttestations(MergeAll(t, log, script)))
  {
    if log != [] && log[|log| - 1].outcome != Found {
      NoBitcoinBeforeTheLast(t, log[..|log| - 1], script);
    }
  }

  /** Of a proof that carried no Bitcoin attestation, the walk reports `anchored` if
      and only if the proof now carries one, and if and only if one of the calendar's
      answers that were merged did. */
  lemma AnchoredIffBitcoin(t: Tree, u: Tree, log: seq<Query>, script: nat -> Turn, tally: Tally)
    requires WellFormed(t) && Ended(t, u, log, script, tally) && !HasBitcoin(AllAttestations(t))
    ensures tally.anchored <==> HasBitcoin(AllAttestations(u))
    ensures tally.anchored <==> exists i :: 0 <= i < |log| && BroughtBitcoin(log[i], script(i))
  {
    if !tally.anchored {
      NoBitcoinBeforeTheLast(t, log, script);
    }
    BitcoinComesFromAnswers(t, log, script);
  }

  /** The time the request had left when the query was put. */
  function Left(q: Query): Duration { if q.started < MAX_SECONDS then MAX_SECONDS - q.started else 0.0 }

  /** An answer about the query's commitment arrived complete in time, and carries a
      Bitcoin attestation. */
  ghost predicate BroughtBitcoin(q: Query, turn: Turn) {
    Answers(turn, Left(q), q.commitment) && HasBitcoin(AllAttestations(turn.reply.proof))
  }

  /** A query is counted found exactly when the calendar's answer about its commitment
      arrived complete in time; not found yet, unmergeable, failed and abandoned
      likewise. */
  lemma {:induction false} OutcomesLoggedExactly(t: Tree, log: seq<Query>, script: nat -> Turn, i: nat)
    requires WellFormed(t) && Ran(t, log, script) && i < |log|
    ensures var turn, left, o := script(i), Left(log[i]), log[i].outcome;
            && (o == Found <==> Answers(turn, left, log[i].commitment))
            && (o == Unmergeable <==>
                  ArrivesInTime(turn, left) && turn.reply.Answered? && !Answers(turn, left, log[i].commitment))
            && (o == NotFoundYet <==> ArrivesInTime(turn, left) && turn.reply.NotFound?)
            && (o == FailedLookup <==> TimesOut(turn, left) || (ArrivesInTime(turn, left) && turn.reply.Error?))
            && (o == Abandoned <==> !ArrivesInTime(turn, left) && !TimesOut(turn, left))
    ensures ArrivesInTime(script(i), Left(log[i])) ==> !TimesOut(script(i), Left(log[i]))
  {
    OutcomeLogged(t, log, script, i);
    OutcomesExactly(script(i), Left(log[i]), log[i].commitment);
  }

  lemma {:induction false} BitcoinComesFromAnswers(t: Tree, log: seq<Query>, script: nat -> Turn)
    requires WellFormed(t) && Ran(t, log, script)
    ensures HasBitcoin(AllAttestations(MergeAll(t, log, script)))
            <==> HasBitcoin(AllAttestations(t)) || exists i :: 0 <= i < |log| && BroughtBitcoin(log[i], script(i))
  {
    RanMerges(t, log, script);
    if HasBitcoin(AllAttestations(MergeAll(t, log, script))) && !HasBitcoin(AllAttestations(t)) {
      BitcoinWasBrought(t, log, script);
    }
    if HasBitcoin(AllAttestations(t)) {
      MergeAllGrows(t, log, script);
      GrowthKeepsAttestations(t, MergeAll(t, log, script));
    }
    forall i | 0 <= i < |log| && BroughtBitcoin(log[i], script(i))
      ensures HasBitcoin(AllAttestations(MergeAll(t, log, script)))
    {
      BroughtBitcoinIsMerged(t, log, script, i);
    }
  }

  lemma {:induction false} BitcoinWasBrought(t: Tree, log: seq<Query>, script: nat -> Turn)
    requires WellFormed(t) && Ran(t, log, script) && FoundMerges(t, log, script)
    requires HasBitcoin(AllAttestations(MergeAll(t, log, script))) && !HasBitcoin(AllAttestations(t))
    ensures exists i :: 0 <= i < |log| && BroughtBitcoin(log[i], script(i))
  {
    var u := MergeAll(t, log, script);
    var a :| a in AllAttestations(u) && a.BitcoinBlock?;
    var v :| 0 <= v < |u.nodes| && a in u.nodes[v].attestations;
    var x := u.nodes[v].message;
    assert Attests(u, x, a);
    MergeAllAttests(t, log, script, x, a);
    var i :| 0 <= i < |log| && FoundAttests(log[i], script(i), x, a);
    OutcomesLoggedExactly(t, log, script, i);
    assert BroughtBitcoin(log[i], script(i));
  }

  lemma {:induction false} BroughtBitcoinIsMerged(t: Tree, log: seq<Query>, script: nat -> Turn, i: nat)
    requires WellFormed(t) && Ran(t, log, script) && FoundMerges(t, log, script)
    requires i < |log| && BroughtBitcoin(log[i], script(i))
    ensures HasBitcoin(AllAttestations(MergeAll(t, log, script)))
  {
    OutcomesLoggedExactly(t, log, script, i);
    var p: Tree := script(i).reply.proof;
    var a :| a in AllAttestations(p) && a.BitcoinBlock?;
    var v :| 0 <= v < |p.nodes| && a in p.nodes[v].attestations;
    var x := p.nodes[v].message;
    assert Attests(p, x, a) && FoundAttests(log[i], script(i), x, a);
    MergeAllAttests(t, log, script, x, a);
  }

  lemma GrowthKeepsAttestations(t: Tree, u: Tree)
    requires Grown(t, u)
    ensures AllAttestations(t) <= AllAttestations(u)
  {
  }

  /** If the walk ends with neither a Bitcoin attestation nor an exhausted budget,
      the calendar has been asked about, and has dealt with, every pending node of
      the final proof, those its own answers added included. */
  lemma NothingPendingIsMissed(t: Tree, u: Tree, log: seq<Query>, script: nat -> Turn, tally: Tally, v: NodeId)
    requires WellFormed(t) && Ended(t, u, log, script, tally) && !HasBitcoin(AllAttestations(t))
    requires !tally.anchored && !tally.budgetExhausted && v < |u.nodes| && IsPending(u, v)
    ensures exists i :: 0 <= i < |log| && log[i].commitment == u.nodes[v].message
                        && log[i].outcome != Abandoned && !BroughtBitcoin(log[i], script(i))
  {
    AnchoredIffBitcoin(t, u, log, script, tally);
    var i :| 0 <= i < |log| && log[i].commitment == u.nodes[v].message;
    if log[i].outcome == Abandoned {
      OnlyTheLastIsAbandoned(t, log, script, i);
    }
    assert !BroughtBitcoin(log[i], script(i));
  }
}
