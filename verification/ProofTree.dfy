/** Timestamp proofs as the OpenTimestamps library holds them in memory: objects
    with a message, a set of attestations and an ordered dictionary from operations
    to child objects. Objects are entries of a store, referred to by index, so that
    adding to one in place is visible to whoever holds its index. The library's
    `merge` is given here as the gateway relies on it. */
module ProofTree {

  // ---- messages and operations ----

  /** A message is a string of bytes and of hash outputs; hashing is free. */
  datatype Atom = Byte(b: bv8) | HashOf(algorithm: nat, message: seq<Atom>)

  type Message = seq<Atom>

  datatype Op = Append(arg: Message) | Prepend(arg: Message) | Hash(algorithm: nat)

  function Applied(op: Op, m: Message): Message {
    match op
    case Append(arg) => m + arg
    case Prepend(arg) => arg + m
    case Hash(algorithm) => [HashOf(algorithm, m)]
  }

  datatype Attestation = PendingAt(uri: string) | BitcoinBlock(height: nat) | UnknownAttestation(tag: nat)

  // ---- the store ----

  type NodeId = nat

  datatype Edge = Edge(op: Op, child: NodeId)

  datatype Node = Node(message: Message, attestations: set<Attestation>, ops: seq<Edge>)

  /** Bookkeeping the library does not keep: which op of which node holds this node. */
  datatype Place = Place(parent: NodeId, slot: nat)

  /** Node 0 is the root. */
  datatype Tree = Tree(nodes: seq<Node>, places: seq<Place>)

  /** An edge leads to a later node, whose message is the operation applied to the
      parent's, and which knows its one place. */
  ghost predicate EdgeOk(t: Tree, i: NodeId, k: nat)
    requires i < |t.nodes| && k < |t.nodes[i].ops| && |t.places| == |t.nodes|
  {
    var e := t.nodes[i].ops[k];
    && i < e.child < |t.nodes|
    && t.nodes[e.child].message == Applied(e.op, t.nodes[i].message)
    && t.places[e.child] == Place(i, k)
  }

  /** A node other than the root is held by an earlier one. */
  ghost predicate PlaceOk(t: Tree, i: NodeId)
    requires 0 < i < |t.nodes| && |t.places| == |t.nodes|
  {
    var p := t.places[i];
    p.parent < i && p.slot < |t.nodes[p.parent].ops| && t.nodes[p.parent].ops[p.slot].child == i
  }

  ghost predicate OpsDistinct(ops: seq<Edge>) {
    forall k, l | 0 <= k < l < |ops| :: ops[k].op != ops[l].op
  }

  /** An unshared tree. */
  ghost predicate WellFormed(t: Tree) {
    && |t.places| == |t.nodes| >= 1
    && (forall i, k | 0 <= i < |t.nodes| && 0 <= k < |t.nodes[i].ops| :: EdgeOk(t, i, k))
    && (forall i | 0 < i < |t.nodes| :: PlaceOk(t, i))
    && (forall i | 0 <= i < |t.nodes| :: OpsDistinct(t.nodes[i].ops))
  }

  /** What the library's deserializer returns. */
  type Proof = t: Tree | WellFormed(t) witness Tree([Node([], {}, [])], [Place(0, 0)])

  /** `i` is `n` or one of its descendants. */
  ghost predicate Under(t: Tree, n: NodeId, i: NodeId)
    requires i < |t.places|
    decreases i
  {
    i == n || (i > n && t.places[i].parent < i && Under(t, n, t.places[i].parent))
  }

  ghost predicate IsPending(t: Tree, i: NodeId)
    requires i < |t.nodes|
  {
    HasPending(t.nodes[i].attestations)
  }

  predicate HasPending(atts: set<Attestation>) { exists a | a in atts :: a.PendingAt? }

  predicate HasBitcoin(atts: set<Attestation>) { exists a | a in atts :: a.BitcoinBlock? }

  /** Some node of the tree carries the attestation on this message. */
  ghost predicate Attests(t: Tree, m: Message, a: Attestation) {
    exists i :: 0 <= i < |t.nodes| && t.nodes[i].message == m && a in t.nodes[i].attestations
  }

  /** `all_attestations()` without its messages. */
  function AllAttestations(t: Tree): set<Attestation> {
    set i, a | 0 <= i < |t.nodes| && a in t.nodes[i].attestations :: a
  }

  // ---- growth in place ----

  /** Every node of `t` is still there in `u` at its index, with its message, its
      attestations and its operations in their order, and possibly more. */
  ghost predicate Grown(t: Tree, u: Tree) {
    && |t.nodes| <= |u.nodes| && t.places <= u.places
    && forall i | 0 <= i < |t.nodes| ::
         && u.nodes[i].message == t.nodes[i].message
         && t.nodes[i].attestations <= u.nodes[i].attestations
         && t.nodes[i].ops <= u.nodes[i].ops
  }

  /** ... and nothing outside the subtree of `n` was touched. */
  ghost predicate GrownUnder(t: Tree, n: NodeId, u: Tree)
    requires |t.places| == |t.nodes|
  {
    && Grown(t, u)
    && forall i | 0 <= i < |t.nodes| && !Under(t, n, i) :: u.nodes[i] == t.nodes[i]
  }

  lemma {:induction false} UnderGrows(t: Tree, n: NodeId, u: Tree, i: NodeId)
    requires t.places <= u.places && i < |t.places|
    ensures Under(t, n, i) == Under(u, n, i)
    decreases i
  {
    if i > n && t.places[i].parent < i {
      UnderGrows(t, n, u, t.places[i].parent);
    }
  }

  lemma {:induction false} UnderTransitive(t: Tree, n: NodeId, c: NodeId, i: NodeId)
    requires i < |t.places| && c < |t.places| && Under(t, n, c) && Under(t, c, i)
    ensures Under(t, n, i)
    decreases i
  {
    if i != c {
      UnderTransitive(t, n, c, t.places[i].parent);
      UnderAtLeast(t, c, i);
      UnderAtLeast(t, n, c);
    }
  }

  lemma UnderAtLeast(t: Tree, n: NodeId, i: NodeId)
    requires i < |t.places| && Under(t, n, i)
    ensures n <= i
  {
  }

  lemma GrownUnderTwice(t: Tree, n: NodeId, u: Tree, v: Tree)
    requires |t.places| == |t.nodes| && |u.places| == |u.nodes|
    requires GrownUnder(t, n, u) && GrownUnder(u, n, v)
    ensures GrownUnder(t, n, v)
  {
    forall i | 0 <= i < |t.nodes| && !Under(t, n, i) ensures v.nodes[i] == t.nodes[i] {
      UnderGrows(t, n, u, i);
    }
  }

  lemma GrownUnderAncestor(t: Tree, n: NodeId, c: NodeId, u: Tree)
    requires |t.places| == |t.nodes| && c < |t.places| && Under(t, n, c) && GrownUnder(t, c, u)
    ensures GrownUnder(t, n, u)
  {
    forall i | 0 <= i < |t.nodes| && !Under(t, n, i) ensures u.nodes[i] == t.nodes[i] {
      if Under(t, c, i) {
        UnderTransitive(t, n, c, i);
      }
    }
  }

  // ---- merge ----

  /** `self.attestations.update(other.attestations)` */
  function WithAttestations(t: Tree, n: NodeId, atts: set<Attestation>): Tree
    requires n < |t.nodes|
  {
    t.(nodes := t.nodes[n := t.nodes[n].(attestations := t.nodes[n].attestations + atts)])
  }

  /** `self.ops.add(op)` for a new operation: a fresh child, last in order. */
  function WithChild(t: Tree, n: NodeId, op: Op): Tree
    requires n < |t.nodes|
  {
    var node := t.nodes[n];
    Tree(t.nodes[n := node.(ops := node.ops + [Edge(op, |t.nodes|)])] + [Node(Applied(op, node.message), {}, [])],
         t.places + [Place(n, |node.ops|)])
  }

  function SlotOf(ops: seq<Edge>, op: Op): (k: nat)
    ensures k <= |ops| && (k < |ops| ==> ops[k].op == op) && forall l | 0 <= l < k :: ops[l].op != op
  {
    if ops == [] || ops[0].op == op then 0 else 1 + SlotOf(ops[1..], op)
  }

  lemma WithAttestationsGrows(t: Tree, n: NodeId, atts: set<Attestation>)
    requires WellFormed(t) && n < |t.nodes|
    ensures WellFormed(WithAttestations(t, n, atts)) && GrownUnder(t, n, WithAttestations(t, n, atts))
  {
    var u := WithAttestations(t, n, atts);
    assert forall i | 0 <= i < |t.nodes| ::
        u.nodes[i].ops == t.nodes[i].ops && u.nodes[i].message == t.nodes[i].message;
    forall i, k | 0 <= i < |u.nodes| && 0 <= k < |u.nodes[i].ops| ensures EdgeOk(u, i, k) {
      assert EdgeOk(t, i, k);
    }
    forall i | 0 < i < |u.nodes| ensures PlaceOk(u, i) {
      assert PlaceOk(t, i);
    }
    forall i | 0 <= i < |u.nodes| ensures OpsDistinct(u.nodes[i].ops) {
      assert OpsDistinct(t.nodes[i].ops);
    }
  }

  lemma WithChildGrows(t: Tree, n: NodeId, op: Op)
    requires WellFormed(t) && n < |t.nodes| && SlotOf(t.nodes[n].ops, op) == |t.nodes[n].ops|
    ensures WellFormed(WithChild(t, n, op)) && GrownUnder(t, n, WithChild(t, n, op))
    ensures Under(WithChild(t, n, op), n, |t.nodes|)
  {
    var u, c := WithChild(t, n, op), |t.nodes|;
    forall i, k | 0 <= i < |u.nodes| && 0 <= k < |u.nodes[i].ops| ensures EdgeOk(u, i, k) {
      if i < c && k < |t.nodes[i].ops| {
        assert EdgeOk(t, i, k);
      }
    }
    forall i | 0 < i < |u.nodes| ensures PlaceOk(u, i) {
      if i < c {
        assert PlaceOk(t, i);
      }
    }
    forall i | 0 <= i < |u.nodes| ensures OpsDistinct(u.nodes[i].ops) {
      if i < c {
        assert OpsDistinct(t.nodes[i].ops);
      }
    }
  }

  /** Merges node `m` of `u` into node `n` of `t`: attestations, then operation by
      operation in `u`'s order, into the child already there or a fresh one. */
  function Merge(t: Tree, n: NodeId, u: Tree, m: NodeId): (r: Tree)
    requires WellFormed(t) && WellFormed(u) && n < |t.nodes| && m < |u.nodes|
    requires t.nodes[n].message == u.nodes[m].message
    ensures WellFormed(r) && GrownUnder(t, n, r)
    decreases |u.nodes| - m, |u.nodes[m].ops| + 1
  {
    var t1 := WithAttestations(t, n, u.nodes[m].attestations);
    WithAttestationsGrows(t, n, u.nodes[m].attestations);
    var r := MergeOps(t1, n, u, m, 0);
    GrownUnderTwice(t, n, t1, r);
    r
  }

  function MergeOps(t: Tree, n: NodeId, u: Tree, m: NodeId, k: nat): (r: Tree)
    requires WellFormed(t) && WellFormed(u) && n < |t.nodes| && m < |u.nodes| && k <= |u.nodes[m].ops|
    requires t.nodes[n].message == u.nodes[m].message
    ensures WellFormed(r) && GrownUnder(t, n, r)
    decreases |u.nodes| - m, |u.nodes[m].ops| - k
  {
    if k == |u.nodes[m].ops| then t
    else
      var t1 := MergeOp(t, n, u, m, k);
      var r := MergeOps(t1, n, u, m, k + 1);
      GrownUnderTwice(t, n, t1, r);
      r
  }

  function MergeOp(t: Tree, n: NodeId, u: Tree, m: NodeId, k: nat): (r: Tree)
    requires WellFormed(t) && WellFormed(u) && n < |t.nodes| && m < |u.nodes| && k < |u.nodes[m].ops|
    requires t.nodes[n].message == u.nodes[m].message
    ensures WellFormed(r) && GrownUnder(t, n, r)
    decreases |u.nodes| - m, |u.nodes[m].ops| - k, 0
  {
    assert EdgeOk(u, m, k);
    var e := u.nodes[m].ops[k];
    var slot := SlotOf(t.nodes[n].ops, e.op);
    if slot < |t.nodes[n].ops| then
      assert EdgeOk(t, n, slot);
      var c := t.nodes[n].ops[slot].child;
      var r := Merge(t, c, u, e.child);
      GrownUnderAncestor(t, n, c, r);
      r
    else
      var t1 := WithChild(t, n, e.op);
      WithChildGrows(t, n, e.op);
      var r := Merge(t1, |t.nodes|, u, e.child);
      GrownUnderAncestor(t1, n, |t.nodes|, r);
      GrownUnderTwice(t, n, t1, r);
      r
  }

  // ---- what a merge attests ----

  /** Some node of the subtree of `m` carries the attestation on this message. */
  ghost predicate AttestsUnder(t: Tree, m: NodeId, x: Message, a: Attestation)
    requires |t.places| == |t.nodes|
  {
    exists i :: 0 <= i < |t.nodes| && Under(t, m, i) && Carries(t, i, x, a)
  }

  ghost predicate Carries(t: Tree, i: NodeId, x: Message, a: Attestation)
    requires i < |t.nodes|
  {
    t.nodes[i].message == x && a in t.nodes[i].attestations
  }

  ghost predicate AttestsFrom(t: Tree, m: NodeId, k: nat, x: Message, a: Attestation)
    requires WellFormed(t) && m < |t.nodes| && k <= |t.nodes[m].ops|
  {
    exists l :: k <= l < |t.nodes[m].ops| && AttestsUnder(t, t.nodes[m].ops[l].child, x, a)
  }

  /** A descendant of `m` is `m` or lies under one of its children. */
  lemma {:induction false} UnderSplits(t: Tree, m: NodeId, i: NodeId)
    requires WellFormed(t) && m < |t.nodes| && i < |t.nodes| && Under(t, m, i) && i != m
    ensures exists l :: 0 <= l < |t.nodes[m].ops| && Under(t, t.nodes[m].ops[l].child, i)
    decreases i
  {
    var p := t.places[i].parent;
    assert PlaceOk(t, i);
    if p == m {
      assert t.nodes[m].ops[t.places[i].slot].child == i;
    } else {
      UnderSplits(t, m, p);
      var l :| 0 <= l < |t.nodes[m].ops| && Under(t, t.nodes[m].ops[l].child, p);
      UnderAtLeast(t, t.nodes[m].ops[l].child, p);
    }
  }

  lemma UnderChild(t: Tree, m: NodeId, l: nat, i: NodeId)
    requires WellFormed(t) && m < |t.nodes| && l < |t.nodes[m].ops| && i < |t.nodes|
    requires Under(t, t.nodes[m].ops[l].child, i)
    ensures Under(t, m, i)
  {
    assert EdgeOk(t, m, l);
    UnderTransitive(t, m, t.nodes[m].ops[l].child, i);
  }

  lemma AttestsUnderSplits(t: Tree, m: NodeId, x: Message, a: Attestation)
    requires WellFormed(t) && m < |t.nodes|
    ensures AttestsUnder(t, m, x, a) <==> Carries(t, m, x, a) || AttestsFrom(t, m, 0, x, a)
  {
    if AttestsUnder(t, m, x, a) {
      var i :| 0 <= i < |t.nodes| && Under(t, m, i) && Carries(t, i, x, a);
      if i != m {
        UnderSplits(t, m, i);
        var l :| 0 <= l < |t.nodes[m].ops| && Under(t, t.nodes[m].ops[l].child, i);
        assert AttestsUnder(t, t.nodes[m].ops[l].child, x, a);
      }
    }
    if AttestsFrom(t, m, 0, x, a) {
      var l :| 0 <= l < |t.nodes[m].ops| && AttestsUnder(t, t.nodes[m].ops[l].child, x, a);
      var i :| 0 <= i < |t.nodes| && Under(t, t.nodes[m].ops[l].child, i) && Carries(t, i, x, a);
      UnderChild(t, m, l, i);
    }
  }

  lemma WithAttestationsAttests(t: Tree, n: NodeId, atts: set<Attestation>, x: Message, a: Attestation)
    requires n < |t.nodes|
    ensures Attests(WithAttestations(t, n, atts), x, a) <==> Attests(t, x, a) || (t.nodes[n].message == x && a in atts)
  {
    var u := WithAttestations(t, n, atts);
    if Attests(t, x, a) {
      var i :| 0 <= i < |t.nodes| && t.nodes[i].message == x && a in t.nodes[i].attestations;
      assert u.nodes[i].message == x && a in u.nodes[i].attestations;
    }
    if t.nodes[n].message == x && a in atts {
      assert u.nodes[n].message == x && a in u.nodes[n].attestations;
    }
    if Attests(u, x, a) {
      var i :| 0 <= i < |u.nodes| && u.nodes[i].message == x && a in u.nodes[i].attestations;
      assert t.nodes[i].message == x && (a in t.nodes[i].attestations || (i == n && a in atts));
    }
  }

  lemma WithChildAttests(t: Tree, n: NodeId, op: Op, x: Message, a: Attestation)
    requires n < |t.nodes|
    ensures Attests(WithChild(t, n, op), x, a) <==> Attests(t, x, a)
  {
    var u := WithChild(t, n, op);
    if Attests(t, x, a) {
      var i :| 0 <= i < |t.nodes| && t.nodes[i].message == x && a in t.nodes[i].attestations;
      assert u.nodes[i].message == x && a in u.nodes[i].attestations;
    }
  }

  /** A merge attests exactly what both sides attested. */
  lemma {:induction false} MergeAttests(t: Tree, n: NodeId, u: Tree, m: NodeId, x: Message, a: Attestation)
    requires WellFormed(t) && WellFormed(u) && n < |t.nodes| && m < |u.nodes|
    requires t.nodes[n].message == u.nodes[m].message
    ensures Attests(Merge(t, n, u, m), x, a) <==> Attests(t, x, a) || AttestsUnder(u, m, x, a)
    decreases |u.nodes| - m, |u.nodes[m].ops| + 1
  {
    WithAttestationsGrows(t, n, u.nodes[m].attestations);
    WithAttestationsAttests(t, n, u.nodes[m].attestations, x, a);
    MergeOpsAttests(WithAttestations(t, n, u.nodes[m].attestations), n, u, m, 0, x, a);
    AttestsUnderSplits(u, m, x, a);
  }

  lemma {:induction false} MergeOpsAttests(t: Tree, n: NodeId, u: Tree, m: NodeId, k: nat, x: Message, a: Attestation)
    requires WellFormed(t) && WellFormed(u) && n < |t.nodes| && m < |u.nodes| && k <= |u.nodes[m].ops|
    requires t.nodes[n].message == u.nodes[m].message
    ensures Attests(MergeOps(t, n, u, m, k), x, a) <==> Attests(t, x, a) || AttestsFrom(u, m, k, x, a)
    decreases |u.nodes| - m, |u.nodes[m].ops| - k
  {
    if k < |u.nodes[m].ops| {
      MergeOpAttests(t, n, u, m, k, x, a);
      MergeOpsAttests(MergeOp(t, n, u, m, k), n, u, m, k + 1, x, a);
      AttestsFromSplits(u, m, k, x, a);
    }
  }

  lemma AttestsFromSplits(t: Tree, m: NodeId, k: nat, x: Message, a: Attestation)
    requires WellFormed(t) && m < |t.nodes| && k < |t.nodes[m].ops|
    ensures AttestsFrom(t, m, k, x, a) <==>
              AttestsUnder(t, t.nodes[m].ops[k].child, x, a) || AttestsFrom(t, m, k + 1, x, a)
  {
  }

  lemma {:induction false} MergeOpAttests(t: Tree, n: NodeId, u: Tree, m: NodeId, k: nat, x: Message, a: Attestation)
    requires WellFormed(t) && WellFormed(u) && n < |t.nodes| && m < |u.nodes| && k < |u.nodes[m].ops|
    requires t.nodes[n].message == u.nodes[m].message
    ensures Attests(MergeOp(t, n, u, m, k), x, a) <==>
              Attests(t, x, a) || AttestsUnder(u, u.nodes[m].ops[k].child, x, a)
    decreases |u.nodes| - m, |u.nodes[m].ops| - k, 0
  {
    assert EdgeOk(u, m, k);
    var e := u.nodes[m].ops[k];
    var slot := SlotOf(t.nodes[n].ops, e.op);
    if slot < |t.nodes[n].ops| {
      assert EdgeOk(t, n, slot);
      MergeAttests(t, t.nodes[n].ops[slot].child, u, e.child, x, a);
    } else {
      WithChildGrows(t, n, e.op);
      WithChildAttests(t, n, e.op, x, a);
      MergeAttests(WithChild(t, n, e.op), |t.nodes|, u, e.child, x, a);
    }
  }

  /** Merging a whole tree into a node: the union of the two trees' attestations. */
  lemma {:induction false} MergeRootAttests(t: Tree, n: NodeId, u: Tree, x: Message, a: Attestation)
    requires WellFormed(t) && WellFormed(u) && n < |t.nodes| && t.nodes[n].message == u.nodes[0].message
    ensures Attests(Merge(t, n, u, 0), x, a) <==> Attests(t, x, a) || Attests(u, x, a)
  {
    MergeAttests(t, n, u, 0, x, a);
    forall i | 0 <= i < |u.nodes| ensures Under(u, 0, i) {
      AllUnderRoot(u, i);
    }
    if Attests(u, x, a) {
      var i :| 0 <= i < |u.nodes| && u.nodes[i].message == x && a in u.nodes[i].attestations;
      assert Carries(u, i, x, a);
    }
  }

  lemma {:induction false} AllUnderRoot(t: Tree, i: NodeId)
    requires WellFormed(t) && i < |t.nodes|
    ensures Under(t, 0, i)
    decreases i
  {
    if i > 0 {
      assert PlaceOk(t, i);
      AllUnderRoot(t, t.places[i].parent);
    }
  }
}
