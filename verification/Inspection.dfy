/** The answers of /verify and /upgrade about a proof file: its structural status, and
    for /upgrade the file as the walk left it. */
module Inspection {
  import opened Calendar
  import opened ProofTree
  import opened Upgrade
  import opened Wrappers

  /** A proof file's bytes: not a proof at all, or one of the spellings of a proof.
      What the serializer writes is spelling 0. */
  datatype Bytes = Malformed(raw: nat) | Encoded(proof: Proof, spelling: nat)

  function Deserialize(b: Bytes): Option<Proof> {
    match b
    case Malformed(_) => None
    case Encoded(proof, _) => Some(proof)
  }

  function Serialize(proof: Proof): Bytes { Encoded(proof, 0) }

  datatype Status = Invalid | Mismatch | BitcoinAttestationPresent | Pending | NoAttestations | CalendarUnavailable

  datatype UpgradeInfo = UpgradeInfo(calendarQueries: nat, budgetExhausted: bool)

  /** `verified` is None for the JSON null. */
  datatype ProofAnswer = ProofAnswer(
    digest: Message, proofDigest: Option<Message>, status: Status, validOts: bool, digestMatch: bool,
    bitcoinPresent: bool, verified: Option<bool>, attestations: multiset<Attestation>,
    ots: Option<Bytes>, info: Option<UpgradeInfo>)

  function AnswerWith(digest: Message, status: Status, proofDigest: Option<Message>,
                      attestations: multiset<Attestation>, validOts: bool,
                      ots: Option<Bytes>, info: Option<UpgradeInfo>): ProofAnswer {
    ProofAnswer(digest, proofDigest, status, validOts, proofDigest == Some(digest),
                ShowsBitcoin(attestations), if status == BitcoinAttestationPresent then None else Some(false),
                attestations, ots, info)
  }

  function StructuralStatus(digestMatch: bool, attestations: multiset<Attestation>): Status {
    if !digestMatch then Mismatch
    else if ShowsBitcoin(attestations) then BitcoinAttestationPresent
    else if ShowsPending(attestations) then Pending
    else NoAttestations
  }

  predicate ShowsBitcoin(attestations: multiset<Attestation>) { exists a | a in attestations :: a.BitcoinBlock? }

  predicate ShowsPending(attestations: multiset<Attestation>) { exists a | a in attestations :: a.PendingAt? }

  /** The attestations of all nodes, each as often as a node carries it. */
  function Listed(proof: Tree): multiset<Attestation> { ListedIn(proof.nodes) }

  function ListedIn(nodes: seq<Node>): multiset<Attestation> {
    if nodes == [] then multiset{} else ListedIn(nodes[..|nodes| - 1]) + multiset(nodes[|nodes| - 1].attestations)
  }

  lemma {:induction false} ListedMembers(nodes: seq<Node>, a: Attestation)
    ensures a in ListedIn(nodes) <==> exists i :: 0 <= i < |nodes| && a in nodes[i].attestations
  {
    if nodes != [] {
      var before := nodes[..|nodes| - 1];
      ListedMembers(before, a);
      assert forall i | 0 <= i < |before| :: before[i] == nodes[i];
    }
  }

  /** The list shows what the tree carries. */
  lemma ListShowsTree(proof: Tree)
    ensures ShowsBitcoin(Listed(proof)) <==> HasBitcoin(AllAttestations(proof))
    ensures forall a :: a in Listed(proof) <==> a in AllAttestations(proof)
  {
    forall a ensures a in Listed(proof) <==> a in AllAttestations(proof) {
      ListedMembers(proof.nodes, a);
    }
  }

  /** A grown proof lists every attestation at least as often. */
  lemma {:induction false} GrowthKeepsList(t: Tree, u: Tree, n: nat)
    requires Grown(t, u) && n <= |t.nodes|
    ensures ListedIn(t.nodes[..n]) <= ListedIn(u.nodes[..n])
  {
    if n > 0 {
      GrowthKeepsList(t, u, n - 1);
      assert t.nodes[..n][..n - 1] == t.nodes[..n - 1] && u.nodes[..n][..n - 1] == u.nodes[..n - 1];
      assert t.nodes[..n][n - 1] == t.nodes[n - 1] && u.nodes[..n][n - 1] == u.nodes[n - 1];
      assert t.nodes[n - 1].attestations <= u.nodes[n - 1].attestations;
    }
  }

  lemma {:induction false} PrefixListsLess(nodes: seq<Node>, n: nat)
    requires n <= |nodes|
    ensures ListedIn(nodes[..n]) <= ListedIn(nodes)
    decreases |nodes|
  {
    if n < |nodes| {
      PrefixListsLess(nodes[..|nodes| - 1], n);
      assert nodes[..|nodes| - 1][..n] == nodes[..n];
    } else {
      assert nodes[..n] == nodes;
    }
  }

  lemma GrownListsMore(t: Tree, u: Tree)
    requires Grown(t, u)
    ensures Listed(t) <= Listed(u)
  {
    GrowthKeepsList(t, u, |t.nodes|);
    PrefixListsLess(u.nodes, |t.nodes|);
    assert t.nodes[..|t.nodes|] == t.nodes;
  }

  function FileDigest(proof: Proof): Message { proof.nodes[0].message }

  /** The status read from a well-formed file, as both routes read it. */
  function StatusOf(digest: Message, proof: Proof): Status {
    StructuralStatus(FileDigest(proof) == digest, Listed(proof))
  }

  /** /verify */
  function VerifyOts(digest: Message, ots: Bytes): ProofAnswer {
    match Deserialize(ots)
    case None => AnswerWith(digest, Invalid, None, multiset{}, false, None, None)
    case Some(proof) =>
      AnswerWith(digest, StatusOf(digest, proof), Some(FileDigest(proof)), Listed(proof), true, None, None)
  }

  /** What /upgrade did: the calendar's queries, the proof they left, their tally. */
  datatype Work = Untouched | Walked(log: seq<Query>, upgraded: Proof, tally: Tally)

  /** /upgrade */
  method UpgradeOts(digest: Message, ots: Bytes, script: nat -> Turn) returns (answer: ProofAnswer, work: Work)
    ensures Upgrades(digest, ots, script, answer, work)
  {
    var parsed := Deserialize(ots);
    if parsed == None {
      return AnswerWith(digest, Invalid, None, multiset{}, false, None, None), Untouched;
    }
    var detached := new Timestamp(parsed.value);
    var proofDigest := Some(FileDigest(detached.tree));
    var status := StatusOf(digest, detached.tree);
    if status != Pending {
      return AnswerWith(digest, status, proofDigest, Listed(detached.tree), true, Some(ots), None), Untouched;
    }
    var tally, log := detached.UpgradePending(script);
    WalkFacts(parsed.value, detached.tree, log, script, tally);
    work := Walked(log, detached.tree, tally);
    var info, attestations := Some(UpgradeInfo(tally.queries, tally.budgetExhausted)), Listed(detached.tree);
    if tally.anchored {
      var grown := Some(Serialize(detached.tree));
      answer := AnswerWith(digest, BitcoinAttestationPresent, proofDigest, attestations, true, grown, info);
    } else if tally.queries > 0 && tally.failed == tally.queries {
      answer := AnswerWith(digest, CalendarUnavailable, proofDigest, attestations, true, Some(ots), info);
    } else {
      answer := AnswerWith(digest, Pending, proofDigest, attestations, true, Some(ots), info);
    }
  }

  /** An answer of /upgrade, by what it says: a file that is not pending is answered
      as /verify answers it, untouched; of a pending one, the walk's result is
      reported under the status it deserves. */
  ghost predicate Upgrades(digest: Message, ots: Bytes, script: nat -> Turn, answer: ProofAnswer, work: Work) {
    var read := VerifyOts(digest, ots);
    if work.Untouched? then
      && read.status != Pending
      && answer == read.(ots := if read.validOts then Some(ots) else None)
    else
      && read.status == Pending && ots.Encoded?
      && Ended(ots.proof, work.upgraded, work.log, script, work.tally)
      && answer == VerifyOts(digest, Serialize(work.upgraded)).(
           status := answer.status, verified := answer.verified, ots := answer.ots, info := answer.info)
      && answer.info == Some(UpgradeInfo(|work.log|, work.tally.budgetExhausted))
      && (answer.status == BitcoinAttestationPresent <==> ShowsBitcoin(Listed(work.upgraded)))
      && (answer.status == CalendarUnavailable <==>
            work.log != [] && forall i | 0 <= i < |work.log| :: work.log[i].outcome in {FailedLookup, Abandoned})
      && answer.status in {BitcoinAttestationPresent, CalendarUnavailable, Pending}
      && answer.verified == (if answer.status == BitcoinAttestationPresent then None else Some(false))
      && answer.ots == Some(if answer.status == BitcoinAttestationPresent then Serialize(work.upgraded) else ots)
  }

  lemma WalkFacts(t: Tree, u: Tree, log: seq<Query>, script: nat -> Turn, tally: Tally)
    requires WellFormed(t) && Ended(t, u, log, script, tally) && !ShowsBitcoin(Listed(t))
    ensures tally.anchored <==> ShowsBitcoin(Listed(u))
    ensures tally.queries == |log|
    ensures tally.failed == tally.queries <==> forall i | 0 <= i < |log| :: log[i].outcome in {FailedLookup, Abandoned}
    ensures tally.anchored ==> tally.queries > 0 && tally.failed != tally.queries
    ensures Grown(t, u)
  {
    ListShowsTree(t);
    ListShowsTree(u);
    AnchoredIffBitcoin(t, u, log, script, tally);
    TallyAddsUp(log, tally);
    MergeAllGrows(t, log, script);
    if tally.anchored {
      assert log[|log| - 1].outcome == Found;
    }
  }

  // ---- /verify ----

  /** Some node of the proof carries such an attestation. */
  ghost predicate CarriesBitcoin(proof: Proof) {
    exists i, a :: 0 <= i < |proof.nodes| && a in proof.nodes[i].attestations && a.BitcoinBlock?
  }

  ghost predicate CarriesPending(proof: Proof) {
    exists i, a :: 0 <= i < |proof.nodes| && a in proof.nodes[i].attestations && a.PendingAt?
  }

  /** /verify answers each status exactly when: bytes that are no proof; a proof of
      another digest, whatever it carries; a proof of this digest with a Bitcoin
      attestation, else with a pending one, else with neither. */
  lemma VerifyExactly(digest: Message, ots: Bytes)
    ensures var answer := VerifyOts(digest, ots);
            && (answer.status == Invalid <==> ots.Malformed?)
            && (answer.status == Mismatch <==> ots.Encoded? && ots.proof.nodes[0].message != digest)
            && (answer.status == BitcoinAttestationPresent <==>
                  ots.Encoded? && ots.proof.nodes[0].message == digest && CarriesBitcoin(ots.proof))
            && (answer.status == Pending <==>
                  ots.Encoded? && ots.proof.nodes[0].message == digest
                  && !CarriesBitcoin(ots.proof) && CarriesPending(ots.proof))
            && (answer.status == NoAttestations <==>
                  ots.Encoded? && ots.proof.nodes[0].message == digest
                  && !CarriesBitcoin(ots.proof) && !CarriesPending(ots.proof))
    ensures var answer := VerifyOts(digest, ots);
            && answer.digest == digest && (answer.validOts <==> ots.Encoded?)
            && (answer.digestMatch <==> ots.Encoded? && ots.proof.nodes[0].message == digest)
            && (answer.bitcoinPresent <==> ots.Encoded? && CarriesBitcoin(ots.proof))
            && answer.ots == None && answer.info == None
  {
    if ots.Encoded? {
      CarriedIsListed(ots.proof);
    }
  }

  lemma CarriedIsListed(proof: Proof)
    ensures ShowsBitcoin(Listed(proof)) <==> CarriesBitcoin(proof)
    ensures ShowsPending(Listed(proof)) <==> CarriesPending(proof)
  {
    forall a: Attestation
      ensures a in Listed(proof) <==> exists i :: 0 <= i < |proof.nodes| && a in proof.nodes[i].attestations
    {
      ListedMembers(proof.nodes, a);
    }
  }

  // ---- what a client may rely on ----

  /** The walked proof is about the same file and is pending or attested. */
  lemma WalkedStatus(digest: Message, t: Proof, u: Proof, log: seq<Query>, script: nat -> Turn, tally: Tally)
    requires Ended(t, u, log, script, tally) && StatusOf(digest, t) == Pending
    ensures FileDigest(u) == FileDigest(t) == digest && Listed(t) <= Listed(u)
    ensures StatusOf(digest, u) == if ShowsBitcoin(Listed(u)) then BitcoinAttestationPresent else Pending
  {
    MergeAllGrows(t, log, script);
    GrownListsMore(t, u);
    ListShowsTree(u);
    var a :| a in Listed(t) && a.PendingAt?;
    assert a in Listed(u);
  }

  /** `verified` is null exactly for the attested status, the attested status is given
      exactly when the answer shows a Bitcoin attestation on the client's digest, and a
      pending or unavailable answer shows none. */
  lemma StatusNeverContradictsTheAttestations(digest: Message, ots: Bytes, script: nat -> Turn,
                                              answer: ProofAnswer, work: Work)
    requires Upgrades(digest, ots, script, answer, work)
    ensures answer.verified == None <==> answer.status == BitcoinAttestationPresent
    ensures answer.status == BitcoinAttestationPresent <==> answer.digestMatch && answer.bitcoinPresent
    ensures answer.bitcoinPresent <==> ShowsBitcoin(answer.attestations)
    ensures answer.status in {Pending, CalendarUnavailable} ==> answer.digestMatch && !answer.bitcoinPresent
  {
    if work.Walked? {
      WalkedStatus(digest, ots.proof, work.upgraded, work.log, script, work.tally);
    }
  }

  /** Verifying the file /upgrade gave back confirms what /upgrade said of it; the
      attestations it listed are the file's, or more for a file given back unchanged. */
  lemma VerifyAgreesWithUpgrade(digest: Message, ots: Bytes, script: nat -> Turn, answer: ProofAnswer, work: Work)
    requires Upgrades(digest, ots, script, answer, work)
    ensures answer.ots == None <==> answer.status == Invalid
    ensures answer.ots.Some? ==>
              var read := VerifyOts(digest, answer.ots.value);
              && read.status == (if answer.status == CalendarUnavailable then Pending else answer.status)
              && read.proofDigest == answer.proofDigest && read.bitcoinPresent == answer.bitcoinPresent
              && read.attestations <= answer.attestations
              && (work.Untouched? || answer.status == BitcoinAttestationPresent ==>
                    read.attestations == answer.attestations)
  {
    if work.Walked? {
      WalkedStatus(digest, ots.proof, work.upgraded, work.log, script, work.tally);
    }
  }

  /** Upgrading only grows a proof: what it is about stays, what it had stays where it
      was, and anything short of a Bitcoin attestation gives the client's own bytes
      back. */
  lemma UpgradeOnlyGrows(digest: Message, ots: Bytes, script: nat -> Turn, answer: ProofAnswer, work: Work)
    requires Upgrades(digest, ots, script, answer, work) && ots.Encoded?
    ensures answer.proofDigest == Some(FileDigest(ots.proof))
    ensures Listed(ots.proof) <= answer.attestations
    ensures answer.ots.Some? && answer.ots.value.Encoded?
    ensures answer.ots.value == ots || Grown(ots.proof, answer.ots.value.proof)
    ensures answer.status != BitcoinAttestationPresent ==> answer.ots == Some(ots)
  {
    if work.Walked? {
      MergeAllGrows(ots.proof, work.log, script);
      GrownListsMore(ots.proof, work.upgraded);
    }
  }

  /** A file about this digest comes back attested if and only if it was attested, or
      was pending and an answer merged brought a Bitcoin attestation. */
  lemma AttestedIffSomeoneAttested(digest: Message, ots: Bytes, script: nat -> Turn, answer: ProofAnswer, work: Work)
    requires Upgrades(digest, ots, script, answer, work)
    ensures answer.status == BitcoinAttestationPresent <==>
              && ots.Encoded? && FileDigest(ots.proof) == digest
              && (ShowsBitcoin(Listed(ots.proof))
                  || (work.Walked? && exists i :: 0 <= i < |work.log| && BroughtBitcoin(work.log[i], script(i))))
  {
    if work.Walked? {
      ListShowsTree(ots.proof);
      ListShowsTree(work.upgraded);
      AnchoredIffBitcoin(ots.proof, work.upgraded, work.log, script, work.tally);
    }
  }

  /** The calendar is said to be unavailable if and only if it was asked and no lookup
      brought an answer; and never when an answer was found. */
  lemma UnavailableIffNothingAnswered(digest: Message, ots: Bytes, script: nat -> Turn, answer: ProofAnswer, work: Work)
    requires Upgrades(digest, ots, script, answer, work)
    ensures answer.status == CalendarUnavailable <==>
              work.Walked? && work.log != [] && forall i | 0 <= i < |work.log| :: Unanswered(work.log[i], script(i))
  {
    if work.Walked? {
      UnansweredExactly(ots.proof, work.upgraded, work.log, script, work.tally);
    }
  }

  lemma UnansweredExactly(t: Proof, u: Tree, log: seq<Query>, script: nat -> Turn, tally: Tally)
    requires Ended(t, u, log, script, tally)
    ensures forall i | 0 <= i < |log| :: log[i].outcome in {FailedLookup, Abandoned} <==> Unanswered(log[i], script(i))
  {
    forall i | 0 <= i < |log| ensures log[i].outcome in {FailedLookup, Abandoned} <==> Unanswered(log[i], script(i)) {
      OutcomesLoggedExactly(t, log, script, i);
    }
  }

  /** No complete answer arrived in time, or the lookup raised. */
  predicate Unanswered(q: Query, turn: Turn) {
    !ArrivesInTime(turn, Left(q)) || turn.reply.Error?
  }

  /** What /upgrade says of its own work: nothing of a file it did not take up; else how
      many queries it made, at most eight, and the budget as exhausted exactly if,
      short of a Bitcoin attestation, the last worker was abandoned or a pending
      commitment was left unasked. */
  lemma UpgradeInfoExactly(digest: Message, ots: Bytes, script: nat -> Turn, answer: ProofAnswer, work: Work)
    requires Upgrades(digest, ots, script, answer, work)
    ensures answer.info == None <==> work.Untouched?
    ensures work.Walked? ==>
              && answer.info.value.calendarQueries == |work.log| <= 8
              && (answer.info.value.budgetExhausted <==>
                    && answer.status != BitcoinAttestationPresent
                    && (LastOutcome(work.log) == Some(Abandoned) || !Covered(work.upgraded, work.log)))
  {
    if work.Walked? {
      QueriesAreDistinct(ots.proof, work.log, script);
      WalkFacts(ots.proof, work.upgraded, work.log, script, work.tally);
    }
  }

  /** An upgraded file is final: upgrading it again asks nothing and gives it back. */
  lemma UpgradeIsIdempotent(digest: Message, ots: Bytes, script: nat -> Turn, answer: ProofAnswer, work: Work,
                            script': nat -> Turn, answer': ProofAnswer, work': Work)
    requires Upgrades(digest, ots, script, answer, work) && answer.status == BitcoinAttestationPresent
    requires Upgrades(digest, answer.ots.value, script', answer', work')
    ensures work' == Untouched && answer' == answer.(info := None)
  {
    if work.Walked? {
      WalkedStatus(digest, ots.proof, work.upgraded, work.log, script, work.tally);
    }
    var file := answer.ots.value;
    assert file.Encoded? && VerifyOts(digest, file).status == BitcoinAttestationPresent;
    assert work'.Untouched?;
    assert answer' == VerifyOts(digest, file).(ots := Some(file));
  }
}