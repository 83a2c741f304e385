/** From challenge to proof: the token of L402 and the paid door together. Neither the
    clock nor the current price is an argument of anything here: repricing and expiry
    strand nobody who has paid. The preimage check beside the token's is left out. */
module Redemption {
  import opened L402
  import opened Obligations
  import opened PaidDoor
  import opened Wrappers

  /** What the door asks of a request before it looks for a proof. */
  ghost predicate Redeems(key: string, s: State, m: Macaroon, digest: string) {
    var r := Verify(key, m, digest);
    r.Ok? && PaymentVerified(s, ClaimOf(r.value, digest))
  }

  function ClaimOf(grant: Grant, digest: string): Claim { Claim(grant.paymentHash, digest, grant.price) }

  /** A challenge the gateway makes: its invoice carries the digest as memo and the
      quoted price as face amount. */
  ghost predicate Invoiced(s: State, c: Challenge) {
    && IsHash(c.paymentHash) && c.price >= 1 && c.expiry >= 0
    && c.paymentHash in s.wallet && s.wallet[c.paymentHash] == Invoice(c.digest, c.price)
  }

  /** The token of an invoiced challenge, whatever was appended to it, redeems exactly
      when it is presented for its digest, every caveat appended is satisfied, and its
      invoice is settled. */
  lemma TokenRedeemsExactly(key: string, s: State, c: Challenge, extra: seq<string>, digest: string)
    requires Invoiced(s, c)
    ensures Redeems(key, s, AttenuatedBy(TokenOf(key, c), extra), digest)
            <==> digest == c.digest && AllSatisfied(extra, digest) && c.paymentHash in s.settled
  {
    GenuineTokenIsWorthItsMint(key, c.digest, c.paymentHash, c.price, c.expiry, extra, digest);
  }

  /** Once a token redeems it always will, through any steps of anyone and any crash. */
  lemma StaysRedeemable(key: string, s: State, m: Macaroon, digest: string, steps: seq<Step>, s': State, max: nat)
    requires max >= 1 && Reachable(s, max) && Path(s, steps, s', max) && Redeems(key, s, m, digest)
    ensures Redeems(key, s', m, digest)
  {
    ReachableInv(s, max);
    RunsOnlyGrow(s, steps, s', max);
    GrowthKeepsClaims(s, s');
  }

  /** What redeems without the key was minted for this digest and paid at its price. */
  lemma RedeemedWasMintedAndPaid(key: string, minted: set<Challenge>, s: State, m: Macaroon, digest: string)
    requires Presentable(key, minted, m.signature)
    ensures Redeems(key, s, m, digest) ==>
              exists c :: c in minted && c.digest == digest && c.price >= 1
                          && PaymentVerified(s, Claim(c.paymentHash, c.digest, c.price))
  {
    if Redeems(key, s, m, digest) {
      AcceptedTokenWasMinted(key, minted, m, digest);
      var c :| c in minted && c.digest == digest && c.price >= 1
               && Verify(key, m, digest).value == Grant(c.paymentHash, c.price);
      assert PaymentVerified(s, Claim(c.paymentHash, c.digest, c.price));
    }
  }

  /** Progress: from any reachable state, if the door is open and the calendar works,
      a new request with a token that redeems can run on to a 200 with a proof of
      its digest, straight from the cache or freshly stamped. */
  lemma RedeemedRequestIsServed(key: string, s: State, m: Macaroon, digest: string, t: ThreadId, max: nat)
      returns (steps: seq<Step>, s': State)
    requires max >= 1 && Reachable(s, max) && !s.paused && t !in s.threads && Redeems(key, s, m, digest)
    ensures Path(s, steps, s', max) && forall i | 0 <= i < |steps| :: steps[i].Thread? && steps[i].t == t
    ensures |s'.served| == |s.served| + 1 && s'.served[|s.served|].claim.digest == digest
    ensures s'.served[|s.served|].proof.digest == digest
  {
    var claim := ClaimOf(Verify(key, m, digest).value, digest);
    if claim.ph in s.cache.values {
      ReachableInv(s, max);
      assert EntrySound(s, claim.ph);
      s' := ServedFromCache(s, t, claim, max);
      steps := CacheSteps(t, claim);
    } else {
      s' := ServedFresh(s, t, claim, 0, max);
      steps := FreshSteps(t, claim, 0);
    }
  }

  function CacheSteps(t: ThreadId, claim: Claim): seq<Step> {
    [Thread(t, Present(claim)), Thread(t, LookUp), Thread(t, CheckCache), Thread(t, Serve)]
  }

  function FreshSteps(t: ThreadId, claim: Claim, entry: nat): seq<Step> { ToTheRow(t, claim) + FromTheRow(t, entry) }

  function ToTheRow(t: ThreadId, claim: Claim): seq<Step> {
    [Thread(t, Present(claim)), Thread(t, LookUp), Thread(t, CheckCache), Thread(t, Record)]
  }

  function FromTheRow(t: ThreadId, entry: nat): seq<Step> {
    [Thread(t, Act.Stamp(StampedAs(entry))), Thread(t, Act.Cache), Thread(t, Mark), Thread(t, Serve)]
  }

  /** A verified claim whose proof is in the cache is answered with that very proof by
      three looks and the 200: no row, no stamp, no cache entry is written. */
  lemma ServedFromCache(s: State, t: ThreadId, claim: Claim, max: nat) returns (s': State)
    requires max >= 1 && !s.paused && t !in s.threads && PaymentVerified(s, claim) && claim.ph in s.cache.values
    ensures Path(s, CacheSteps(t, claim), s', max)
    ensures s' == s.(served := s.served + [Served(claim, s.cache.values[claim.ph], true)])
  {
    var u := Entered(s, t, claim, max);
    s' := Apply(Apply(u, Thread(t, CheckCache), max), Thread(t, Serve), max);
    TwoSteps(u, Thread(t, CheckCache), Thread(t, Serve), max);
    var a, b := [Thread(t, Present(claim)), Thread(t, LookUp)], [Thread(t, CheckCache), Thread(t, Serve)];
    PathJoins(s, a, u, b, s', max);
    assert s'.threads == s.threads;
    assert a + b == CacheSteps(t, claim);
  }

  /** A verified claim not in the cache is recorded, stamped, cached, marked and served,
      one calendar entry for one row: at the end the row is stamped and the cache holds
      the proof served. */
  lemma ServedFresh(s: State, t: ThreadId, claim: Claim, entry: nat, max: nat) returns (s': State)
    requires max >= 1 && !s.paused && t !in s.threads && PaymentVerified(s, claim) && claim.ph !in s.cache.values
    ensures Path(s, FreshSteps(t, claim, entry), s', max)
    ensures s'.served == s.served + [Served(claim, Proof(claim.digest, entry), false)]
    ensures claim.ph in s'.table && s'.table[claim.ph].status == Stamped
    ensures claim.ph in s'.cache.values && s'.cache.values[claim.ph] == Proof(claim.digest, entry)
    ensures s'.threads == s.threads && s'.paused == s.paused
    ensures s'.wallet == s.wallet && s'.settled == s.settled && claim.digest in s'.accepted
  {
    var u := RecordedFirst(s, t, claim, max);
    s' := StampedThenServed(u, t, entry, max);
    PathJoins(s, ToTheRow(t, claim), u, FromTheRow(t, entry), s', max);
    assert s'.threads == s.threads;
  }

  lemma RecordedFirst(s: State, t: ThreadId, claim: Claim, max: nat) returns (u: State)
    requires max >= 1 && !s.paused && t !in s.threads && PaymentVerified(s, claim) && claim.ph !in s.cache.values
    ensures Path(s, ToTheRow(t, claim), u, max) && claim.ph in u.table
    ensures u == s.(threads := s.threads[t := Request(claim, Stamping)], table := u.table, prices := u.prices)
  {
    var a := Entered(s, t, claim, max);
    u := MissedAndRecorded(a, t, max);
    var first, second := [Thread(t, Present(claim)), Thread(t, LookUp)], [Thread(t, CheckCache), Thread(t, Record)];
    PathJoins(s, first, a, second, u, max);
    assert first + second == ToTheRow(t, claim);
    assert u.threads == s.threads[t := Request(claim, Stamping)];
  }

  lemma StampedThenServed(s: State, t: ThreadId, entry: nat, max: nat) returns (u: State)
    requires max >= 1 && At(s, t, Stamping) && s.threads[t].claim.ph in s.table
    ensures var c, proof := s.threads[t].claim, Proof(s.threads[t].claim.digest, entry);
            && Path(s, FromTheRow(t, entry), u, max)
            && c.ph in u.table && u.table[c.ph].status == Stamped
            && c.ph in u.cache.values && u.cache.values[c.ph] == proof
            && u == s.(threads := s.threads - {t}, table := u.table, cache := u.cache,
                       accepted := s.accepted + {c.digest}, served := s.served + [Served(c, proof, false)])
  {
    var a := StampedAndCached(s, t, entry, max);
    u := MarkedAndServed(a, t, max);
    var first := [Thread(t, Act.Stamp(StampedAs(entry))), Thread(t, Act.Cache)];
    var second := [Thread(t, Mark), Thread(t, Serve)];
    PathJoins(s, first, a, second, u, max);
    assert first + second == FromTheRow(t, entry);
    assert u.threads == s.threads - {t};
  }

  /** Presented again, a token gets the same proof back, without another stamp. */
  lemma ReplayGetsTheSameProof(s: State, t: ThreadId, claim: Claim, entry: nat, max: nat) returns (s': State)
    requires max >= 1 && !s.paused && t !in s.threads && PaymentVerified(s, claim) && claim.ph !in s.cache.values
    ensures Path(s, FreshSteps(t, claim, entry) + CacheSteps(t, claim), s', max)
    ensures s'.served == s.served + [Served(claim, Proof(claim.digest, entry), false),
                                     Served(claim, Proof(claim.digest, entry), true)]
  {
    var u := ServedFresh(s, t, claim, entry, max);
    s' := ServedFromCache(u, t, claim, max);
    PathJoins(s, FreshSteps(t, claim, entry), u, CacheSteps(t, claim), s', max);
  }

  /** The whole purchase: a challenge is minted and its invoice made, the invoice is
      settled, and the token brings a 200 with a fresh proof of its digest, the row
      stamped. */
  lemma BuyingAProof(key: string, s: State, c: Challenge, t: ThreadId, entry: nat, max: nat)
      returns (paid: State, s': State)
    requires max >= 1 && Reachable(s, max) && !s.paused && t !in s.threads && c.paymentHash !in s.wallet
    requires IsHash(c.paymentHash) && c.price >= 1 && c.expiry >= 0
    ensures var claim := Claim(c.paymentHash, c.digest, c.price);
            && Path(s, [World(MintInvoice(c.paymentHash, Invoice(c.digest, c.price))),
                        World(Settle(c.paymentHash))], paid, max)
            && Redeems(key, paid, TokenOf(key, c), c.digest)
            && Path(paid, FreshSteps(t, claim, entry), s', max)
            && s'.served == s.served + [Served(claim, Proof(c.digest, entry), false)]
            && c.paymentHash in s'.table && s'.table[c.paymentHash].status == Stamped
  {
    var mint, settle := World(MintInvoice(c.paymentHash, Invoice(c.digest, c.price))), World(Settle(c.paymentHash));
    ReachableInv(s, max);
    assert c.paymentHash !in s.cache.values;
    paid := Apply(Apply(s, mint, max), settle, max);
    TwoSteps(s, mint, settle, max);
    TokenRedeemsExactly(key, paid, c, [], c.digest);
    s' := ServedFresh(paid, t, Claim(c.paymentHash, c.digest, c.price), entry, max);
  }

  /** A claim the wallet does not back ends at the wallet: whatever it finds in the
      cache or the table, it gets nothing and changes nothing. */
  lemma UnpaidGetsNothing(s: State, t: ThreadId, claim: Claim, max: nat)
    requires max >= 1 && !s.paused && t !in s.threads && !PaymentVerified(s, claim)
    ensures var present := Thread(t, Present(claim));
            && Enabled(s, present) && Enabled(Apply(s, present, max), Thread(t, LookUp))
            && Apply(Apply(s, present, max), Thread(t, LookUp), max) == s
  {
    assert (s.threads[t := Request(claim, LookingUp)]) - {t} == s.threads;
  }

  /** Presented, and the payment found good. */
  lemma Entered(s: State, t: ThreadId, claim: Claim, max: nat) returns (u: State)
    requires max >= 1 && !s.paused && t !in s.threads && PaymentVerified(s, claim)
    ensures Path(s, [Thread(t, Present(claim)), Thread(t, LookUp)], u, max)
    ensures u == s.(threads := s.threads[t := Request(claim, CheckingCache)])
  {
    u := Apply(Apply(s, Thread(t, Present(claim)), max), Thread(t, LookUp), max);
    TwoSteps(s, Thread(t, Present(claim)), Thread(t, LookUp), max);
    assert u.threads == s.threads[t := Request(claim, CheckingCache)];
  }

  lemma MissedAndRecorded(s: State, t: ThreadId, max: nat) returns (u: State)
    requires max >= 1 && At(s, t, CheckingCache) && s.threads[t].claim.ph !in s.cache.values
    ensures var c := s.threads[t].claim;
            && Path(s, [Thread(t, CheckCache), Thread(t, Record)], u, max) && c.ph in u.table
            && u == s.(threads := s.threads[t := Request(c, Stamping)], table := u.table, prices := u.prices)
  {
    u := Apply(Apply(s, Thread(t, CheckCache), max), Thread(t, Record), max);
    TwoSteps(s, Thread(t, CheckCache), Thread(t, Record), max);
    assert u.threads == s.threads[t := Request(s.threads[t].claim, Stamping)];
  }

  lemma StampedAndCached(s: State, t: ThreadId, entry: nat, max: nat) returns (u: State)
    requires max >= 1 && At(s, t, Stamping)
    ensures var c, proof := s.threads[t].claim, Proof(s.threads[t].claim.digest, entry);
            && Path(s, [Thread(t, Act.Stamp(StampedAs(entry))), Thread(t, Act.Cache)], u, max)
            && c.ph in u.cache.values && u.cache.values[c.ph] == proof
            && u == s.(threads := s.threads[t := Request(c, Marking(proof))], cache := u.cache,
                       accepted := s.accepted + {c.digest})
  {
    u := Apply(Apply(s, Thread(t, Act.Stamp(StampedAs(entry))), max), Thread(t, Act.Cache), max);
    TwoSteps(s, Thread(t, Act.Stamp(StampedAs(entry))), Thread(t, Act.Cache), max);
    assert u.threads == s.threads[t := Request(s.threads[t].claim, Marking(Proof(s.threads[t].claim.digest, entry)))];
  }

  lemma MarkedAndServed(s: State, t: ThreadId, max: nat) returns (u: State)
    requires max >= 1 && t in s.threads && s.threads[t].place.Marking? && s.threads[t].claim.ph in s.table
    ensures var r := s.threads[t];
            && Path(s, [Thread(t, Mark), Thread(t, Serve)], u, max)
            && r.claim.ph in u.table && u.table[r.claim.ph].status == Stamped
            && u == s.(threads := s.threads - {t}, table := u.table,
                       served := s.served + [Served(r.claim, r.place.proof, false)])
  {
    u := Apply(Apply(s, Thread(t, Mark), max), Thread(t, Serve), max);
    TwoSteps(s, Thread(t, Mark), Thread(t, Serve), max);
    assert u.threads == s.threads - {t};
  }
}
