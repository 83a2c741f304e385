/** The per-peer token buckets behind the rate-limited routes: lazy refill with a
    cap, in one insertion-ordered table with first-in first-out eviction. Time
    and tokens are reals; `n` is the per-minute allowance (capacity and refill). */
module RateLimit {
  import opened OrderedDict
  import opened Reals
  import opened Wrappers

  const RATE_BUCKETS_MAX: nat := 10_000

  type Peer = string

  datatype Bucket = Bucket(tokens: real, lastRefill: real)

  type Buckets = Dict<Peer, Bucket>

  function Min(a: real, b: real): real { if a <= b then a else b }

  function Ceil(x: real): int { -((-x).Floor) }

  /** The tokens a bucket is worth at `now`: linear accrual up to the cap. */
  function Available(b: Bucket, now: real, n: nat): real {
    Min(n as real, b.tokens + Accrued(now - b.lastRefill, n))
  }

  function Accrued(seconds: real, n: nat): real { seconds * n as real / 60.0 }

  /** A peer without a bucket is worth a full one. */
  function Worth(d: Buckets, p: Peer, now: real, n: nat): real {
    if p in d.values then Available(d.values[p], now, n) else n as real
  }

  class RateBuckets {
    var buckets: Buckets
    const max: nat := RATE_BUCKETS_MAX

    ghost predicate Valid()
      reads this
    {
      buckets.Valid() && |buckets.keys| <= max
    }

    constructor ()
      ensures Valid() && buckets == Empty()
    {
      buckets := Empty();
    }

    /** Takes one token from `ip`'s bucket at clock reading `now`, or answers how
        many whole seconds until one accrues. */
    method RetryAfter(ip: Peer, perMinute: int, now: real) returns (retryAfter: Option<int>)
      requires Valid()
      modifies this`buckets
      ensures Valid()
      ensures perMinute <= 0 ==> retryAfter == None && buckets == old(buckets)
      ensures perMinute > 0 ==>
                && retryAfter == Decision(old(buckets), Call(ip, now), perMinute)
                && buckets == Next(old(buckets), Call(ip, now), perMinute, max)
    {
      if perMinute <= 0 {
        return None;
      }
      var bucket := if ip in buckets.values then buckets.values[ip] else Bucket(perMinute as real, now);
      var tokens := Min(perMinute as real, bucket.tokens + (now - bucket.lastRefill) * perMinute as real / 60.0);
      assert tokens == Worth(buckets, ip, now, perMinute);
      if tokens >= 1.0 {
        tokens := tokens - 1.0;
        retryAfter := None;
      } else {
        retryAfter := Some(Ceil((1.0 - tokens) * 60.0 / perMinute as real));
      }
      assert Bucket(tokens, now) == Charged(buckets, Call(ip, now), perMinute);
      buckets := FifoInsert(buckets, max, ip, Bucket(tokens, now));
    }
  }

  // ---- one call, and runs of calls ----

  datatype Call = Call(peer: Peer, now: real)

  function Decision(d: Buckets, c: Call, n: nat): Option<int>
    requires n >= 1
  {
    var tokens := Worth(d, c.peer, c.now, n);
    if tokens >= 1.0 then None else Some(Ceil((1.0 - tokens) * 60.0 / n as real))
  }

  /** What `c.peer`'s bucket becomes. */
  function Charged(d: Buckets, c: Call, n: nat): Bucket {
    var tokens := Worth(d, c.peer, c.now, n);
    Bucket(if tokens >= 1.0 then tokens - 1.0 else tokens, c.now)
  }

  function Next(d: Buckets, c: Call, n: nat, max: nat): Buckets
    requires n >= 1 && max >= 1
  {
    d.FifoPut(max, c.peer, Charged(d, c, n))
  }

  /** What a call shows: its answer, and which peer's bucket it evicted. */
  datatype Outcome = Outcome(retryAfter: Option<int>, evicted: Option<Peer>)

  function OutcomeOf(d: Buckets, c: Call, n: nat, max: nat): Outcome
    requires n >= 1 && max >= 1
  {
    Outcome(Decision(d, c, n), d.Victim(max, c.peer))
  }

  function Outcomes(d: Buckets, calls: seq<Call>, n: nat, max: nat): (outs: seq<Outcome>)
    requires n >= 1 && max >= 1
    ensures |outs| == |calls|
    decreases |calls|
  {
    if calls == [] then []
    else [OutcomeOf(d, calls[0], n, max)] + Outcomes(Next(d, calls[0], n, max), calls[1..], n, max)
  }

  function Final(d: Buckets, calls: seq<Call>, n: nat, max: nat): Buckets
    requires n >= 1 && max >= 1
    decreases |calls|
  {
    if calls == [] then d else Final(Next(d, calls[0], n, max), calls[1..], n, max)
  }

  /** The clock is monotone: no call precedes `start` or an earlier call. */
  ghost predicate InOrder(calls: seq<Call>, start: real) {
    calls != [] ==> start <= calls[0].now && InOrder(calls[1..], calls[0].now)
  }

  function EndTime(calls: seq<Call>, start: real): real {
    if calls == [] then start else EndTime(calls[1..], calls[0].now)
  }

  /** A table the code can reach by time `t`: token counts within [0, n], no bucket
      from the future. */
  ghost predicate Sane(d: Buckets, t: real, n: nat, max: nat) {
    && d.Valid() && |d.keys| <= max
    && forall p | p in d.values :: SaneBucket(d.values[p], t, n)
  }

  ghost predicate SaneBucket(b: Bucket, t: real, n: nat) {
    0.0 <= b.tokens <= n as real && b.lastRefill <= t
  }

  // ---- arithmetic of refilling ----

  lemma AccruedAdds(a: real, b: real, n: nat)
    ensures Accrued(a + b, n) == Accrued(a, n) + Accrued(b, n)
  {
  }

  lemma AccruedNonNegative(a: real, n: nat)
    requires a >= 0.0
    ensures Accrued(a, n) >= 0.0
  {
  }

  /** Refilling in two steps is refilling once, cap included. */
  lemma {:induction false} RefillComposes(b: Bucket, now: real, later: real, n: nat)
    requires b.lastRefill <= now <= later
    ensures Available(Bucket(Available(b, now, n), now), later, n) == Available(b, later, n)
  {
  }

  lemma {:induction false} WorthBounds(d: Buckets, p: Peer, t: real, n: nat, max: nat)
    requires Sane(d, t, n, max)
    ensures 0.0 <= Worth(d, p, t, n) <= n as real
  {
    if p in d.values {
      AccruedNonNegative(t - d.values[p].lastRefill, n);
    }
  }

  lemma NextIsSane(d: Buckets, c: Call, t: real, n: nat, max: nat)
    requires n >= 1 && max >= 1 && Sane(d, t, n, max) && t <= c.now
    ensures Sane(Next(d, c, n, max), c.now, n, max)
  {
    LaterIsSane(d, t, c.now, n, max);
    WorthBounds(d, c.peer, c.now, n, max);
    FifoPutEffect(d, max, c.peer, Charged(d, c, n));
  }

  lemma {:induction false} LaterIsSane(d: Buckets, t: real, later: real, n: nat, max: nat)
    requires Sane(d, t, n, max) && t <= later
    ensures Sane(d, later, n, max)
  {
  }

  // ---- erasure of denied calls ----

  /** Two tables no later call can tell apart: same keys in the same order, and
      from `t` on every peer is worth the same in both. */
  ghost predicate Indistinguishable(d: Buckets, e: Buckets, t: real, n: nat) {
    && d.keys == e.keys && d.values.Keys == e.values.Keys
    && forall p, later | t <= later :: Worth(d, p, later, n) == Worth(e, p, later, n)
  }

  /** A denied call finds its peer's bucket in the table, so it inserts nothing and
      evicts nothing, and the bucket it writes back is worth what it was. */
  lemma {:induction false} DeniedCallIsInvisible(d: Buckets, c: Call, t: real, n: nat, max: nat)
    requires n >= 1 && max >= 1 && Sane(d, t, n, max) && t <= c.now
    requires Decision(d, c, n).Some?
    ensures d.Victim(max, c.peer) == None
    ensures Indistinguishable(Next(d, c, n, max), d, c.now, n)
  {
    var e := Next(d, c, n, max);
    assert c.peer in d.values;
    forall p, later | c.now <= later ensures Worth(e, p, later, n) == Worth(d, p, later, n) {
      if p == c.peer {
        assert SaneBucket(d.values[p], t, n);
        RefillComposes(d.values[p], c.now, later, n);
      }
    }
  }

  /** What one call does to every peer's worth. */
  lemma {:induction false} WorthAfter(d: Buckets, c: Call, p: Peer, later: real, n: nat, max: nat)
    requires n >= 1 && max >= 1 && d.Valid() && |d.keys| <= max
    ensures Worth(Next(d, c, n, max), p, later, n)
         == if p == c.peer then Available(Charged(d, c, n), later, n)
            else if d.Victim(max, c.peer) == Some(p) then n as real
            else Worth(d, p, later, n)
  {
  }

  lemma {:induction false} SameKeysAfter(d: Buckets, e: Buckets, k: Peer, b: Bucket, b': Bucket, max: nat)
    requires max >= 1 && d.keys == e.keys && d.values.Keys == e.values.Keys
    ensures d.Victim(max, k) == e.Victim(max, k)
    ensures d.FifoPut(max, k, b).keys == e.FifoPut(max, k, b').keys
    ensures d.FifoPut(max, k, b).values.Keys == e.FifoPut(max, k, b').values.Keys
  {
  }

  /** Two tables no later call can tell apart answer a call alike, evict alike,
      and stay indistinguishable. */
  lemma SameCallSameEffect(d: Buckets, e: Buckets, c: Call, t: real, n: nat, max: nat)
    requires n >= 1 && max >= 1 && Sane(d, t, n, max) && Sane(e, t, n, max) && t <= c.now
    requires Indistinguishable(d, e, t, n)
    ensures OutcomeOf(d, c, n, max) == OutcomeOf(e, c, n, max)
    ensures Indistinguishable(Next(d, c, n, max), Next(e, c, n, max), c.now, n)
  {
    assert Worth(d, c.peer, c.now, n) == Worth(e, c.peer, c.now, n);
    SameKeysAfter(d, e, c.peer, Charged(d, c, n), Charged(e, c, n), max);
    forall p, later | c.now <= later
      ensures Worth(Next(d, c, n, max), p, later, n) == Worth(Next(e, c, n, max), p, later, n)
    {
      WorthAfter(d, c, p, later, n, max);
      WorthAfter(e, c, p, later, n, max);
      assert Worth(d, p, later, n) == Worth(e, p, later, n);
    }
  }

  /** The calls left when those marked in `drop` are taken out; and, with the same
      marks, the outcomes left. */
  function Kept<T>(xs: seq<T>, drop: seq<bool>): seq<T>
    requires |drop| == |xs|
  {
    if xs == [] then [] else (if drop[0] then [] else [xs[0]]) + Kept(xs[1..], drop[1..])
  }

  /** Every call marked in `drop` is one the run denies. */
  ghost predicate OnlyDenied(d: Buckets, calls: seq<Call>, drop: seq<bool>, n: nat, max: nat)
    requires n >= 1 && max >= 1 && |drop| == |calls|
    decreases |calls|
  {
    calls != [] ==>
      && (drop[0] ==> Decision(d, calls[0], n).Some?)
      && OnlyDenied(Next(d, calls[0], n, max), calls[1..], drop[1..], n, max)
  }

  /** Deleting any denied calls from a run over any number of peers ends in a
      table that no later call can tell from the original one: same keys in the
      same order, every peer worth the same at every later time. */
  lemma {:induction false} ErasureKeepsTable(d: Buckets, e: Buckets, calls: seq<Call>, drop: seq<bool>, t: real,
                                             n: nat, max: nat)
    requires n >= 1 && max >= 1 && Sane(d, t, n, max) && Sane(e, t, n, max)
    requires Indistinguishable(d, e, t, n) && InOrder(calls, t) && |drop| == |calls|
    requires OnlyDenied(d, calls, drop, n, max)
    ensures Indistinguishable(Final(d, calls, n, max), Final(e, Kept(calls, drop), n, max), EndTime(calls, t), n)
    decreases |calls|
  {
    if calls != [] {
      var e' := ErasureStep(d, e, calls[0], drop[0], t, n, max);
      ErasureKeepsTable(Next(d, calls[0], n, max), e', calls[1..], drop[1..], calls[0].now, n, max);
      KeptStep(calls, drop);
    }
  }

  /** ... and leaves every other decision and every eviction as they were. */
  lemma {:induction false} ErasureKeepsOutcomes(d: Buckets, e: Buckets, calls: seq<Call>, drop: seq<bool>, t: real,
                                                n: nat, max: nat)
    requires n >= 1 && max >= 1 && Sane(d, t, n, max) && Sane(e, t, n, max)
    requires Indistinguishable(d, e, t, n) && InOrder(calls, t) && |drop| == |calls|
    requires OnlyDenied(d, calls, drop, n, max)
    ensures Outcomes(e, Kept(calls, drop), n, max) == Kept(Outcomes(d, calls, n, max), drop)
    decreases |calls|
  {
    if calls != [] {
      var e' := ErasureStep(d, e, calls[0], drop[0], t, n, max);
      ErasureKeepsOutcomes(Next(d, calls[0], n, max), e', calls[1..], drop[1..], calls[0].now, n, max);
      KeptStep(calls, drop);
      KeptStep(Outcomes(d, calls, n, max), drop);
    }
  }

  lemma KeptStep<T>(xs: seq<T>, drop: seq<bool>)
    requires |drop| == |xs| > 0
    ensures drop[0] ==> Kept(xs, drop) == Kept(xs[1..], drop[1..])
    ensures !drop[0] ==> Kept(xs, drop) != [] && Kept(xs, drop)[0] == xs[0]
                         && Kept(xs, drop)[1..] == Kept(xs[1..], drop[1..])
  {
  }

  /** One step of the two runs: the shorter run stands still on a dropped call and
      otherwise answers and evicts as the longer one does. */
  lemma ErasureStep(d: Buckets, e: Buckets, c: Call, dropped: bool, t: real, n: nat, max: nat) returns (e': Buckets)
    requires n >= 1 && max >= 1 && Sane(d, t, n, max) && Sane(e, t, n, max) && t <= c.now
    requires Indistinguishable(d, e, t, n) && (dropped ==> Decision(d, c, n).Some?)
    ensures e' == if dropped then e else Next(e, c, n, max)
    ensures Sane(Next(d, c, n, max), c.now, n, max) && Sane(e', c.now, n, max)
    ensures Indistinguishable(Next(d, c, n, max), e', c.now, n)
    ensures OutcomeOf(d, c, n, max) == OutcomeOf(e, c, n, max)
  {
    NextIsSane(d, c, t, n, max);
    SameCallSameEffect(d, e, c, t, n, max);
    if dropped {
      e' := e;
      LaterIsSane(e, t, c.now, n, max);
      DeniedCallIsInvisible(d, c, t, n, max);
      StaysIndistinguishable(Next(d, c, n, max), d, e, t, c.now, n);
    } else {
      e' := Next(e, c, n, max);
      NextIsSane(e, c, t, n, max);
    }
  }

  lemma {:induction false} StaysIndistinguishable(d': Buckets, d: Buckets, e: Buckets, t: real, now: real, n: nat)
    requires t <= now && Indistinguishable(d', d, now, n) && Indistinguishable(d, e, t, n)
    ensures Indistinguishable(d', e, now, n)
  {
  }

  // ---- admission bound ----

  function Admitted(calls: seq<Call>, outs: seq<Outcome>, p: Peer): nat
    requires |calls| == |outs|
  {
    if calls == [] then 0
    else (if calls[0].peer == p && outs[0].retryAfter == None then 1 else 0) + Admitted(calls[1..], outs[1..], p)
  }

  function Evictions(outs: seq<Outcome>, p: Peer): nat {
    if outs == [] then 0 else (if outs[0].evicted == Some(p) then 1 else 0) + Evictions(outs[1..], p)
  }

  /** Worth accrues at most at the refill rate between two instants. */
  lemma {:induction false} WorthLater(d: Buckets, p: Peer, t: real, later: real, n: nat, max: nat)
    requires Sane(d, t, n, max) && t <= later
    ensures Worth(d, p, later, n) <= Worth(d, p, t, n) + Accrued(later - t, n)
  {
  }

  /** Tokens are conserved: what one call admits is paid for from the peer's worth,
      which grows only by accrual and by an eviction's fresh bucket. */
  lemma ChargeIsConserved(d: Buckets, c: Call, p: Peer, t: real, n: nat, max: nat)
    requires n >= 1 && max >= 1 && Sane(d, t, n, max) && t <= c.now
    ensures var out := OutcomeOf(d, c, n, max);
            Worth(Next(d, c, n, max), p, c.now, n) + (if c.peer == p && out.retryAfter == None then 1.0 else 0.0)
            <= Worth(d, p, t, n) + Accrued(c.now - t, n) + (if out.evicted == Some(p) then n as real else 0.0)
  {
    WorthLater(d, p, t, c.now, n, max);
    WorthBounds(d, p, t, n, max);
    AccruedNonNegative(c.now - t, n);
    WorthAfter(d, c, p, c.now, n, max);
    assert Accrued(c.now - c.now, n) == 0.0;
  }

  lemma {:induction false} FinalIsSane(d: Buckets, calls: seq<Call>, t: real, n: nat, max: nat)
    requires n >= 1 && max >= 1 && Sane(d, t, n, max) && InOrder(calls, t)
    ensures Sane(Final(d, calls, n, max), EndTime(calls, t), n, max)
    decreases |calls|
  {
    if calls != [] {
      NextIsSane(d, calls[0], t, n, max);
      FinalIsSane(Next(d, calls[0], n, max), calls[1..], calls[0].now, n, max);
    }
  }

  /** Worth left plus calls admitted, against worth, accrual and evictions. */
  ghost predicate Balanced(d: Buckets, calls: seq<Call>, p: Peer, t: real, n: nat, max: nat)
    requires n >= 1 && max >= 1
  {
    var outs := Outcomes(d, calls, n, max);
    Worth(Final(d, calls, n, max), p, EndTime(calls, t), n) + Admitted(calls, outs, p) as real
    <= Worth(d, p, t, n) + Accrued(EndTime(calls, t) - t, n) + (Evictions(outs, p) * n) as real
  }

  lemma {:induction false} AdmissionLedger(d: Buckets, calls: seq<Call>, p: Peer, t: real, n: nat, max: nat)
    requires n >= 1 && max >= 1 && Sane(d, t, n, max) && InOrder(calls, t)
    ensures var outs := Outcomes(d, calls, n, max);
            Worth(Final(d, calls, n, max), p, EndTime(calls, t), n) + Admitted(calls, outs, p) as real
            <= Worth(d, p, t, n) + Accrued(EndTime(calls, t) - t, n) + (Evictions(outs, p) * n) as real
    ensures Sane(Final(d, calls, n, max), EndTime(calls, t), n, max)
    decreases |calls|
  {
    FinalIsSane(d, calls, t, n, max);
    if calls != [] {
      NextIsSane(d, calls[0], t, n, max);
      AdmissionLedger(Next(d, calls[0], n, max), calls[1..], p, calls[0].now, n, max);
      BalanceStep(d, calls, p, t, n, max);
    }
  }

  lemma {:induction false} BalanceStep(d: Buckets, calls: seq<Call>, p: Peer, t: real, n: nat, max: nat)
    requires n >= 1 && max >= 1 && Sane(d, t, n, max) && calls != [] && t <= calls[0].now
    requires Balanced(Next(d, calls[0], n, max), calls[1..], p, calls[0].now, n, max)
    ensures Balanced(d, calls, p, t, n, max)
  {
    ChargeIsConserved(d, calls[0], p, t, n, max);
    AccruedAdds(calls[0].now - t, EndTime(calls, t) - calls[0].now, n);
    LedgerSplits(d, calls, p, n, max);
  }

  /** The admissions and evictions of a run are those of its first call and its rest. */
  lemma {:induction false} LedgerSplits(d: Buckets, calls: seq<Call>, p: Peer, n: nat, max: nat)
    requires n >= 1 && max >= 1 && calls != []
    ensures var outs, out := Outcomes(d, calls, n, max), OutcomeOf(d, calls[0], n, max);
            var rest := Outcomes(Next(d, calls[0], n, max), calls[1..], n, max);
            && Admitted(calls, outs, p)
               == (if calls[0].peer == p && out.retryAfter == None then 1 else 0) + Admitted(calls[1..], rest, p)
            && Evictions(outs, p) * n == (if out.evicted == Some(p) then n else 0) + Evictions(rest, p) * n
  {
    var outs := Outcomes(d, calls, n, max);
    assert outs[1..] == Outcomes(Next(d, calls[0], n, max), calls[1..], n, max);
    EvictionsStep(outs, p, n);
  }

  lemma {:induction false} EvictionsStep(outs: seq<Outcome>, p: Peer, n: nat)
    requires outs != []
    ensures Evictions(outs, p) * n == (if outs[0].evicted == Some(p) then n else 0) + Evictions(outs[1..], p) * n
  {
    var evicted := outs[0].evicted == Some(p);
    Distribute(if evicted then 1 else 0, Evictions(outs[1..], p), n);
  }

  lemma Distribute(a: nat, b: nat, n: nat)
    ensures (a + b) * n == a * n + b * n
  {
  }

  /** In a run of any calls by any peers, a peer evicted e times over T seconds is
      admitted at most (1 + e) n + T n / 60 times. */
  lemma AdmissionBound(d: Buckets, calls: seq<Call>, p: Peer, t: real, n: nat, max: nat)
    requires n >= 1 && max >= 1 && Sane(d, t, n, max) && InOrder(calls, t)
    ensures var outs := Outcomes(d, calls, n, max);
            Admitted(calls, outs, p) as real
            <= ((1 + Evictions(outs, p)) * n) as real + (EndTime(calls, t) - t) * n as real / 60.0
  {
    AdmissionLedger(d, calls, p, t, n, max);
    WorthBounds(d, p, t, n, max);
    WorthBounds(Final(d, calls, n, max), p, EndTime(calls, t), n, max);
    var e := Evictions(Outcomes(d, calls, n, max), p);
    assert (1 + e) * n == n + e * n;
  }

  // ---- what a bucket is good for ----

  /** An admitted call costs its peer exactly one token, a denied one nothing. */
  lemma AdmissionCostsOne(d: Buckets, c: Call, t: real, n: nat, max: nat)
    requires n >= 1 && max >= 1 && Sane(d, t, n, max) && t <= c.now
    ensures Worth(Next(d, c, n, max), c.peer, c.now, n)
         == Worth(d, c.peer, c.now, n) - if Decision(d, c, n) == None then 1.0 else 0.0
  {
    WorthAfter(d, c, c.peer, c.now, n, max);
    LaterIsSane(d, t, c.now, n, max);
    WorthBounds(d, c.peer, c.now, n, max);
    WorthAtOnce(Charged(d, c, n), n);
  }

  lemma {:induction false} WorthAtOnce(b: Bucket, n: nat)
    ensures Available(b, b.lastRefill, n) == Min(n as real, b.tokens)
  {
    var none := b.lastRefill - b.lastRefill;
    assert none == 0.0;
    assert Accrued(0.0, n) == 0.0;
  }

  lemma {:induction false} WorthGrows(d: Buckets, p: Peer, t: real, later: real, n: nat)
    requires t <= later
    ensures Worth(d, p, t, n) <= Worth(d, p, later, n) <= n as real
  {
    if p in d.values {
      AccruedAdds(t - d.values[p].lastRefill, later - t, n);
      AccruedNonNegative(later - t, n);
      assert (t - d.values[p].lastRefill) + (later - t) == later - d.values[p].lastRefill;
    }
  }

  /** A peer's worth falls by its own admitted calls only: time and evictions never
      lower it. */
  lemma {:induction false} WorthHolds(d: Buckets, c: Call, p: Peer, t: real, n: nat, max: nat)
    requires n >= 1 && max >= 1 && Sane(d, t, n, max) && t <= c.now
    ensures Worth(Next(d, c, n, max), p, c.now, n)
         >= Worth(d, p, t, n) - if c.peer == p && Decision(d, c, n) == None then 1.0 else 0.0
  {
    WorthGrows(d, p, t, c.now, n);
    if c.peer == p {
      AdmissionCostsOne(d, c, t, n, max);
    } else {
      WorthAfter(d, c, p, c.now, n, max);
    }
  }

  function CallsOf(calls: seq<Call>, p: Peer): nat {
    if calls == [] then 0 else (if calls[0].peer == p then 1 else 0) + CallsOf(calls[1..], p)
  }

  /** A peer worth `k` tokens has its next `k` calls admitted, whenever they come,
      whatever the others do, evicted meanwhile or not. */
  lemma {:induction false} TokensAreGood(d: Buckets, calls: seq<Call>, p: Peer, t: real, k: nat,
                                         n: nat, max: nat, i: nat)
    requires n >= 1 && max >= 1 && Sane(d, t, n, max) && InOrder(calls, t) && Worth(d, p, t, n) >= k as real
    requires i < |calls| && calls[i].peer == p && CallsOf(calls[..i], p) < k
    ensures Outcomes(d, calls, n, max)[i].retryAfter == None
    decreases |calls|
  {
    var c, d' := calls[0], Next(d, calls[0], n, max);
    NextIsSane(d, c, t, n, max);
    WorthGrows(d, p, t, c.now, n);
    WorthHolds(d, c, p, t, n, max);
    TailOutcomes(d, calls, n, max);
    if i > 0 {
      assert calls[..i][0] == c && calls[..i][1..] == calls[1..][..i - 1];
      TokensAreGood(d', calls[1..], p, c.now, if c.peer == p then k - 1 else k, n, max, i - 1);
    }
  }

  /** A peer without a bucket has a minute's worth of calls admitted at once: its first
      `n` calls, however close together. */
  lemma NewPeerHasABurst(d: Buckets, calls: seq<Call>, p: Peer, t: real, n: nat, max: nat, i: nat)
    requires n >= 1 && max >= 1 && Sane(d, t, n, max) && InOrder(calls, t) && p !in d.values
    requires i < |calls| && calls[i].peer == p && CallsOf(calls[..i], p) < n
    ensures Outcomes(d, calls, n, max)[i].retryAfter == None
  {
    TokensAreGood(d, calls, p, t, n, n, max, i);
  }

  /** `p`'s calls lie at least 60/n seconds apart, the first of them also from
      `p`'s last recorded call, whatever the other peers do. */
  ghost predicate Patient(d: Buckets, calls: seq<Call>, p: Peer, n: nat)
    requires n >= 1
  {
    && (forall i, j | 0 <= i < j < |calls| && calls[i].peer == p && calls[j].peer == p ::
          calls[j].now - calls[i].now >= 60.0 / n as real)
    && (p in d.values ==>
          forall j | 0 <= j < |calls| && calls[j].peer == p ::
            calls[j].now - d.values[p].lastRefill >= 60.0 / n as real)
  }

  lemma {:induction false} AccruesOne(seconds: real, n: nat)
    requires n >= 1 && seconds >= 60.0 / n as real
    ensures Accrued(seconds, n) >= 1.0
  {
  }

  lemma {:induction false} PatientPeerIsNeverDenied(d: Buckets, calls: seq<Call>, p: Peer, t: real, n: nat, max: nat)
    requires n >= 1 && max >= 1 && Sane(d, t, n, max) && InOrder(calls, t) && Patient(d, calls, p, n)
    ensures forall i | 0 <= i < |calls| && calls[i].peer == p :: Outcomes(d, calls, n, max)[i].retryAfter == None
    decreases |calls|
  {
    if calls != [] {
      var c, d' := calls[0], Next(d, calls[0], n, max);
      NextIsSane(d, c, t, n, max);
      FifoPutEffect(d, max, c.peer, Charged(d, c, n));
      PatientTail(d, calls, p, n, max);
      PatientPeerIsNeverDenied(d', calls[1..], p, c.now, n, max);
      if c.peer == p && p in d.values {
        AccruesOne(c.now - d.values[p].lastRefill, n);
        assert SaneBucket(d.values[p], t, n);
      }
      var outs := Outcomes(d, calls, n, max);
      assert outs[1..] == Outcomes(d', calls[1..], n, max);
      forall i | 0 <= i < |calls| && calls[i].peer == p ensures outs[i].retryAfter == None {
        if i > 0 {
          assert calls[1..][i - 1] == calls[i] && outs[1..][i - 1] == outs[i];
        }
      }
    }
  }

  lemma {:induction false} PatientTail(d: Buckets, calls: seq<Call>, p: Peer, n: nat, max: nat)
    requires n >= 1 && max >= 1 && d.Valid() && |d.keys| <= max && calls != [] && Patient(d, calls, p, n)
    ensures Patient(Next(d, calls[0], n, max), calls[1..], p, n)
  {
  }

  // ---- Retry-After is exact ----

  /** A bucket worth `tokens` holds a whole token after `seconds` exactly when the
      missing fraction has had the time to accrue. */
  lemma {:induction false} TokenAccruesInTime(tokens: real, seconds: real, n: nat)
    requires n >= 1
    ensures tokens + Accrued(seconds, n) >= 1.0 <==> seconds >= (1.0 - tokens) * 60.0 / n as real
  {
  }

  /** `p` was denied at `since` when worth `tokens`, and has not been admitted
      since: it is worth that plus accrual, or it was evicted and starts afresh. */
  ghost predicate Waiting(d: Buckets, p: Peer, since: real, tokens: real, t: real, n: nat) {
    p in d.values ==>
      forall later | t <= later :: Worth(d, p, later, n) == Min(n as real, tokens + Accrued(later - since, n))
  }

  lemma {:induction false} DeniedPeerWaits(d: Buckets, c: Call, t: real, n: nat, max: nat)
    requires n >= 1 && max >= 1 && Sane(d, t, n, max) && t <= c.now && Decision(d, c, n).Some?
    ensures c.peer in Next(d, c, n, max).values
    ensures Waiting(Next(d, c, n, max), c.peer, c.now, Worth(d, c.peer, c.now, n), c.now, n)
  {
  }

  lemma StillWaiting(d: Buckets, c: Call, p: Peer, since: real, tokens: real, t: real, n: nat, max: nat)
    requires n >= 1 && max >= 1 && Sane(d, t, n, max) && t <= c.now && Waiting(d, p, since, tokens, t, n)
    requires c.peer == p ==> Decision(d, c, n).Some?
    ensures Waiting(Next(d, c, n, max), p, since, tokens, c.now, n)
    ensures p in d.values && d.Victim(max, c.peer) != Some(p) ==> p in Next(d, c, n, max).values
  {
    FifoPutEffect(d, max, c.peer, Charged(d, c, n));
    if c.peer == p {
      DeniedCallIsInvisible(d, c, t, n, max);
    }
    if p in Next(d, c, n, max).values {
      forall later | c.now <= later
        ensures Worth(Next(d, c, n, max), p, later, n) == Min(n as real, tokens + Accrued(later - since, n))
      {
        if c.peer != p {
          WorthAfter(d, c, p, later, n, max);
        }
        assert Worth(d, p, later, n) == Min(n as real, tokens + Accrued(later - since, n));
      }
    }
  }

  /** No call of `p` among the first `k` is admitted. */
  ghost predicate NoneAdmitted(calls: seq<Call>, outs: seq<Outcome>, p: Peer, k: nat)
    requires |calls| == |outs| && k <= |calls|
  {
    forall i | 0 <= i < k && calls[i].peer == p :: outs[i].retryAfter.Some?
  }

  ghost predicate NotEvicted(outs: seq<Outcome>, p: Peer, k: nat)
    requires k <= |outs|
  {
    forall i | 0 <= i < k :: outs[i].evicted != Some(p)
  }

  /** Once the token has accrued, the waiting peer's next call is admitted ... */
  lemma {:induction false} WaitingEnds(d: Buckets, calls: seq<Call>, k: nat, p: Peer, since: real, tokens: real,
                                          t: real, n: nat, max: nat)
    requires n >= 1 && max >= 1 && Sane(d, t, n, max) && InOrder(calls, t) && k < |calls| && calls[k].peer == p
    requires Waiting(d, p, since, tokens, t, n)
    requires NoneAdmitted(calls, Outcomes(d, calls, n, max), p, k)
    requires tokens + Accrued(calls[k].now - since, n) >= 1.0
    ensures Outcomes(d, calls, n, max)[k].retryAfter == None
    decreases |calls|
  {
    TailOutcomes(d, calls, n, max);
    if k > 0 {
      WaitingStep(d, calls, k, p, since, tokens, t, n, max);
      assert calls[1..][k - 1] == calls[k];
      WaitingEnds(Next(d, calls[0], n, max), calls[1..], k - 1, p, since, tokens, calls[0].now, n, max);
    }
  }

  /** ... and until then it is denied, unless its bucket was evicted meanwhile. */
  lemma {:induction false} WaitingLasts(d: Buckets, calls: seq<Call>, k: nat, p: Peer, since: real, tokens: real,
                                          t: real, n: nat, max: nat)
    requires n >= 1 && max >= 1 && Sane(d, t, n, max) && InOrder(calls, t) && k < |calls| && calls[k].peer == p
    requires Waiting(d, p, since, tokens, t, n)
    requires NoneAdmitted(calls, Outcomes(d, calls, n, max), p, k)
    requires tokens + Accrued(calls[k].now - since, n) < 1.0 && p in d.values
    requires NotEvicted(Outcomes(d, calls, n, max), p, k)
    ensures Outcomes(d, calls, n, max)[k].retryAfter.Some?
    decreases |calls|
  {
    TailOutcomes(d, calls, n, max);
    if k > 0 {
      WaitingStep(d, calls, k, p, since, tokens, t, n, max);
      assert calls[1..][k - 1] == calls[k];
      WaitingLasts(Next(d, calls[0], n, max), calls[1..], k - 1, p, since, tokens, calls[0].now, n, max);
    }
  }

  lemma TailOutcomes(d: Buckets, calls: seq<Call>, n: nat, max: nat)
    requires n >= 1 && max >= 1 && calls != []
    ensures var outs, tail := Outcomes(d, calls, n, max), Outcomes(Next(d, calls[0], n, max), calls[1..], n, max);
            outs[0] == OutcomeOf(d, calls[0], n, max) && forall i | 0 <= i < |calls| - 1 :: tail[i] == outs[i + 1]
  {
    var tail := Outcomes(Next(d, calls[0], n, max), calls[1..], n, max);
    assert Outcomes(d, calls, n, max) == [OutcomeOf(d, calls[0], n, max)] + tail;
  }

  lemma {:induction false} WaitingStep(d: Buckets, calls: seq<Call>, k: nat, p: Peer, since: real, tokens: real,
                                       t: real, n: nat, max: nat)
    requires n >= 1 && max >= 1 && Sane(d, t, n, max) && InOrder(calls, t) && 0 < k < |calls|
    requires Waiting(d, p, since, tokens, t, n)
    requires NoneAdmitted(calls, Outcomes(d, calls, n, max), p, k)
    ensures var d' := Next(d, calls[0], n, max);
            && Sane(d', calls[0].now, n, max) && Waiting(d', p, since, tokens, calls[0].now, n)
            && NoneAdmitted(calls[1..], Outcomes(d', calls[1..], n, max), p, k - 1)
            && (p in d.values && NotEvicted(Outcomes(d, calls, n, max), p, k)
                ==> p in d'.values && NotEvicted(Outcomes(d', calls[1..], n, max), p, k - 1))
  {
    TailOutcomes(d, calls, n, max);
    NextIsSane(d, calls[0], t, n, max);
    StillWaiting(d, calls[0], p, since, tokens, t, n, max);
    TailKeeps(calls, Outcomes(d, calls, n, max), Outcomes(Next(d, calls[0], n, max), calls[1..], n, max), p, k);
  }

  lemma {:induction false} TailKeeps(calls: seq<Call>, outs: seq<Outcome>, tail: seq<Outcome>, p: Peer, k: nat)
    requires 0 < k < |calls| == |outs| && |tail| == |calls| - 1
    requires forall i | 0 <= i < |tail| :: tail[i] == outs[i + 1]
    ensures NoneAdmitted(calls, outs, p, k) ==> NoneAdmitted(calls[1..], tail, p, k - 1)
    ensures NotEvicted(outs, p, k) ==> NotEvicted(tail, p, k - 1) && outs[0].evicted != Some(p)
  {
    assert forall i | 0 <= i < k - 1 :: calls[1..][i] == calls[i + 1];
  }

  /** Waiting `r` seconds accrues the token, waiting one second less does not. */
  lemma RetryAfterIsTight(tokens: real, waited: real, n: nat, r: int)
    requires n >= 1 && 0.0 <= tokens < 1.0 && r == Ceil((1.0 - tokens) * 60.0 / n as real)
    ensures r >= 1
    ensures waited >= r as real ==> tokens + Accrued(waited, n) >= 1.0
    ensures waited <= r as real - 1.0 ==> tokens + Accrued(waited, n) < 1.0
  {
    TokenAccruesInTime(tokens, waited, n);
    TokenAccruesInTime(tokens, 0.0, n);
    var wait := (1.0 - tokens) * 60.0 / n as real;
    assert Accrued(0.0, n) == 0.0;
    assert r as real - 1.0 < wait <= r as real;
  }

  /** After a denial at `t` answering `r`: `p`'s first call at `t + r` or later is
      admitted, even with further denied calls of `p` and any calls of others in
      between; `p`'s calls up to `t + r - 1` are denied unless one was admitted or
      `p`'s bucket was evicted before. */
  lemma {:induction false} RetryAfterIsExact(d: Buckets, denied: Call, r: int, calls: seq<Call>, k: nat,
                                             t: real, n: nat, max: nat)
    requires n >= 1 && max >= 1 && Sane(d, t, n, max) && t <= denied.now && Decision(d, denied, n) == Some(r)
    requires InOrder(calls, denied.now) && k < |calls| && calls[k].peer == denied.peer
    requires NoneAdmitted(calls, Outcomes(Next(d, denied, n, max), calls, n, max), denied.peer, k)
    ensures r >= 1
    ensures calls[k].now >= denied.now + r as real
            ==> Outcomes(Next(d, denied, n, max), calls, n, max)[k].retryAfter == None
    ensures calls[k].now <= denied.now + r as real - 1.0
            && NotEvicted(Outcomes(Next(d, denied, n, max), calls, n, max), denied.peer, k)
            ==> Outcomes(Next(d, denied, n, max), calls, n, max)[k].retryAfter.Some?
  {
    var tokens := Worth(d, denied.peer, denied.now, n);
    LaterIsSane(d, t, denied.now, n, max);
    WorthBounds(d, denied.peer, denied.now, n, max);
    RetryAfterIsTight(tokens, calls[k].now - denied.now, n, r);
    NextIsSane(d, denied, t, n, max);
    DeniedPeerWaits(d, denied, t, n, max);
    if tokens + Accrued(calls[k].now - denied.now, n) >= 1.0 {
      WaitingEnds(Next(d, denied, n, max), calls, k, denied.peer, denied.now, tokens, denied.now, n, max);
    } else if NotEvicted(Outcomes(Next(d, denied, n, max), calls, n, max), denied.peer, k) {
      WaitingLasts(Next(d, denied, n, max), calls, k, denied.peer, denied.now, tokens, denied.now, n, max);
    }
  }
}
