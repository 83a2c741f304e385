/** The durable obligation table, stamping with retries, and one sweep of the
    background sweeper, in the code's own order of writes: bump, stamp, cache, mark. */
module Obligations {
  import opened OrderedDict
  import ProofCache
  import opened Wrappers

  type Hash = string
  type Digest = string

  datatype RowStatus = NeedsStamp | Stamped

  datatype Row = Row(digest: Digest, status: RowStatus, attempts: nat)

  type Table = map<Hash, Row>

  /** The bytes of a finished proof: what they prove, and the calendar entry they name. */
  datatype Proof = Proof(digest: Digest, entry: nat)

  type Proofs = Dict<Hash, Proof>

  // ---- the three statements on the table ----

  /** INSERT OR IGNORE, keyed on the payment hash. */
  function Recorded(t: Table, ph: Hash, d: Digest): Table {
    if ph in t then t else t[ph := Row(d, NeedsStamp, 0)]
  }

  /** UPDATE ... SET attempts=attempts+1 WHERE payment_hash=? */
  function Bumped(t: Table, ph: Hash): Table {
    if ph in t then t[ph := t[ph].(attempts := t[ph].attempts + 1)] else t
  }

  /** UPDATE ... SET status='stamped' WHERE payment_hash=? */
  function Marked(t: Table, ph: Hash): Table {
    if ph in t then t[ph := t[ph].(status := Stamped)] else t
  }

  function Owed(t: Table): set<Hash> { set ph | ph in t && t[ph].status == NeedsStamp }

  /** What every statement of every run keeps: no row goes, no digest changes, and
      a row only goes from owed to stamped. */
  ghost predicate Advances(t: Table, u: Table) {
    forall ph | ph in t ::
      && ph in u && u[ph].digest == t[ph].digest && t[ph].attempts <= u[ph].attempts
      && (t[ph].status == Stamped ==> u[ph].status == Stamped)
  }

  // ---- stamping ----

  /** One submission to the calendar: an answer about some message, or an error. */
  datatype Reply = Answer(message: Digest, entry: nat) | NoAnswer

  /** The answer merges into the proof of `d` only if it is about `d`. */
  predicate Stamps(r: Reply, d: Digest) { r.Answer? && r.message == d }

  /** Some attempt within the limit succeeds. */
  predicate Succeeds(replies: nat -> Reply, d: Digest, limit: nat) {
    exists k | 0 <= k < limit :: Stamps(replies(k), d)
  }

  predicate FirstStamp(replies: nat -> Reply, d: Digest, k: nat) {
    Stamps(replies(k), d) && forall j | 0 <= j < k :: !Stamps(replies(j), d)
  }

  /** Submits `d` up to `limit` times; the proof comes from the first answer that
      merges. */
  method StampDigest(d: Digest, replies: nat -> Reply, limit: nat) returns (r: Result<Proof, ()>, tries: nat)
    ensures r.Ok? <==> Succeeds(replies, d, limit)
    ensures r.Ok? ==> 1 <= tries <= limit && FirstStamp(replies, d, tries - 1)
                      && r.value == Proof(d, replies(tries - 1).entry)
    ensures r.Ok? ==> replies(tries - 1) == Answer(d, r.value.entry)
    ensures r.Err? ==> forall k, entry | 0 <= k < limit :: replies(k) != Answer(d, entry)
    ensures r.Err? ==> tries == limit
  {
    tries := 0;
    while tries < limit
      invariant tries <= limit && forall k | 0 <= k < tries :: !Stamps(replies(k), d)
    {
      var reply := replies(tries);
      tries := tries + 1;
      if Stamps(reply, d) {
        return Ok(Proof(d, reply.entry)), tries;
      }
    }
    r := Err(());
  }

  // ---- the store and the sweeper ----

  /** A database error that ends the tick: none, or at the bump or the mark of the
      k-th row of the snapshot. */
  datatype Fault = NoFault | AtBump(row: nat) | AtMark(row: nat)

  class Store {
    var table: Table
    var cache: Proofs
    const cacheMax: nat := ProofCache.PROOF_CACHE_MAX
    const maxAttempts: nat

    ghost predicate Valid()
      reads this
    {
      && cache.Valid() && |cache.keys| <= cacheMax
      && CacheSound(table, cache)
    }

    constructor (table: Table, maxAttempts: nat)
      ensures Valid() && this.table == table && cache == Empty() && this.maxAttempts == maxAttempts
    {
      this.table, this.cache, this.maxAttempts := table, Empty(), maxAttempts;
    }

    method RecordObligation(ph: Hash, d: Digest)
      requires Valid()
      modifies this`table
      ensures Valid()
      ensures table == Recorded(old(table), ph, d) && Advances(old(table), table)
      ensures ph !in old(table) ==> table == old(table)[ph := Row(d, NeedsStamp, 0)]
      ensures ph in old(table) ==> table == old(table)
    {
      if ph !in table {
        table := table[ph := Row(d, NeedsStamp, 0)];
      }
    }

    method MarkObligationStamped(ph: Hash)
      requires Valid()
      modifies this`table
      ensures Valid()
      ensures table == Marked(old(table), ph) && Advances(old(table), table)
    {
      if ph in table {
        table := table[ph := table[ph].(status := Stamped)];
      }
    }

    method CachePut(ph: Hash, proof: Proof)
      requires Valid() && ph in table && table[ph].digest == proof.digest
      modifies this`cache
      ensures Valid()
      ensures cache == old(cache).FifoPut(cacheMax, ph, proof)
    {
      cache := FifoInsert(cache, cacheMax, ph, proof);
    }

    /** SELECT ... WHERE status='needs_stamp', in whatever order the database has. */
    method SelectOwed() returns (rows: seq<Hash>)
      ensures Lists(rows, Owed(table))
    {
      rows := [];
      var left := Owed(table);
      while left != {}
        invariant left <= Owed(table) && Lists(rows, Owed(table) - left)
        decreases |left|
      {
        var ph :| ph in left;
        assert Owed(table) - (left - {ph}) == (Owed(table) - left) + {ph};
        rows, left := rows + [ph], left - {ph};
      }
      assert Owed(table) - {} == Owed(table);
    }

    /** One row's turn: bump, stamp, cache, mark, each its own transaction. */
    method SweepRow(ph: Hash, replies: nat -> Reply, markRaises: bool) returns (raised: bool)
      requires Valid() && ph in table
      modifies this
      ensures Valid()
      ensures raised <==> markRaises && Succeeds(replies, old(table)[ph].digest, maxAttempts)
      ensures table == if Succeeds(replies, old(table)[ph].digest, maxAttempts) && !raised
                       then Marked(Bumped(old(table), ph), ph) else Bumped(old(table), ph)
      ensures !Succeeds(replies, old(table)[ph].digest, maxAttempts) ==> cache == old(cache)
      ensures Succeeds(replies, old(table)[ph].digest, maxAttempts) ==>
                exists k | 0 <= k < maxAttempts && FirstStamp(replies, old(table)[ph].digest, k) ::
                  cache == old(cache).FifoPut(cacheMax, ph, Proof(old(table)[ph].digest, replies(k).entry))
    {
      var d := table[ph].digest;
      table := table[ph := table[ph].(attempts := table[ph].attempts + 1)];
      var stamped, tries := StampDigest(d, replies, maxAttempts);
      if stamped.Err? {
        return false;
      }
      assert FirstStamp(replies, d, tries - 1);
      CachePut(ph, stamped.value);
      if markRaises {
        return true;
      }
      MarkObligationStamped(ph);
      raised := false;
    }

    /** One sweep: every owed row is tried once, in turn. With no fault every row of
        the snapshot gains one attempt and is stamped if its stamping succeeded; a
        fault ends the sweep with the rows before it done, the rows after it as they
        were, and the faulting row still owed. */
    method SweepOnce(replies: Hash -> nat -> Reply, fault: Fault) returns (rows: seq<Hash>, done: nat, raised: bool)
      requires Valid()
      modifies this
      ensures Valid() && Lists(rows, Owed(old(table))) && done <= |rows|
      ensures Swept(old(table), table, rows, done, raised && fault.AtMark?, replies, maxAttempts)
      ensures !raised ==> done == |rows|
      ensures raised ==> done < |rows|
                         && (fault == AtBump(done)
                             || (fault == AtMark(done) && Works(old(table), rows[done], replies, maxAttempts)))
      ensures fault.NoFault? ==> !raised
    {
      rows := SelectOwed();
      ghost var before := table;
      done, raised := 0, false;
      while done < |rows|
        invariant done <= |rows| && !raised && Valid()
        invariant Swept(before, table, rows, done, false, replies, maxAttempts)
      {
        if fault == AtBump(done) {
          return rows, done, true;
        }
        ghost var t0 := table;
        raised := SweepRow(rows[done], replies(rows[done]), fault == AtMark(done));
        SweptStep(before, t0, table, rows, done, replies, maxAttempts);
        if raised {
          return;
        }
        done := done + 1;
      }
    }

    /** One sweeper cycle: a pause of either kind skips it and leaves every row waiting. */
    method SweeperTick(paused: bool, floatStopped: bool, replies: Hash -> nat -> Reply, fault: Fault)
        returns (rows: seq<Hash>, done: nat, raised: bool)
      requires Valid()
      modifies this
      ensures Valid()
      ensures paused || floatStopped ==> table == old(table) && cache == old(cache) && rows == []
      ensures !paused && !floatStopped ==>
                && Lists(rows, Owed(old(table))) && done <= |rows|
                && Swept(old(table), table, rows, done, raised && fault.AtMark?, replies, maxAttempts)
                && (fault.NoFault? ==> done == |rows|)
    {
      rows, done, raised := [], 0, false;
      if !paused && !floatStopped {
        rows, done, raised := SweepOnce(replies, fault);
      }
    }
  }

  /** Every cached proof is about its row's digest. */
  ghost predicate CacheSound(t: Table, c: Proofs) {
    forall ph | ph in c.values :: ph in t && c.values[ph].digest == t[ph].digest
  }

  /** `rows` lists `s` without repetition. */
  ghost predicate Lists(rows: seq<Hash>, s: set<Hash>) {
    && (forall i | 0 <= i < |rows| :: rows[i] in s)
    && (forall ph | ph in s :: ph in rows)
    && (forall i, j | 0 <= i < j < |rows| :: rows[i] != rows[j])
  }

  ghost predicate Works(t: Table, ph: Hash, replies: Hash -> nat -> Reply, limit: nat)
    requires ph in t
  {
    Succeeds(replies(ph), t[ph].digest, limit)
  }

  /** A row after its turn. */
  function RowAfter(r: Row, works: bool): Row {
    Row(r.digest, if works then Stamped else NeedsStamp, r.attempts + 1)
  }

  /** The table after the first `done` rows of the snapshot, and, when `bumped`, the
      attempt of the next. */
  ghost predicate Swept(t: Table, u: Table, rows: seq<Hash>, done: nat, bumped: bool,
                        replies: Hash -> nat -> Reply, limit: nat)
    requires done <= |rows|
  {
    && u.Keys == t.Keys
    && (forall ph | ph in t && ph !in rows :: u[ph] == t[ph])
    && (forall i | 0 <= i < |rows| :: rows[i] in t
          && u[rows[i]] == if i < done then RowAfter(t[rows[i]], Works(t, rows[i], replies, limit))
                           else if i == done && bumped then t[rows[i]].(attempts := t[rows[i]].attempts + 1)
                           else t[rows[i]])
  }

  lemma {:induction false} SweptStep(t: Table, u: Table, v: Table, rows: seq<Hash>, done: nat,
                                     replies: Hash -> nat -> Reply, limit: nat)
    requires done < |rows| && Lists(rows, Owed(t)) && Swept(t, u, rows, done, false, replies, limit)
    ensures v == Bumped(u, rows[done]) ==>
              Swept(t, v, rows, done, true, replies, limit)
              && (!Works(t, rows[done], replies, limit) ==> Swept(t, v, rows, done + 1, false, replies, limit))
    ensures v == Marked(Bumped(u, rows[done]), rows[done]) && Works(t, rows[done], replies, limit) ==>
              Swept(t, v, rows, done + 1, false, replies, limit)
  {
  }

  // ---- convergence ----

  /** After a sweep no fault interrupted, the rows still owed are exactly the
      snapshot rows whose stamping failed; with a calendar that stamps them all,
      none. */
  lemma {:induction false} SweepConverges(t: Table, u: Table, rows: seq<Hash>,
                                          replies: Hash -> nat -> Reply, limit: nat)
    requires Lists(rows, Owed(t)) && Swept(t, u, rows, |rows|, false, replies, limit)
    ensures forall ph :: ph in Owed(u) <==> ph in Owed(t) && !Works(t, ph, replies, limit)
    ensures (forall ph | ph in Owed(t) :: Works(t, ph, replies, limit)) ==> Owed(u) == {}
    ensures forall ph | ph in Owed(t) :: u[ph].attempts == t[ph].attempts + 1
  {
  }

  /** A sweep, interrupted or not, loses nothing: every row is still there with its
      digest, stamped rows stay stamped, and only rows that were owed are owed. */
  lemma {:induction false} SweepLosesNothing(t: Table, u: Table, rows: seq<Hash>, done: nat, bumped: bool,
                          replies: Hash -> nat -> Reply, limit: nat)
    requires Lists(rows, Owed(t)) && done <= |rows| && Swept(t, u, rows, done, bumped, replies, limit)
    ensures Advances(t, u) && u.Keys == t.Keys && Owed(u) <= Owed(t)
    ensures done < |rows| ==> forall i | done <= i < |rows| :: rows[i] in Owed(u)
  {
  }

  // ---- any number of ticks ----

  /** One tick as it went: its snapshot, how many rows it finished, whether it was
      cut off after the attempt at the next, and the calendar it met. */
  datatype Tick = Tick(rows: seq<Hash>, done: nat, bumped: bool, replies: Hash -> nat -> Reply)

  ghost predicate Ticked(t: Table, u: Table, tick: Tick, limit: nat) {
    && Lists(tick.rows, Owed(t)) && tick.done <= |tick.rows|
    && Swept(t, u, tick.rows, tick.done, tick.bumped, tick.replies, limit)
  }

  /** `t` becomes `u` over the ticks, however each of them ended. */
  ghost predicate Ticks(t: Table, ticks: seq<Tick>, u: Table, limit: nat) {
    if ticks == [] then t == u
    else exists mid :: Ticked(t, mid, ticks[0], limit) && Ticks(mid, ticks[1..], u, limit)
  }

  /** The tick reached the row and stamped its digest. */
  ghost predicate StampedBy(tick: Tick, ph: Hash, d: Digest, limit: nat) {
    ph in tick.rows[..Reached(tick)] && Succeeds(tick.replies(ph), d, limit)
  }

  function Reached(tick: Tick): nat { if tick.done <= |tick.rows| then tick.done else |tick.rows| }

  lemma TickStamps(t: Table, u: Table, tick: Tick, limit: nat, ph: Hash)
    requires Ticked(t, u, tick, limit) && ph in t
    ensures ph in u && u[ph].digest == t[ph].digest && t[ph].attempts <= u[ph].attempts <= t[ph].attempts + 1
    ensures ph in Owed(u) <==> ph in Owed(t) && !StampedBy(tick, ph, t[ph].digest, limit)
  {
    if ph in tick.rows {
      var i :| 0 <= i < |tick.rows| && tick.rows[i] == ph;
      assert i < tick.done ==> tick.rows[..tick.done][i] == ph;
    }
  }

  /** Over any number of ticks, each running through or ended by an error at any row,
      no row is lost and no digest changes; a row is owed afterwards exactly when it
      was owed before and every tick that finished it failed to stamp it. */
  lemma {:induction false} StillOwedExactly(t: Table, ticks: seq<Tick>, u: Table, limit: nat, ph: Hash)
    requires ph in t
    ensures Ticks(t, ticks, u, limit) ==>
              && ph in u && u[ph].digest == t[ph].digest && t[ph].attempts <= u[ph].attempts <= t[ph].attempts + |ticks|
              && (ph in Owed(u) <==>
                    ph in Owed(t) && forall i | 0 <= i < |ticks| :: !StampedBy(ticks[i], ph, t[ph].digest, limit))
    decreases |ticks|
  {
    if ticks != [] && Ticks(t, ticks, u, limit) {
      var mid :| Ticked(t, mid, ticks[0], limit) && Ticks(mid, ticks[1..], u, limit);
      TickStamps(t, mid, ticks[0], limit, ph);
      StillOwedExactly(mid, ticks[1..], u, limit, ph);
      assert forall i | 0 < i < |ticks| :: ticks[i] == ticks[1..][i - 1];
    }
  }

  lemma {:induction false} TicksKeepKeys(t: Table, ticks: seq<Tick>, u: Table, limit: nat)
    requires Ticks(t, ticks, u, limit)
    ensures u.Keys == t.Keys
    decreases |ticks|
  {
    if ticks != [] {
      var mid :| Ticked(t, mid, ticks[0], limit) && Ticks(mid, ticks[1..], u, limit);
      TicksKeepKeys(mid, ticks[1..], u, limit);
    }
  }

  /** However the ticks before went, raised marks included, one tick that runs
      through with a calendar that stamps every owed digest leaves nothing owed. */
  lemma CleanTickConverges(t: Table, ticks: seq<Tick>, u: Table, last: Tick, v: Table, limit: nat)
    requires Ticks(t, ticks, u, limit) && Ticked(u, v, last, limit) && last.done == |last.rows|
    requires forall ph | ph in Owed(t) :: Works(t, ph, last.replies, limit)
    ensures Owed(v) == {} && v.Keys == t.Keys
  {
    TicksKeepKeys(t, ticks, u, limit);
    forall ph | ph in v ensures ph !in Owed(v) {
      StillOwedExactly(t, ticks, u, limit, ph);
      if ph in Owed(u) {
        assert Works(t, ph, last.replies, limit);
        var i :| 0 <= i < |last.rows| && last.rows[i] == ph;
      }
    }
  }
}
