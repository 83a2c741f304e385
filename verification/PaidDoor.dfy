/** The paid door as a transition system: any number of request threads, one
    sweeper, a wallet, a calendar, the durable obligation table, the volatile proof
    cache, and a crash possible between any two steps. */
module PaidDoor {
  import opened Obligations
  import opened OrderedDict

  type ThreadId = nat

  datatype Invoice = Invoice(memo: Digest, face: nat)

  /** What a verified token asks for: this digest, under this payment hash, at the
      price in its signed caveat. */
  datatype Claim = Claim(ph: Hash, digest: Digest, price: nat)

  /** Where a request thread is; its name says what it does next. */
  datatype Place =
    | LookingUp                // ask the wallet
    | CheckingCache            // payment verified
    | Recording                // cache missed
    | Stamping                 // row committed
    | Caching(proof: Proof)    // calendar answered
    | Marking(proof: Proof)
    | Serving(proof: Proof, hit: bool) // send the 200; `hit`: the proof came from the cache

  datatype Request = Request(claim: Claim, place: Place)

  /** The sweeper's position in its snapshot. */
  datatype Phase = Bumping | SweepStamping | SweepCaching(proof: Proof) | SweepMarking(proof: Proof)

  datatype Owing = Owing(ph: Hash, row: Row)

  datatype Sweeper =
    | Idle
    | Sweeping(snapshot: seq<Owing>, pos: nat, phase: Phase, failed: set<Hash>)

  /** One 200: what was claimed, and the proof sent. */
  datatype Served = Served(claim: Claim, proof: Proof, hit: bool)

  datatype State = State(
    // the wallet and the calendar
    wallet: map<Hash, Invoice>, settled: set<Hash>, accepted: set<Digest>,
    // the gateway
    table: Table, cache: Proofs, threads: map<ThreadId, Request>, sweeper: Sweeper, paused: bool,
    // history: the token price each row was recorded under, and the 200s sent
    prices: map<Hash, nat>, served: seq<Served>)

  const INIT := State(map[], {}, {}, map[], Empty(), map[], Idle, false, map[], [])

  /** How a stamp ends: with a proof, or failed, perhaps accepted all the same. */
  datatype StampResult = StampedAs(entry: nat) | StampFailed(acceptedUnheard: bool)

  datatype WorldAct =
    | MintInvoice(ph: Hash, invoice: Invoice)
    | Settle(ph: Hash)
    | SetPaused(on: bool)
    | Crash                      // the process restarts: what is not durable is gone

  datatype Act =
    | Present(claim: Claim)
    | LookUp
    | CheckCache
    | Record
    | Stamp(result: StampResult)
    | Cache
    | Mark
    | Serve
    | Abandon                    // any error or disconnect: the thread ends where it is

  datatype SweepAct =
    | Start(rows: seq<Hash>)
    | Bump
    | StampRow(result: StampResult)
    | CacheRow
    | MarkRow
    | End
    | Raise                      // any error outside the stamp ends the tick

  datatype Step = World(w: WorldAct) | Thread(t: ThreadId, act: Act) | Sweep(sweep: SweepAct)

  predicate At(s: State, t: ThreadId, place: Place) { t in s.threads && s.threads[t].place == place }

  /** The wallet reports the invoice settled, for this digest, at or above the price. */
  predicate PaymentVerified(s: State, c: Claim) {
    && c.ph in s.settled && c.ph in s.wallet
    && s.wallet[c.ph].memo == c.digest && s.wallet[c.ph].face >= c.price
  }

  predicate SweepAt(s: State) { s.sweeper.Sweeping? && s.sweeper.pos < |s.sweeper.snapshot| }

  function Turn(s: State): Owing
    requires SweepAt(s)
  {
    s.sweeper.snapshot[s.sweeper.pos]
  }

  ghost predicate Enabled(s: State, step: Step) {
    match step
    case World(MintInvoice(ph, _)) => ph !in s.wallet
    case World(Settle(ph)) => ph in s.wallet
    case World(_) => true
    case Thread(t, Present(_)) => t !in s.threads && !s.paused
    case Thread(t, LookUp) => At(s, t, LookingUp)
    case Thread(t, CheckCache) => At(s, t, CheckingCache)
    case Thread(t, Record) => At(s, t, Recording)
    case Thread(t, Stamp(_)) => At(s, t, Stamping)
    case Thread(t, Cache) => t in s.threads && s.threads[t].place.Caching?
    case Thread(t, Mark) => t in s.threads && s.threads[t].place.Marking?
    case Thread(t, Serve) => t in s.threads && s.threads[t].place.Serving?
    case Thread(t, Abandon) => t in s.threads
    case Sweep(Start(rows)) => s.sweeper.Idle? && !s.paused && Lists(rows, Owed(s.table))
    case Sweep(Bump) => SweepAt(s) && s.sweeper.phase.Bumping?
    case Sweep(StampRow(_)) => SweepAt(s) && s.sweeper.phase.SweepStamping?
    case Sweep(CacheRow) => SweepAt(s) && s.sweeper.phase.SweepCaching?
    case Sweep(MarkRow) => SweepAt(s) && s.sweeper.phase.SweepMarking?
    case Sweep(End) => s.sweeper.Sweeping? && s.sweeper.pos == |s.sweeper.snapshot|
    case Sweep(Raise) => s.sweeper.Sweeping?
  }

  function Goto(s: State, t: ThreadId, place: Place): State
    requires t in s.threads
  {
    s.(threads := s.threads[t := s.threads[t].(place := place)])
  }

  function Done(s: State, t: ThreadId): State { s.(threads := s.threads - {t}) }

  function Heard(s: State, d: Digest, r: StampResult): State {
    if r.StampedAs? || r.acceptedUnheard then s.(accepted := s.accepted + {d}) else s
  }

  function ApplyWorld(s: State, w: WorldAct): State {
    match w
    case MintInvoice(ph, invoice) => s.(wallet := s.wallet[ph := invoice])
    case Settle(ph) => s.(settled := s.settled + {ph})
    case SetPaused(on) => s.(paused := on)
    case Crash => s.(cache := Empty(), threads := map[], sweeper := Idle)
  }

  ghost function ApplyThread(s: State, t: ThreadId, act: Act, max: nat): State
    requires max >= 1 && Enabled(s, Thread(t, act))
  {
    match act
    case Present(claim) => s.(threads := s.threads[t := Request(claim, LookingUp)])
    case LookUp =>
      if PaymentVerified(s, s.threads[t].claim) then Goto(s, t, CheckingCache) else Done(s, t)
    case CheckCache =>
      var ph := s.threads[t].claim.ph;
      Goto(s, t, if ph in s.cache.values then Serving(s.cache.values[ph], true) else Recording)
    case Record =>
      var c := s.threads[t].claim;
      Goto(s.(table := Recorded(s.table, c.ph, c.digest),
              prices := if c.ph in s.table then s.prices else s.prices[c.ph := c.price]), t, Stamping)
    case Stamp(r) =>
      var d := s.threads[t].claim.digest;
      if r.StampedAs? then Goto(Heard(s, d, r), t, Caching(Proof(d, r.entry))) else Done(Heard(s, d, r), t)
    case Cache =>
      var proof := s.threads[t].place.proof;
      Goto(s.(cache := s.cache.FifoPut(max, s.threads[t].claim.ph, proof)), t, Marking(proof))
    case Mark => 
      Goto(s.(table := Marked(s.table, s.threads[t].claim.ph)), t, Serving(s.threads[t].place.proof, false))
    case Serve =>
      var r := s.threads[t];
      Done(s.(served := s.served + [Served(r.claim, r.place.proof, r.place.hit)]), t)
    case Abandon => Done(s, t)
  }

  ghost function ApplySweep(s: State, act: SweepAct, max: nat): State
    requires max >= 1 && Enabled(s, Sweep(act))
  {
    match act
    case Start(rows) =>
      var snapshot := seq(|rows|, i requires 0 <= i < |rows| && rows[i] in s.table => Owing(rows[i], s.table[rows[i]]));
      s.(sweeper := Sweeping(snapshot, 0, Bumping, {}))
    case Bump => s.(table := Bumped(s.table, Turn(s).ph), sweeper := s.sweeper.(phase := SweepStamping))
    case StampRow(r) =>
      var d := Turn(s).row.digest;
      Heard(s, d, r).(sweeper := if r.StampedAs? then s.sweeper.(phase := SweepCaching(Proof(d, r.entry)))
                                 else s.sweeper.(pos := s.sweeper.pos + 1, phase := Bumping,
                                                 failed := s.sweeper.failed + {Turn(s).ph}))
    case CacheRow =>
      var proof := s.sweeper.phase.proof;
      s.(cache := s.cache.FifoPut(max, Turn(s).ph, proof), sweeper := s.sweeper.(phase := SweepMarking(proof)))
    case MarkRow =>
      s.(table := Marked(s.table, Turn(s).ph), sweeper := s.sweeper.(pos := s.sweeper.pos + 1, phase := Bumping))
    case End => s.(sweeper := Idle)
    case Raise => s.(sweeper := Idle)
  }

  ghost function Apply(s: State, step: Step, max: nat): State
    requires max >= 1 && Enabled(s, step)
  {
    match step
    case World(w) => ApplyWorld(s, w)
    case Thread(t, act) => ApplyThread(s, t, act, max)
    case Sweep(act) => ApplySweep(s, act, max)
  }

  ghost predicate Path(s: State, steps: seq<Step>, s': State, max: nat)
    requires max >= 1
    decreases |steps|
  {
    if steps == [] then s == s'
    else Enabled(s, steps[0]) && Path(Apply(s, steps[0], max), steps[1..], s', max)
  }

  ghost predicate Reachable(s: State, max: nat)
    requires max >= 1
  {
    exists steps :: Path(INIT, steps, s, max)
  }

  // ---- safety ----

  /** The proof is what the claim is owed, and the calendar accepted it. */
  ghost predicate ProofOf(s: State, proof: Proof, d: Digest) {
    proof.digest == d && d in s.accepted
  }

  ghost predicate RowBacked(s: State, ph: Hash)
    requires ph in s.table
  {
    && ph in s.prices && PaymentVerified(s, Claim(ph, s.table[ph].digest, s.prices[ph]))
    && (s.table[ph].status == Stamped ==> s.table[ph].digest in s.accepted)
  }

  ghost predicate TableInv(s: State) { forall ph | ph in s.table :: RowBacked(s, ph) }

  /** A cached proof is a proof of the wallet's memo for its payment hash, which has a row. */
  ghost predicate EntrySound(s: State, ph: Hash)
    requires ph in s.cache.values
  {
    ph in s.table && ph in s.wallet && ProofOf(s, s.cache.values[ph], s.wallet[ph].memo)
  }

  ghost predicate CacheInv(s: State, max: nat) {
    && s.cache.Valid() && |s.cache.keys| <= max
    && forall ph | ph in s.cache.values :: EntrySound(s, ph)
  }

  ghost predicate RequestInv(s: State, r: Request) {
    match r.place
    case LookingUp => true
    case CheckingCache => PaymentVerified(s, r.claim)
    case Recording => PaymentVerified(s, r.claim)
    case Stamping => PaymentVerified(s, r.claim) && r.claim.ph in s.table
    case Caching(proof) => PaymentVerified(s, r.claim) && r.claim.ph in s.table && ProofOf(s, proof, r.claim.digest)
    case Marking(proof) => PaymentVerified(s, r.claim) && r.claim.ph in s.table && ProofOf(s, proof, r.claim.digest)
    case Serving(proof, hit) =>
      && PaymentVerified(s, r.claim) && r.claim.ph in s.table && ProofOf(s, proof, r.claim.digest)
      && (!hit ==> s.table[r.claim.ph].status == Stamped)
  }

  ghost predicate ThreadInv(s: State) { forall t | t in s.threads :: RequestInv(s, s.threads[t]) }

  ghost predicate ServedInv(s: State) {
    forall i | 0 <= i < |s.served| ::
      && PaymentVerified(s, s.served[i].claim) && s.served[i].claim.ph in s.table
      && ProofOf(s, s.served[i].proof, s.served[i].claim.digest)
      && (!s.served[i].hit ==> s.table[s.served[i].claim.ph].status == Stamped)
  }

  /** The row as the sweeper has left it so far: before its turn, bumped, or done. */
  ghost predicate RowInv(s: State, o: Owing, bumped: bool, done: bool)
    requires s.sweeper.Sweeping?
  {
    && o.ph in s.table && s.table[o.ph].digest == o.row.digest
    && s.table[o.ph].attempts == o.row.attempts + (if bumped then 1 else 0)
    && (done ==> s.table[o.ph].status == Stamped || o.ph in s.sweeper.failed)
  }

  ghost predicate SweepInv(s: State) {
    s.sweeper.Sweeping? ==>
      && s.sweeper.pos <= |s.sweeper.snapshot|
      && (forall i, j | 0 <= i < j < |s.sweeper.snapshot| :: s.sweeper.snapshot[i].ph != s.sweeper.snapshot[j].ph)
      && (forall i | 0 <= i < |s.sweeper.snapshot| ::
            RowInv(s, s.sweeper.snapshot[i], i < s.sweeper.pos || (i == s.sweeper.pos && !s.sweeper.phase.Bumping?),
                   i < s.sweeper.pos))
      && (s.sweeper.phase.SweepCaching? && SweepAt(s) ==> ProofOf(s, s.sweeper.phase.proof, Turn(s).row.digest))
      && (s.sweeper.phase.SweepMarking? && SweepAt(s) ==> ProofOf(s, s.sweeper.phase.proof, Turn(s).row.digest))
      && (!SweepAt(s) ==> s.sweeper.phase.Bumping?)
  }

  /** What no step, and so no crash, undoes: the wallet's invoices and settlements,
      the calendar's acceptances, and the table's progress. */
  ghost predicate Grows(s: State, s': State) {
    && s.settled <= s'.settled && s.accepted <= s'.accepted
    && (forall ph | ph in s.wallet :: ph in s'.wallet && s'.wallet[ph] == s.wallet[ph])
    && Advances(s.table, s'.table)
    && (forall ph | ph in s.prices && ph in s.table :: ph in s'.prices && s'.prices[ph] == s.prices[ph])
    && s.served <= s'.served
  }

  lemma WorldGrows(s: State, w: WorldAct)
    requires Enabled(s, World(w))
    ensures Grows(s, ApplyWorld(s, w))
  {
  }

  lemma ThreadGrows(s: State, t: ThreadId, act: Act, max: nat)
    requires max >= 1 && Enabled(s, Thread(t, act))
    ensures Grows(s, ApplyThread(s, t, act, max))
  {
    ThreadKeepsWorld(s, t, act, max);
    if !act.Record? && !act.Mark? {
      ThreadKeepsTable(s, t, act, max);
    }
  }

  lemma ThreadKeepsWorld(s: State, t: ThreadId, act: Act, max: nat)
    requires max >= 1 && Enabled(s, Thread(t, act))
    ensures var s' := ApplyThread(s, t, act, max);
            && s'.wallet == s.wallet && s'.settled == s.settled && s.accepted <= s'.accepted && s.served <= s'.served
            && s'.sweeper == s.sweeper
  {
    if act.Present? || act.LookUp? || act.CheckCache? {
      ThreadReadsOnly(s, t, act, max);
    } else if act.Record? || act.Cache? || act.Mark? {
      ThreadWritesOwn(s, t, act, max);
    }
  }

  lemma ThreadReadsOnly(s: State, t: ThreadId, act: Act, max: nat)
    requires max >= 1 && Enabled(s, Thread(t, act)) && (act.Present? || act.LookUp? || act.CheckCache?)
    ensures ApplyThread(s, t, act, max) == s.(threads := ApplyThread(s, t, act, max).threads)
  {
  }

  lemma ThreadWritesOwn(s: State, t: ThreadId, act: Act, max: nat)
    requires max >= 1 && Enabled(s, Thread(t, act)) && (act.Record? || act.Cache? || act.Mark?)
    ensures var s' := ApplyThread(s, t, act, max);
            s' == s.(threads := s'.threads, table := s'.table, prices := s'.prices, cache := s'.cache)
  {
  }

  lemma ThreadKeepsTable(s: State, t: ThreadId, act: Act, max: nat)
    requires max >= 1 && Enabled(s, Thread(t, act)) && !act.Record? && !act.Mark?
    ensures ApplyThread(s, t, act, max).table == s.table && ApplyThread(s, t, act, max).prices == s.prices
  {
  }

  lemma SweepGrows(s: State, act: SweepAct, max: nat)
    requires max >= 1 && Enabled(s, Sweep(act))
    ensures Grows(s, ApplySweep(s, act, max))
  {
  }

  lemma GrowthKeepsClaims(s: State, s': State)
    requires Grows(s, s')
    ensures forall c :: PaymentVerified(s, c) ==> PaymentVerified(s', c)
    ensures forall proof, d :: ProofOf(s, proof, d) ==> ProofOf(s', proof, d)
  {
  }

  // ---- every step keeps the invariant ----

  ghost predicate Inv(s: State, max: nat) {
    TableInv(s) && CacheInv(s, max) && ThreadInv(s) && ServedInv(s) && SweepInv(s)
  }

  lemma {:induction false} WorldStep(s: State, w: WorldAct, max: nat)
    requires max >= 1 && Enabled(s, World(w)) && Inv(s, max)
    ensures Inv(ApplyWorld(s, w), max)
  {
    WorldGrows(s, w);
    GrowthKeepsClaims(s, ApplyWorld(s, w));
  }

  lemma {:induction false} ThreadTableStep(s: State, t: ThreadId, act: Act, max: nat)
    requires max >= 1 && Enabled(s, Thread(t, act)) && TableInv(s) && ThreadInv(s)
    ensures TableInv(ApplyThread(s, t, act, max))
  {
    var s' := ApplyThread(s, t, act, max);
    ThreadGrows(s, t, act, max);
    GrowthKeepsClaims(s, s');
    if act.Record? {
      RecordTableStep(s, t, max);
    } else {
      if act.Mark? {
        assert RequestInv(s, s.threads[t]);
      } else {
        ThreadKeepsTable(s, t, act, max);
      }
      forall ph | ph in s'.table ensures RowBacked(s', ph) {
        assert RowBacked(s, ph);
      }
    }
  }

  lemma {:induction false} RecordTableStep(s: State, t: ThreadId, max: nat)
    requires max >= 1 && Enabled(s, Thread(t, Record)) && TableInv(s) && ThreadInv(s)
    ensures TableInv(ApplyThread(s, t, Record, max))
  {
    var s' := ApplyThread(s, t, Record, max);
    assert RequestInv(s, s.threads[t]);
    forall ph | ph in s'.table ensures RowBacked(s', ph) {
      if ph in s.table {
        assert RowBacked(s, ph);
      }
    }
  }

  lemma {:induction false} ThreadCacheStep(s: State, t: ThreadId, act: Act, max: nat)
    requires max >= 1 && Enabled(s, Thread(t, act)) && CacheInv(s, max) && ThreadInv(s)
    ensures CacheInv(ApplyThread(s, t, act, max), max)
  {
    var s' := ApplyThread(s, t, act, max);
    if act.Cache? {
      CacheStep(s, t, max);
    } else {
      ThreadGrows(s, t, act, max);
      ThreadKeepsCache(s, t, act, max);
      forall ph | ph in s'.cache.values ensures EntrySound(s', ph) {
        assert EntrySound(s, ph);
      }
    }
  }

  lemma ThreadKeepsCache(s: State, t: ThreadId, act: Act, max: nat)
    requires max >= 1 && Enabled(s, Thread(t, act)) && !act.Cache?
    ensures ApplyThread(s, t, act, max).cache == s.cache
  {
  }

  lemma {:induction false} CacheStep(s: State, t: ThreadId, max: nat)
    requires max >= 1 && Enabled(s, Thread(t, Act.Cache)) && CacheInv(s, max) && ThreadInv(s)
    ensures CacheInv(ApplyThread(s, t, Act.Cache, max), max)
  {
    var s' := ApplyThread(s, t, Act.Cache, max);
    assert RequestInv(s, s.threads[t]);
    FifoPutEffect(s.cache, max, s.threads[t].claim.ph, s.threads[t].place.proof);
    forall ph | ph in s'.cache.values ensures EntrySound(s', ph) {
      assert ph in s.cache.values ==> EntrySound(s, ph);
    }
  }

  lemma {:induction false} RequestSurvives(s: State, s': State, r: Request)
    requires Grows(s, s') && RequestInv(s, r)
    ensures RequestInv(s', r)
  {
  }

  lemma {:induction false} OwnThreadStep(s: State, t: ThreadId, act: Act, max: nat)
    requires max >= 1 && Enabled(s, Thread(t, act)) && TableInv(s) && CacheInv(s, max)
    requires t in s.threads ==> RequestInv(s, s.threads[t])
    ensures var s' := ApplyThread(s, t, act, max); t in s'.threads ==> RequestInv(s', s'.threads[t])
  {
    if act.CheckCache? && s.threads[t].claim.ph in s.cache.values {
      assert s.threads[t].claim.ph in s.table;
    }
  }

  lemma {:induction false} ThreadThreadStep(s: State, t: ThreadId, act: Act, max: nat)
    requires max >= 1 && Enabled(s, Thread(t, act)) && TableInv(s) && CacheInv(s, max) && ThreadInv(s)
    ensures ThreadInv(ApplyThread(s, t, act, max))
  {
    var s' := ApplyThread(s, t, act, max);
    ThreadGrows(s, t, act, max);
    OwnThreadStep(s, t, act, max);
    forall u | u in s'.threads && u != t ensures RequestInv(s', s'.threads[u]) {
      assert s'.threads[u] == s.threads[u];
      RequestSurvives(s, s', s.threads[u]);
    }
  }

  lemma {:induction false} ThreadServedStep(s: State, t: ThreadId, act: Act, max: nat)
    requires max >= 1 && Enabled(s, Thread(t, act)) && ServedInv(s) && ThreadInv(s)
    ensures ServedInv(ApplyThread(s, t, act, max))
  {
    ThreadGrows(s, t, act, max);
    GrowthKeepsClaims(s, ApplyThread(s, t, act, max));
    assert t in s.threads ==> RequestInv(s, s.threads[t]);
  }

  /** The table as far as the sweeper can tell. */
  ghost predicate SameForSweeper(t: Table, u: Table) {
    forall ph | ph in t ::
      && ph in u && u[ph].attempts == t[ph].attempts && u[ph].digest == t[ph].digest
      && (t[ph].status == Stamped ==> u[ph].status == Stamped)
  }

  /** A request's writes never undo what the sweeper has done, and never count as
      one of its attempts. */
  lemma ThreadIsNoSweep(s: State, t: ThreadId, act: Act, max: nat)
    requires max >= 1 && Enabled(s, Thread(t, act))
    ensures var s' := ApplyThread(s, t, act, max);
            s'.sweeper == s.sweeper && s.accepted <= s'.accepted && SameForSweeper(s.table, s'.table)
  {
    ThreadKeepsWorld(s, t, act, max);
    if !act.Record? && !act.Mark? {
      ThreadKeepsTable(s, t, act, max);
    }
  }

  lemma {:induction false} ThreadSweepStep(s: State, t: ThreadId, act: Act, max: nat)
    requires max >= 1 && Enabled(s, Thread(t, act)) && SweepInv(s)
    ensures SweepInv(ApplyThread(s, t, act, max))
  {
    ThreadIsNoSweep(s, t, act, max);
    SweepInvFollows(s, ApplyThread(s, t, act, max));
  }

  lemma {:induction false} SweepInvFollows(s: State, s': State)
    requires SweepInv(s) && s'.sweeper == s.sweeper && s.accepted <= s'.accepted && SameForSweeper(s.table, s'.table)
    ensures SweepInv(s')
  {
  }

  lemma {:induction false} SweepTableStep(s: State, act: SweepAct, max: nat)
    requires max >= 1 && Enabled(s, Sweep(act)) && TableInv(s) && SweepInv(s)
    ensures TableInv(ApplySweep(s, act, max))
  {
    var s' := ApplySweep(s, act, max);
    if SweepAt(s) {
      assert RowInv(s, Turn(s), !s.sweeper.phase.Bumping?, false);
    }
    forall ph | ph in s'.table ensures RowBacked(s', ph) {
      assert RowBacked(s, ph);
    }
  }

  lemma {:induction false} SweepCacheStep(s: State, act: SweepAct, max: nat)
    requires max >= 1 && Enabled(s, Sweep(act)) && TableInv(s) && CacheInv(s, max) && SweepInv(s)
    ensures CacheInv(ApplySweep(s, act, max), max)
  {
    var s' := ApplySweep(s, act, max);
    if act.CacheRow? {
      assert RowInv(s, Turn(s), true, false);
      assert RowBacked(s, Turn(s).ph);
      FifoPutEffect(s.cache, max, Turn(s).ph, s.sweeper.phase.proof);
    }
    forall ph | ph in s'.cache.values ensures EntrySound(s', ph) {
      assert ph in s.cache.values ==> EntrySound(s, ph);
    }
  }

  lemma {:induction false} SweepThreadStep(s: State, act: SweepAct, max: nat)
    requires max >= 1 && Enabled(s, Sweep(act)) && ThreadInv(s) && ServedInv(s)
    ensures ThreadInv(ApplySweep(s, act, max)) && ServedInv(ApplySweep(s, act, max))
  {
    SweepGrows(s, act, max);
    GrowthKeepsClaims(s, ApplySweep(s, act, max));
  }

  lemma {:induction false} SweepSweepStep(s: State, act: SweepAct, max: nat)
    requires max >= 1 && Enabled(s, Sweep(act)) && SweepInv(s)
    ensures SweepInv(ApplySweep(s, act, max))
  {
    if act.Bump? || act.MarkRow? {
      SweepRowStep(s, act, max);
    } else if act.StampRow? {
      SweepStampStep(s, act, max);
    } else {
      SweepOtherStep(s, act, max);
    }
  }

  /** The two writes to the row whose turn it is. */
  lemma {:induction false} SweepRowStep(s: State, act: SweepAct, max: nat)
    requires max >= 1 && Enabled(s, Sweep(act)) && SweepInv(s) && (act.Bump? || act.MarkRow?)
    ensures SweepInv(ApplySweep(s, act, max))
  {
    var s' := ApplySweep(s, act, max);
    assert RowInv(s, Turn(s), act.MarkRow?, false);
    forall i | 0 <= i < |s.sweeper.snapshot|
      ensures RowInv(s', s.sweeper.snapshot[i],
                     i < s'.sweeper.pos || (i == s'.sweeper.pos && !s'.sweeper.phase.Bumping?), i < s'.sweeper.pos)
    {
      assert RowInv(s, s.sweeper.snapshot[i],
                    i < s.sweeper.pos || (i == s.sweeper.pos && act.MarkRow?), i < s.sweeper.pos);
    }
  }

  lemma {:induction false} SweepStampStep(s: State, act: SweepAct, max: nat)
    requires max >= 1 && Enabled(s, Sweep(act)) && SweepInv(s) && act.StampRow?
    ensures SweepInv(ApplySweep(s, act, max))
  {
    SweepGrows(s, act, max);
    GrowthKeepsClaims(s, ApplySweep(s, act, max));
  }

  lemma {:induction false} SweepOtherStep(s: State, act: SweepAct, max: nat)
    requires max >= 1 && Enabled(s, Sweep(act)) && SweepInv(s) && !act.Bump? && !act.MarkRow? && !act.StampRow?
    ensures SweepInv(ApplySweep(s, act, max))
  {
    SweepGrows(s, act, max);
    GrowthKeepsClaims(s, ApplySweep(s, act, max));
  }

  lemma {:induction false} StepKeepsInv(s: State, step: Step, max: nat)
    requires max >= 1 && Enabled(s, step) && Inv(s, max)
    ensures Inv(Apply(s, step, max), max) && Grows(s, Apply(s, step, max))
  {
    match step {
      case World(w) =>
        WorldGrows(s, w);
        WorldStep(s, w, max);
      case Thread(t, act) =>
        ThreadGrows(s, t, act, max);
        ThreadTableStep(s, t, act, max);
        ThreadCacheStep(s, t, act, max);
        ThreadThreadStep(s, t, act, max);
        ThreadServedStep(s, t, act, max);
        ThreadSweepStep(s, t, act, max);
      case Sweep(act) =>
        SweepGrows(s, act, max);
        SweepTableStep(s, act, max);
        SweepCacheStep(s, act, max);
        SweepThreadStep(s, act, max);
        SweepSweepStep(s, act, max);
    }
  }

  lemma GrowsTwice(s: State, u: State, v: State)
    requires Grows(s, u) && Grows(u, v)
    ensures Grows(s, v)
  {
  }

  /** Over every interleaving with crashes anywhere: rows are never removed, a row's
      digest never changes, a row only goes from owed to stamped, and what the
      wallet, the calendar and the clients were told stands. */
  lemma {:induction false} RunsOnlyGrow(s: State, steps: seq<Step>, s': State, max: nat)
    requires max >= 1 && Inv(s, max) && Path(s, steps, s', max)
    ensures Grows(s, s') && Inv(s', max)
    decreases |steps|
  {
    if steps != [] {
      var u := Apply(s, steps[0], max);
      StepKeepsInv(s, steps[0], max);
      RunsOnlyGrow(u, steps[1..], s', max);
      GrowsTwice(s, u, s');
    }
  }

  lemma ReachableInv(s: State, max: nat)
    requires max >= 1 && Reachable(s, max)
    ensures Inv(s, max)
  {
    var steps :| Path(INIT, steps, s, max);
    RunsOnlyGrow(INIT, steps, s, max);
  }

  /** Every row was paid for: its payment is settled at the wallet, for its digest,
      at or above the price of the token it was recorded under; and a stamped row's
      digest was accepted by the calendar. */
  lemma RowsArePaidFor(s: State, max: nat, ph: Hash)
    requires max >= 1 && Reachable(s, max) && ph in s.table
    ensures ph in s.settled && ph in s.wallet && s.wallet[ph].memo == s.table[ph].digest
    ensures ph in s.prices && s.wallet[ph].face >= s.prices[ph]
    ensures s.table[ph].status == Stamped ==> s.table[ph].digest in s.accepted
  {
    ReachableInv(s, max);
    assert RowBacked(s, ph);
  }

  /** Every 200 carried a proof of the digest it was asked for, from a fresh stamp or
      from the cache, before or after any restart; its payment was settled for that
      digest and has a row. */
  lemma EveryTwoHundredIsAProof(s: State, max: nat, i: nat)
    requires max >= 1 && Reachable(s, max) && i < |s.served|
    ensures s.served[i].proof.digest == s.served[i].claim.digest
    ensures s.served[i].claim.digest in s.accepted
    ensures PaymentVerified(s, s.served[i].claim) && s.served[i].claim.ph in s.table
  {
    ReachableInv(s, max);
  }

  /** A 200 with a fresh stamp has discharged its obligation, for good: its row is
      stamped, and no sweep takes it up again. */
  lemma FreshTwoHundredIsDischarged(s: State, max: nat, i: nat)
    requires max >= 1 && Reachable(s, max) && i < |s.served| && !s.served[i].hit
    ensures s.served[i].claim.ph in s.table && s.table[s.served[i].claim.ph].status == Stamped
    ensures s.served[i].claim.ph !in Owed(s.table)
  {
    ReachableInv(s, max);
  }

  /** A cached proof is always a proof of the wallet's memo for its payment hash,
      and that hash always has a row. */
  lemma CacheHoldsProofsOfMemos(s: State, max: nat, ph: Hash)
    requires max >= 1 && Reachable(s, max) && ph in s.cache.values
    ensures ph in s.table && ph in s.wallet && s.cache.values[ph].digest == s.wallet[ph].memo == s.table[ph].digest
    ensures |s.cache.keys| <= max
  {
    ReachableInv(s, max);
    assert EntrySound(s, ph);
    RowsArePaidFor(s, max, ph);
  }

  // ---- the sweep under interleaving ----

  /** When a sweep reaches its end, whatever requests ran meanwhile: every row of its
      snapshot was tried exactly once by it, a failed stamp stopped no later row, and
      a row still owed is one whose stamp failed. */
  lemma FinishedSweepTriedEveryRow(s: State, max: nat, o: Owing)
    requires max >= 1 && Reachable(s, max) && Enabled(s, Sweep(End)) && o in s.sweeper.snapshot
    ensures o.ph in s.table && s.table[o.ph].attempts == o.row.attempts + 1
    ensures s.table[o.ph].status == NeedsStamp ==> o.ph in s.sweeper.failed
  {
    ReachableInv(s, max);
    var i :| 0 <= i < |s.sweeper.snapshot| && s.sweeper.snapshot[i] == o;
    assert RowInv(s, s.sweeper.snapshot[i], true, true);
  }

  /** The steps leave the sweep that is under way alone: no crash, no end, no error
      outside its stamps. */
  ghost predicate Uninterrupted(steps: seq<Step>) {
    forall i | 0 <= i < |steps| :: !Interrupts(steps[i])
  }

  predicate Interrupts(step: Step) { step == World(Crash) || step == Sweep(End) || step == Sweep(Raise) }

  predicate FailsAStamp(step: Step) { step.Sweep? && step.sweep.StampRow? && step.sweep.result.StampFailed? }

  lemma StepKeepsSweep(s: State, step: Step, max: nat)
    requires max >= 1 && Enabled(s, step) && s.sweeper.Sweeping? && !Interrupts(step)
    ensures var s' := Apply(s, step, max);
            && s'.sweeper.Sweeping? && s'.sweeper.snapshot == s.sweeper.snapshot
            && (!FailsAStamp(step) ==> s'.sweeper.failed == s.sweeper.failed)
  {
    match step {
      case World(w) =>
      case Thread(t, act) => ThreadIsNoSweep(s, t, act, max);
      case Sweep(act) => SweepKeepsSnapshot(s, act, max);
    }
  }

  lemma SweepKeepsSnapshot(s: State, act: SweepAct, max: nat)
    requires max >= 1 && Enabled(s, Sweep(act)) && s.sweeper.Sweeping? && !Interrupts(Sweep(act))
    ensures var s' := ApplySweep(s, act, max);
            && s'.sweeper.Sweeping? && s'.sweeper.snapshot == s.sweeper.snapshot
            && (!FailsAStamp(Sweep(act)) ==> s'.sweeper.failed == s.sweeper.failed)
  {
  }

  lemma {:induction false} SweepGoesOn(s: State, steps: seq<Step>, s': State, max: nat)
    requires max >= 1 && Path(s, steps, s', max) && s.sweeper.Sweeping? && Uninterrupted(steps)
    ensures s'.sweeper.Sweeping? && s'.sweeper.snapshot == s.sweeper.snapshot
    ensures (forall i | 0 <= i < |steps| :: !FailsAStamp(steps[i])) ==> s'.sweeper.failed == s.sweeper.failed
    decreases |steps|
  {
    if steps != [] {
      assert forall i | 0 < i < |steps| :: steps[1..][i - 1] == steps[i];
      StepKeepsSweep(s, steps[0], max);
      SweepGoesOn(Apply(s, steps[0], max), steps[1..], s', max);
    }
  }

  /** The sweep that has come to its end in `s'` tried the row once, and leaves it
      owed only if its stamp failed. */
  ghost predicate TriedIn(s: State, s': State, ph: Hash)
    requires s'.sweeper.Sweeping? && ph in s.table
  {
    && ph in s'.table && s'.table[ph].attempts == s.table[ph].attempts + 1
    && (ph in Owed(s'.table) ==> ph in s'.sweeper.failed)
  }

  lemma {:induction false} TriedByItsEnd(s: State, rows: seq<Hash>, steps: seq<Step>, s': State, max: nat)
    requires max >= 1 && Reachable(s, max) && Enabled(s, Sweep(Start(rows))) && Uninterrupted(steps)
    requires Path(Apply(s, Sweep(Start(rows)), max), steps, s', max) && Enabled(s', Sweep(End))
    ensures Advances(s.table, s'.table)
    ensures forall ph | ph in Owed(s.table) :: TriedIn(s, s', ph)
    ensures (forall i | 0 <= i < |steps| :: !FailsAStamp(steps[i])) ==> s'.sweeper.failed == {}
  {
    var s1 := Apply(s, Sweep(Start(rows)), max);
    ReachableInv(s, max);
    StepKeepsInv(s, Sweep(Start(rows)), max);
    RunsOnlyGrow(s1, steps, s', max);
    SweepGoesOn(s1, steps, s', max);
    forall ph | ph in Owed(s.table) ensures TriedIn(s, s', ph) {
      assert ph in rows;
      var i :| 0 <= i < |rows| && rows[i] == ph;
      assert s1.sweeper.snapshot[i] == Owing(ph, s.table[ph]);
      assert RowInv(s', s'.sweeper.snapshot[i], true, true);
    }
  }

  /** Every sweep converges, whatever requests, settlements and pauses run meanwhile:
      start one in any reachable state and follow any steps that leave it alone until
      it can end. Each row then owed was tried by it once; a row of that time still
      owed is one whose stamp failed in it; so if none failed, only rows recorded
      since can be owed. */
  lemma {:induction false} EverySweepConverges(s: State, rows: seq<Hash>, steps: seq<Step>, s': State, max: nat)
    requires max >= 1 && Reachable(s, max) && Enabled(s, Sweep(Start(rows))) && Uninterrupted(steps)
    requires Path(Apply(s, Sweep(Start(rows)), max), steps, s', max) && Enabled(s', Sweep(End))
    ensures forall ph | ph in Owed(s.table) :: ph in s'.table && s'.table[ph].attempts == s.table[ph].attempts + 1
    ensures forall ph | ph in s.table && ph in Owed(s'.table) :: ph in Owed(s.table) && ph in s'.sweeper.failed
    ensures (forall i | 0 <= i < |steps| :: !FailsAStamp(steps[i])) ==> Owed(s'.table) !! s.table.Keys
  {
    TriedByItsEnd(s, rows, steps, s', max);
    assert forall ph | ph in s.table && ph !in Owed(s.table) :: ph !in Owed(s'.table);
    forall ph | ph in Owed(s.table)
      ensures ph in s'.table && s'.table[ph].attempts == s.table[ph].attempts + 1
      ensures ph in Owed(s'.table) ==> ph in s'.sweeper.failed
    {
      assert TriedIn(s, s', ph);
    }
  }

  // ---- progress ----

  lemma {:induction false} PathJoins(s: State, a: seq<Step>, u: State, b: seq<Step>, v: State, max: nat)
    requires max >= 1 && Path(s, a, u, max) && Path(u, b, v, max)
    ensures Path(s, a + b, v, max)
    decreases |a|
  {
    if a == [] {
      assert a + b == b;
    } else {
      assert (a + b)[1..] == a[1..] + b;
      PathJoins(Apply(s, a[0], max), a[1..], u, b, v, max);
    }
  }

  /** Nothing is owed outside the rows the sweep has still to reach. */
  ghost predicate OwedAhead(s: State) {
    && s.sweeper.Sweeping? && s.sweeper.phase.Bumping? && s.sweeper.pos <= |s.sweeper.snapshot|
    && forall ph | ph in Owed(s.table) ::
         exists i :: s.sweeper.pos <= i < |s.sweeper.snapshot| && s.sweeper.snapshot[i].ph == ph
  }

  /** One row's four steps with a working calendar: attempt counted, digest stamped,
      proof in the cache for whoever presents the token next, row marked. */
  lemma RowsTurn(s: State, max: nat) returns (steps: seq<Step>, s': State)
    requires max >= 1 && SweepAt(s) && s.sweeper.phase.Bumping?
    ensures Path(s, steps, s', max) && OnlySweeps(steps)
    ensures s'.sweeper == s.sweeper.(pos := s.sweeper.pos + 1)
    ensures s'.table == Marked(Bumped(s.table, Turn(s).ph), Turn(s).ph)
    ensures Turn(s).ph in s'.cache.values && s'.cache.values[Turn(s).ph] == Proof(Turn(s).row.digest, 0)
  {
    var u := TurnToProof(s, max);
    s' := TurnToMark(u, max);
    steps := [Sweep(Bump), Sweep(StampRow(StampedAs(0)))] + [Sweep(CacheRow), Sweep(MarkRow)];
    PathJoins(s, [Sweep(Bump), Sweep(StampRow(StampedAs(0)))], u, [Sweep(CacheRow), Sweep(MarkRow)], s', max);
  }

  lemma TurnToProof(s: State, max: nat) returns (u: State)
    requires max >= 1 && SweepAt(s) && s.sweeper.phase.Bumping?
    ensures Path(s, [Sweep(Bump), Sweep(StampRow(StampedAs(0)))], u, max)
    ensures u.sweeper == s.sweeper.(phase := SweepCaching(Proof(Turn(s).row.digest, 0)))
    ensures u.table == Bumped(s.table, Turn(s).ph)
  {
    u := Apply(Apply(s, Sweep(Bump), max), Sweep(StampRow(StampedAs(0))), max);
    TwoSteps(s, Sweep(Bump), Sweep(StampRow(StampedAs(0))), max);
  }

  lemma TurnToMark(s: State, max: nat) returns (u: State)
    requires max >= 1 && SweepAt(s) && s.sweeper.phase.SweepCaching?
    ensures Path(s, [Sweep(CacheRow), Sweep(MarkRow)], u, max)
    ensures u.sweeper == s.sweeper.(pos := s.sweeper.pos + 1, phase := Bumping)
    ensures u.table == Marked(s.table, Turn(s).ph)
    ensures Turn(s).ph in u.cache.values && u.cache.values[Turn(s).ph] == s.sweeper.phase.proof
  {
    u := Apply(Apply(s, Sweep(CacheRow), max), Sweep(MarkRow), max);
    TwoSteps(s, Sweep(CacheRow), Sweep(MarkRow), max);
  }

  lemma TwoSteps(s: State, a: Step, b: Step, max: nat)
    requires max >= 1 && Enabled(s, a) && Enabled(Apply(s, a, max), b)
    ensures Path(s, [a, b], Apply(Apply(s, a, max), b, max), max)
  {
    var s' := Apply(Apply(s, a, max), b, max);
    assert Path(s', [], s', max);
    PathStep(Apply(s, a, max), b, [], s', max);
    PathStep(s, a, [b], s', max);
    assert [b] + [] == [b] && [a] + [b] == [a, b];
  }

  lemma {:induction false} PathStep(s: State, step: Step, steps: seq<Step>, s': State, max: nat)
    requires max >= 1 && Enabled(s, step) && Path(Apply(s, step, max), steps, s', max)
    ensures Path(s, [step] + steps, s', max)
  {
  }

  lemma StillOwedAhead(s: State, s': State, max: nat)
    requires Inv(s, max) && OwedAhead(s) && SweepAt(s)
    requires s'.sweeper == s.sweeper.(pos := s.sweeper.pos + 1)
    requires s'.table == Marked(Bumped(s.table, Turn(s).ph), Turn(s).ph)
    ensures OwedAhead(s')
  {
    assert RowInv(s, Turn(s), false, false);
    forall ph | ph in Owed(s'.table)
      ensures exists i :: s'.sweeper.pos <= i < |s'.sweeper.snapshot| && s'.sweeper.snapshot[i].ph == ph
    {
      assert ph in Owed(s.table) && ph != Turn(s).ph;
      var i :| s.sweeper.pos <= i < |s.sweeper.snapshot| && s.sweeper.snapshot[i].ph == ph;
    }
  }

  /** The rest of a sweep, row by row, with a working calendar and nothing between. */
  lemma {:induction false} SweepThrough(s: State, max: nat) returns (steps: seq<Step>, s': State)
    requires max >= 1 && Inv(s, max) && OwedAhead(s)
    ensures Path(s, steps, s', max) && OnlySweeps(steps)
    ensures Enabled(s', Sweep(End)) && Owed(s'.table) == {}
    decreases |s.sweeper.snapshot| - s.sweeper.pos
  {
    if SweepAt(s) {
      var turn, u := RowsTurn(s, max);
      RunsOnlyGrow(s, turn, u, max);
      StillOwedAhead(s, u, max);
      var rest;
      rest, s' := SweepThrough(u, max);
      PathJoins(s, turn, u, rest, s', max);
      steps := turn + rest;
    } else {
      steps, s' := [], s;
      assert forall ph :: ph !in Owed(s.table);
    }
  }

  /** The sweeper's own steps on its way through a snapshot, every stamp a success. */
  ghost predicate OnlySweeps(steps: seq<Step>) {
    forall i | 0 <= i < |steps| :: steps[i].Sweep? && !Interrupts(steps[i]) && !FailsAStamp(steps[i])
  }

  /** Progress: from every reachable state a crash, an unpause and one full sweep with
      a working calendar can follow, up to that sweep's end, with nothing owed. */
  lemma {:induction false} CrashThenSweepClears(s: State, max: nat)
      returns (rows: seq<Hash>, steps: seq<Step>, s': State)
    requires max >= 1 && Reachable(s, max)
    ensures Path(s, [World(Crash), World(SetPaused(false)), Sweep(Start(rows))] + steps, s', max)
    ensures OnlySweeps(steps) && Enabled(s', Sweep(End)) && Owed(s'.table) == {}
  {
    var s3;
    rows, s3 := SweepAfterCrash(s, max);
    steps, s' := SweepThrough(s3, max);
    PathJoins(s, [World(Crash), World(SetPaused(false)), Sweep(Start(rows))], s3, steps, s', max);
  }

  lemma {:induction false} SweepAfterCrash(s: State, max: nat) returns (rows: seq<Hash>, s': State)
    requires max >= 1 && Reachable(s, max)
    ensures Path(s, [World(Crash), World(SetPaused(false)), Sweep(Start(rows))], s', max)
    ensures Inv(s', max) && OwedAhead(s')
  {
    var s1 := Apply(s, World(Crash), max);
    var s2 := Apply(s1, World(SetPaused(false)), max);
    rows := Listing(Owed(s2.table));
    s' := Apply(s2, Sweep(Start(rows)), max);
    StartsWithAllOwed(s2, rows, max);
    assert Path(s', [], s', max);
    PathStep(s2, Sweep(Start(rows)), [], s', max);
    PathStep(s1, World(SetPaused(false)), [Sweep(Start(rows))], s', max);
    PathStep(s, World(Crash), [World(SetPaused(false)), Sweep(Start(rows))], s', max);
    assert [World(Crash)] + [World(SetPaused(false)), Sweep(Start(rows))]
        == [World(Crash), World(SetPaused(false)), Sweep(Start(rows))];
    assert [World(SetPaused(false))] + [Sweep(Start(rows))] == [World(SetPaused(false)), Sweep(Start(rows))];
    assert [Sweep(Start(rows))] + [] == [Sweep(Start(rows))];
    ReachableInv(s, max);
    RunsOnlyGrow(s, [World(Crash), World(SetPaused(false)), Sweep(Start(rows))], s', max);
  }

  lemma StartsWithAllOwed(s: State, rows: seq<Hash>, max: nat)
    requires max >= 1 && Enabled(s, Sweep(Start(rows)))
    ensures OwedAhead(Apply(s, Sweep(Start(rows)), max))
  {
    var s' := Apply(s, Sweep(Start(rows)), max);
    forall ph | ph in Owed(s.table)
      ensures exists i :: 0 <= i < |s'.sweeper.snapshot| && s'.sweeper.snapshot[i].ph == ph
    {
      var i :| 0 <= i < |rows| && rows[i] == ph;
      assert s'.sweeper.snapshot[i].ph == ph;
    }
  }

  lemma Listing(all: set<Hash>) returns (rows: seq<Hash>)
    ensures Lists(rows, all)
  {
    if all == {} {
      rows := [];
    } else {
      var ph :| ph in all;
      var rest := Listing(all - {ph});
      rows := rest + [ph];
    }
  }
}
