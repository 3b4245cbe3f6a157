/**
 Every interleaving of any number of callers of timedCache (internal/collector/cache.go): double-checked
 locking over a read/write lock, a clock that never goes backwards, and fetches that succeed or fail.

 A state carries, besides the cache, the lock and the program counters, the history of the run: the
 successful fetches and what every call returned. Buffers are addressed, so that a result handed out by
 reference can be told from a copy; callers may write into the copies they were given, and into a buffer
 that a miss handed out once a later fetch has replaced it.
 */
module CacheProtocol {
  import opened Numbers
  import opened ReadLock
  import opened TimedCache

  type Caller = nat
  type Bytes = seq<Byte>
  type Address = nat

  // ---- States ----

  /** Where a result in flight came from, and the time of the freshness test it rests on. */
  datatype Outcome =
    | Hit(copy: Address, at: int)
    | Fetched(buffer: Address, at: int)
    | Failed
    | Stale
    | Age(at: int, age: int)

  datatype Pc =
    | Idle
    | Testing                                    // read lock
    | Copying(at: int)                           // read lock
    | Ageing                                     // read lock
    | Releasing(outcome: Outcome)                // read lock
    | Waiting                                    // between RUnlock and Lock
    | Retesting                                  // write lock
    | CopyingLocked(at: int)                     // write lock
    | Fetching(started: int)                     // write lock
    | Storing(buffer: Address, started: int, done: int)   // write lock
    | Stamping(buffer: Address, started: int, done: int)  // write lock
    | Unlocking(outcome: Outcome)                // write lock

  /** Who may touch a buffer: the cache, one caller still inside its call, or a caller that got it back. */
  datatype Role = Shared | Private(caller: Caller) | Delivered

  datatype Cell = Cell(bytes: Bytes, role: Role)

  /** A successful fetch: when its freshness test ran, when it returned, when its result was stamped. */
  datatype Fetch = Fetch(buffer: Address, bytes: Bytes, started: int, done: int, stamp: int)

  /** A successful GetOrFetch: the test it rests on, and how many fetches had been stamped by then. */
  datatype Return = Return(caller: Caller, hit: bool, buffer: Address, bytes: Bytes, at: int, known: nat)

  datatype AgeReading = AgeReading(at: int, known: nat, age: int)

  datatype State = State(
    ttl: int,
    now: int,
    readers: nat,
    writer: Option<Caller>,
    data: Address,
    fetchAt: Option<int>,
    heap: seq<Cell>,
    pcs: map<Caller, Pc>,
    fetches: seq<Fetch>,
    results: seq<Return>,
    ages: seq<AgeReading>
  )

  predicate Init(s: State) {
    && s.readers == 0 && s.writer == None
    && s.heap == [Cell([], Shared)] && s.data == 0 && s.fetchAt == None
    && s.fetches == [] && s.results == [] && s.ages == []
    && forall i | i in s.pcs :: s.pcs[i] == Idle
  }

  predicate HoldsRead(pc: Pc) {
    pc.Testing? || pc.Copying? || pc.Ageing? || pc.Releasing?
  }

  predicate HoldsWrite(pc: Pc) {
    pc.Retesting? || pc.CopyingLocked? || pc.Fetching? || pc.Storing? || pc.Stamping? || pc.Unlocking?
  }

  // ---- Steps ----

  datatype Step =
    | Tick(to: int)
    | RLock(i: Caller)
    | Test(i: Caller)
    | Copy(i: Caller)
    | AgeRLock(i: Caller)
    | ReadAge(i: Caller)
    | RUnlock(i: Caller)
    | Lock(i: Caller)
    | Retest(i: Caller)
    | CopyLocked(i: Caller)
    | FetchSucceeds(i: Caller, bytes: Bytes)
    | FetchFails(i: Caller)
    | Store(i: Caller)
    | Stamp(i: Caller)
    | Unlock(i: Caller)
    | Scribble(copy: Address, bytes: Bytes)

  /**
   What callers may write to: the copy a hit gave them, and the buffer a miss gave them once the cache has
   moved on to another one.
   */
  predicate Writable(s: State, a: Address) {
    && a < |s.heap|
    && (s.heap[a].role == Delivered || (a != s.data && exists r | r in s.results :: !r.hit && r.buffer == a))
  }

  predicate Enabled(s: State, step: Step) {
    match step
    case Tick(to) => s.now <= to
    case Scribble(a, _) => Writable(s, a)
    case RLock(i) => i in s.pcs && s.pcs[i].Idle? && s.writer.None?
    case AgeRLock(i) => i in s.pcs && s.pcs[i].Idle? && s.writer.None?
    case Test(i) => i in s.pcs && s.pcs[i].Testing?
    case Copy(i) => i in s.pcs && s.pcs[i].Copying? && s.data < |s.heap|
    case ReadAge(i) => i in s.pcs && s.pcs[i].Ageing?
    case RUnlock(i) =>
      && i in s.pcs && s.pcs[i].Releasing? && s.readers > 0
      && (s.pcs[i].outcome.Hit? ==> s.pcs[i].outcome.copy < |s.heap|)
    case Lock(i) => i in s.pcs && s.pcs[i].Waiting? && s.writer.None? && s.readers == 0
    case Retest(i) => i in s.pcs && s.pcs[i].Retesting?
    case CopyLocked(i) => i in s.pcs && s.pcs[i].CopyingLocked? && s.data < |s.heap|
    case FetchSucceeds(i, _) => i in s.pcs && s.pcs[i].Fetching?
    case FetchFails(i) => i in s.pcs && s.pcs[i].Fetching?
    case Store(i) => i in s.pcs && s.pcs[i].Storing?
    case Stamp(i) => i in s.pcs && s.pcs[i].Stamping? && s.pcs[i].buffer < |s.heap|
    case Unlock(i) =>
      && i in s.pcs && s.pcs[i].Unlocking?
      && (s.pcs[i].outcome.Hit? ==> s.pcs[i].outcome.copy < |s.heap|)
      && (s.pcs[i].outcome.Fetched? ==> s.pcs[i].outcome.buffer < |s.heap|)
  }

  function At(s: State, i: Caller, pc: Pc): State {
    s.(pcs := s.pcs[i := pc])
  }

  /** A result reaches its caller; a copy becomes the caller's own. */
  function Deliver(s: State, i: Caller, outcome: Outcome): State
    requires outcome.Hit? ==> outcome.copy < |s.heap|
    requires outcome.Fetched? ==> outcome.buffer < |s.heap|
  {
    match outcome
    case Hit(a, at) =>
      s.(heap := s.heap[a := s.heap[a].(role := Delivered)],
         results := s.results + [Return(i, true, a, s.heap[a].bytes, at, |s.fetches|)])
    case Fetched(a, at) =>
      s.(results := s.results + [Return(i, false, a, s.heap[a].bytes, at, |s.fetches|)])
    case Age(at, age) =>
      s.(ages := s.ages + [AgeReading(at, |s.fetches|, age)])
    case _ => s
  }

  function Apply(s: State, step: Step): State
    requires Enabled(s, step)
  {
    match step
    case Tick(to) => s.(now := to)
    case Scribble(a, bytes) => s.(heap := s.heap[a := Cell(bytes, s.heap[a].role)])
    case RLock(i) => At(s, i, Testing).(readers := s.readers + 1)
    case AgeRLock(i) => At(s, i, Ageing).(readers := s.readers + 1)
    case Test(i) =>
      At(s, i, if Fresh(s.fetchAt, s.ttl, s.now) then Copying(s.now) else Releasing(Stale))
    case Copy(i) =>
      At(s, i, Releasing(Hit(|s.heap|, s.pcs[i].at))).(heap := s.heap + [Cell(s.heap[s.data].bytes, Private(i))])
    case ReadAge(i) =>
      At(s, i, Releasing(Age(s.now, if s.fetchAt.None? then -1 else s.now - s.fetchAt.value)))
    case RUnlock(i) =>
      var outcome := s.pcs[i].outcome;
      var s' := At(s, i, if outcome.Stale? then Waiting else Idle).(readers := s.readers - 1);
      if outcome.Fetched? then s' else Deliver(s', i, outcome)
    case Lock(i) => At(s, i, Retesting).(writer := Some(i))
    case Retest(i) =>
      At(s, i, if Fresh(s.fetchAt, s.ttl, s.now) then CopyingLocked(s.now) else Fetching(s.now))
    case CopyLocked(i) =>
      At(s, i, Unlocking(Hit(|s.heap|, s.pcs[i].at))).(heap := s.heap + [Cell(s.heap[s.data].bytes, Private(i))])
    case FetchSucceeds(i, bytes) =>
      At(s, i, Storing(|s.heap|, s.pcs[i].started, s.now)).(heap := s.heap + [Cell(bytes, Shared)])
    case FetchFails(i) => At(s, i, Unlocking(Failed))
    case Store(i) =>
      At(s, i, Stamping(s.pcs[i].buffer, s.pcs[i].started, s.pcs[i].done)).(data := s.pcs[i].buffer)
    case Stamp(i) =>
      var pc := s.pcs[i];
      At(s, i, Unlocking(Fetched(pc.buffer, pc.started))).(
        fetchAt := Some(s.now),
        fetches := s.fetches + [Fetch(pc.buffer, s.heap[pc.buffer].bytes, pc.started, pc.done, s.now)])
    case Unlock(i) => Deliver(At(s, i, Idle).(writer := None), i, s.pcs[i].outcome)
  }

  /** A run: a start state and steps each of which is enabled where it is taken. */
  predicate IsRun(s: State, steps: seq<Step>)
    decreases |steps|
  {
    steps == [] || (Enabled(s, steps[0]) && IsRun(Apply(s, steps[0]), steps[1..]))
  }

  function End(s: State, steps: seq<Step>): State
    requires IsRun(s, steps)
    decreases |steps|
  {
    if steps == [] then s else End(Apply(s, steps[0]), steps[1..])
  }

  // ---- The invariant ----

  function Readers(pcs: map<Caller, Pc>): set<Caller> {
    Holders(pcs, HoldsRead)
  }

  /** The lock: readers are counted, a writer excludes everyone else. */
  predicate LockInv(s: State) {
    && s.readers == |Readers(s.pcs)|
    && (s.writer.Some? ==> s.readers == 0 && s.writer.value in s.pcs)
    && (forall i | i in s.pcs :: HoldsWrite(s.pcs[i]) <==> s.writer == Some(i))
  }

  predicate Stamped(s: State) {
    s.writer.Some? && s.writer.value in s.pcs ==> !s.pcs[s.writer.value].Stamping?
  }

  /** The fetch log: each fetch starts at least ttl after the one before it was stamped. */
  predicate LogInv(s: State) {
    && (forall k | 0 <= k < |s.fetches| ::
          && s.fetches[k].started <= s.fetches[k].done <= s.fetches[k].stamp <= s.now
          && s.fetches[k].buffer < |s.heap|
          && s.heap[s.fetches[k].buffer].role == Shared)
    && (forall j, k | 0 <= j < k < |s.fetches| ::
          s.fetches[j].stamp + s.ttl <= s.fetches[k].started && s.fetches[j].buffer < s.fetches[k].buffer
          && s.fetches[j].stamp <= s.fetches[k].started)
  }

  /** The cache holds the latest successful fetch. */
  predicate DataInv(s: State) {
    && s.data < |s.heap| && s.heap[s.data].role == Shared
    && (s.fetches == [] ==> s.fetchAt == None)
    && (s.fetches != [] ==>
          var last := s.fetches[|s.fetches| - 1];
          && s.fetchAt == Some(last.stamp)
          && (Stamped(s) ==> s.data == last.buffer && s.heap[s.data].bytes == last.bytes))
  }

  /** A fetch that has started but is not yet in the log. */
  predicate PendingInv(s: State, started: int) {
    && started <= s.now
    && (s.fetches != [] ==>
          && s.fetches[|s.fetches| - 1].stamp + s.ttl <= started
          && s.fetches[|s.fetches| - 1].stamp <= started)
    && (forall r | r in s.results :: r.at <= started)
    && (forall a | a in s.ages :: a.at <= started)
  }

  /** A buffer that came out of a fetch after every logged one. */
  predicate NewBuffer(s: State, buffer: Address) {
    && buffer < |s.heap| && s.heap[buffer].role == Shared
    && (s.fetches != [] ==> s.fetches[|s.fetches| - 1].buffer < buffer)
  }

  predicate FreshTest(s: State, at: int) {
    && s.fetches != [] && s.fetches[|s.fetches| - 1].stamp <= at <= s.now
    && at - s.fetches[|s.fetches| - 1].stamp < s.ttl
  }

  predicate OutcomeInv(s: State, i: Caller, outcome: Outcome) {
    match outcome
    case Hit(a, at) =>
      FreshTest(s, at) && a < |s.heap| && s.heap[a] == Cell(s.fetches[|s.fetches| - 1].bytes, Private(i))
    case Fetched(a, at) =>
      && s.fetches != [] && s.fetches[|s.fetches| - 1].buffer == a && s.fetches[|s.fetches| - 1].started == at
    case Age(at, age) =>
      && at <= s.now
      && age == (if s.fetches == [] then -1 else at - s.fetches[|s.fetches| - 1].stamp)
      && (s.fetches != [] ==> s.fetches[|s.fetches| - 1].stamp <= at)
    case _ => true
  }

  predicate PcInv(s: State, i: Caller, pc: Pc) {
    match pc
    case Copying(at) => FreshTest(s, at)
    case CopyingLocked(at) => FreshTest(s, at)
    case Fetching(started) => PendingInv(s, started)
    case Storing(b, started, done) => PendingInv(s, started) && started <= done <= s.now && NewBuffer(s, b)
    case Stamping(b, started, done) =>
      PendingInv(s, started) && started <= done <= s.now && NewBuffer(s, b) && s.data == b
    case Releasing(outcome) => !outcome.Fetched? && !outcome.Failed? && OutcomeInv(s, i, outcome)
    case Unlocking(outcome) => !outcome.Stale? && !outcome.Age? && OutcomeInv(s, i, outcome)
    case _ => true
  }

  /** What a call returned: the bytes of the fetch that was the latest when its freshness test ran. */
  predicate ReturnOk(s: State, r: Return) {
    && 0 < r.known <= |s.fetches| && r.at <= s.now
    && r.bytes == s.fetches[r.known - 1].bytes
    && (forall k | r.known <= k < |s.fetches| :: r.at <= s.fetches[k].started)
    && r.buffer < |s.heap|
    && (if r.hit then
          && 0 <= r.at - s.fetches[r.known - 1].stamp < s.ttl
          && s.heap[r.buffer].role == Delivered
        else
          && r.at == s.fetches[r.known - 1].started
          && r.buffer == s.fetches[r.known - 1].buffer)
  }

  predicate AgeOk(s: State, a: AgeReading) {
    && a.known <= |s.fetches| && a.at <= s.now
    && a.age == (if a.known == 0 then -1 else a.at - s.fetches[a.known - 1].stamp)
    && (a.known > 0 ==> s.fetches[a.known - 1].stamp <= a.at)
    && (forall k | a.known <= k < |s.fetches| :: a.at <= s.fetches[k].started)
  }

  /** Every hit got a buffer of its own. */
  predicate HitsDiffer(results: seq<Return>) {
    forall j, k | 0 <= j < k < |results| && results[j].hit && results[k].hit :: results[j].buffer != results[k].buffer
  }

  predicate HistoryInv(s: State) {
    && LogInv(s)
    && (forall r | r in s.results :: ReturnOk(s, r))
    && HitsDiffer(s.results)
    && (forall a | a in s.ages :: AgeOk(s, a))
  }

  predicate PcsInv(s: State) {
    forall i | i in s.pcs :: PcInv(s, i, s.pcs[i])
  }

  predicate Inv(s: State) {
    LockInv(s) && HistoryInv(s) && DataInv(s) && PcsInv(s)
  }

  // ---- Every step keeps the invariant ----

  /** One caller moves, taking or giving back a lock that it may take. */
  lemma MoveKeepsLock(s: State, s': State, i: Caller)
    requires LockInv(s) && i in s.pcs && i in s'.pcs && s'.pcs == s.pcs[i := s'.pcs[i]]
    requires var before, after := s.pcs[i], s'.pcs[i];
             && s'.readers == s.readers + (if HoldsRead(after) then 1 else 0) - (if HoldsRead(before) then 1 else 0)
             && s'.writer == (if HoldsWrite(after) then Some(i) else if HoldsWrite(before) then None else s.writer)
             && (HoldsRead(after) && !HoldsRead(before) ==> s.writer.None?)
             && (HoldsWrite(after) && !HoldsWrite(before) ==> s.writer.None? && s.readers == 0)
    ensures LockInv(s')
  {
    HoldersChange(s.pcs, HoldsRead, i, s'.pcs[i]);
  }

  lemma LockKept(s: State, step: Step)
    requires LockInv(s) && Enabled(s, step)
    ensures LockInv(Apply(s, step))
  {
    if !step.Tick? && !step.Scribble? {
      MoveKeepsLock(s, Apply(s, step), step.i);
    }
  }

  /** s' has the history of s, a later clock, and every buffer of s as it was. */
  predicate Extends(s: State, s': State) {
    && s'.ttl == s.ttl && s.now <= s'.now
    && s'.fetches == s.fetches && s'.results == s.results && s'.ages == s.ages
    && |s.heap| <= |s'.heap| && (forall a | 0 <= a < |s.heap| :: s'.heap[a] == s.heap[a])
  }

  lemma HistoryFrame(s: State, s': State)
    requires HistoryInv(s) && Extends(s, s')
    ensures HistoryInv(s')
  {
    forall r | r in s'.results
      ensures ReturnOk(s', r)
    {
      assert ReturnOk(s, r);
    }
    forall a | a in s'.ages
      ensures AgeOk(s', a)
    {
      assert AgeOk(s, a);
    }
    hide ReturnOk, AgeOk;
  }

  lemma PcFrame(s: State, s': State, i: Caller, pc: Pc)
    requires HistoryInv(s) && Extends(s, s') && PcInv(s, i, pc)
    requires pc.Stamping? ==> s'.data == s.data
    ensures PcInv(s', i, pc)
  {
    if pc.Releasing? || pc.Unlocking? {
      assert OutcomeInv(s', i, pc.outcome);
    }
  }

  /** Only the program counter of i has moved; the others see an extension of what they saw. */
  lemma OthersFrame(s: State, s': State, i: Caller)
    requires HistoryInv(s) && PcsInv(s) && Extends(s, s')
    requires i in s.pcs && i in s'.pcs && s'.pcs == s.pcs[i := s'.pcs[i]] && PcInv(s', i, s'.pcs[i])
    requires forall j | j in s.pcs && j != i && s.pcs[j].Stamping? :: s'.data == s.data
    ensures PcsInv(s')
  {
    forall j | j in s'.pcs
      ensures PcInv(s', j, s'.pcs[j])
    {
      if j != i {
        PcFrame(s, s', j, s.pcs[j]);
      }
    }
  }

  lemma TickKept(s: State, to: int)
    requires Inv(s) && Enabled(s, Tick(to))
    ensures Inv(Apply(s, Tick(to)))
  {
    LockKept(s, Tick(to));
    var s' := Apply(s, Tick(to));
    HistoryFrame(s, s');
    forall i | i in s'.pcs
      ensures PcInv(s', i, s'.pcs[i])
    {
      PcFrame(s, s', i, s.pcs[i]);
    }
  }

  lemma MovedPc(s: State, step: Step)
    requires Inv(s) && Enabled(s, step)
    requires step.RLock? || step.AgeRLock? || step.Test? || step.ReadAge? || step.Lock? || step.Retest?
             || step.FetchFails?
    ensures PcInv(Apply(s, step), step.i, Apply(s, step).pcs[step.i])
  {
  }

  /** Steps that move one program counter and touch nothing of the data. */
  lemma MoveKept(s: State, step: Step)
    requires Inv(s) && Enabled(s, step)
    requires step.RLock? || step.AgeRLock? || step.Test? || step.ReadAge? || step.Lock? || step.Retest?
             || step.FetchFails?
    ensures Inv(Apply(s, step))
  {
    hide LockInv, HistoryInv, PcInv;
    LockKept(s, step);
    var s' := Apply(s, step);
    HistoryFrame(s, s');
    assert PcInv(s, step.i, s.pcs[step.i]);
    MovedPc(s, step);
    OthersFrame(s, s', step.i);
  }

  lemma HolderSeesStamped(s: State, i: Caller)
    requires LockInv(s) && i in s.pcs && !s.pcs[i].Stamping? && (HoldsRead(s.pcs[i]) || HoldsWrite(s.pcs[i]))
    ensures Stamped(s)
  {
    HoldersChange(s.pcs, HoldsRead, i, s.pcs[i]);
  }

  lemma CopyKept(s: State, step: Step)
    requires Inv(s) && Enabled(s, step)
    requires step.Copy? || step.CopyLocked?
    ensures Inv(Apply(s, step))
  {
    hide HistoryInv, LockInv;
    LockKept(s, step);
    var s' := Apply(s, step);
    assert PcInv(s, step.i, s.pcs[step.i]);
    HolderSeesStamped(s, step.i);
    HistoryFrame(s, s');
    OthersFrame(s, s', step.i);
  }

  lemma FetchKept(s: State, i: Caller, bytes: Bytes)
    requires Inv(s) && Enabled(s, FetchSucceeds(i, bytes))
    ensures Inv(Apply(s, FetchSucceeds(i, bytes)))
  {
    hide HistoryInv;
    LockKept(s, FetchSucceeds(i, bytes));
    var s' := Apply(s, FetchSucceeds(i, bytes));
    assert PcInv(s, i, s.pcs[i]);
    HistoryFrame(s, s');
    OthersFrame(s, s', i);
  }

  lemma StoreKept(s: State, i: Caller)
    requires Inv(s) && Enabled(s, Store(i))
    ensures Inv(Apply(s, Store(i)))
  {
    hide HistoryInv;
    LockKept(s, Store(i));
    var s' := Apply(s, Store(i));
    assert PcInv(s, i, s.pcs[i]);
    HistoryFrame(s, s');
    assert s.writer == Some(i);
    OthersFrame(s, s', i);
  }

  lemma NoReadersUnderWriter(s: State)
    requires LockInv(s) && s.writer.Some?
    ensures forall j | j in s.pcs :: !HoldsRead(s.pcs[j])
  {
    assert Readers(s.pcs) == {};
    forall j | j in s.pcs
      ensures !HoldsRead(s.pcs[j])
    {
      assert j !in Readers(s.pcs);
    }
  }

  lemma StampedLog(s: State, i: Caller)
    requires LogInv(s) && Enabled(s, Stamp(i)) && PcInv(s, i, s.pcs[i])
    ensures LogInv(Apply(s, Stamp(i)))
  {
    var s' := Apply(s, Stamp(i));
    var n := |s.fetches|;
    forall j | 0 <= j < n
      ensures s'.fetches[j].stamp + s'.ttl <= s'.fetches[n].started
      ensures s'.fetches[j].stamp <= s'.fetches[n].started
      ensures s'.fetches[j].buffer < s'.fetches[n].buffer
    {
      assert s.fetches[j].stamp <= s.fetches[n - 1].stamp by {
        if j < n - 1 {
          assert s.fetches[j].stamp <= s.fetches[n - 1].started;
        }
      }
    }
  }

  lemma StampedHistory(s: State, i: Caller)
    requires Inv(s) && Enabled(s, Stamp(i)) && PcInv(s, i, s.pcs[i])
    ensures HistoryInv(Apply(s, Stamp(i)))
  {
    var s' := Apply(s, Stamp(i));
    StampedLog(s, i);
    forall r | r in s'.results
      ensures ReturnOk(s', r)
    {
      assert ReturnOk(s, r);
    }
    forall a | a in s'.ages
      ensures AgeOk(s', a)
    {
      assert AgeOk(s, a);
    }
  }

  lemma StampKept(s: State, i: Caller)
    requires Inv(s) && Enabled(s, Stamp(i))
    ensures Inv(Apply(s, Stamp(i)))
  {
    hide HistoryInv, LogInv;
    LockKept(s, Stamp(i));
    var s' := Apply(s, Stamp(i));
    assert PcInv(s, i, s.pcs[i]);
    StampedHistory(s, i);
    NoReadersUnderWriter(s);
    forall j | j in s'.pcs
      ensures PcInv(s', j, s'.pcs[j])
    {
      assert j != i ==> !HoldsWrite(s.pcs[j]) && !HoldsRead(s.pcs[j]);
    }
  }

  /** A writable buffer is a copy that was delivered, or that of a logged fetch, and not the cache's own. */
  lemma WritableRole(s: State, a: Address)
    requires HistoryInv(s) && Writable(s, a)
    ensures a < |s.heap| && (s.heap[a].role == Delivered || (s.heap[a].role == Shared && a != s.data))
  {
    if s.heap[a].role != Delivered {
      var r :| r in s.results && !r.hit && r.buffer == a;
      assert ReturnOk(s, r);
    }
  }

  lemma ScribbledHistory(s: State, a: Address, bytes: Bytes)
    requires HistoryInv(s) && Enabled(s, Scribble(a, bytes))
    ensures HistoryInv(Apply(s, Scribble(a, bytes)))
  {
    var s' := Apply(s, Scribble(a, bytes));
    assert LogInv(s');
    forall r | r in s'.results
      ensures ReturnOk(s', r)
    {
      assert ReturnOk(s, r);
    }
    forall reading | reading in s'.ages
      ensures AgeOk(s', reading)
    {
      assert AgeOk(s, reading);
    }
  }

  lemma ScribbledPc(s: State, a: Address, bytes: Bytes, i: Caller)
    requires Enabled(s, Scribble(a, bytes)) && i in s.pcs && PcInv(s, i, s.pcs[i])
    requires s.heap[a].role == Delivered || s.heap[a].role == Shared
    ensures PcInv(Apply(s, Scribble(a, bytes)), i, s.pcs[i])
  {
    var s', pc := Apply(s, Scribble(a, bytes)), s.pcs[i];
    if pc.Releasing? || pc.Unlocking? {
      assert OutcomeInv(s', i, pc.outcome);
    }
  }

  /** Writing to a writable buffer reaches neither the cache, nor a logged fetch, nor a result in flight. */
  lemma ScribbleKept(s: State, a: Address, bytes: Bytes)
    requires Inv(s) && Enabled(s, Scribble(a, bytes))
    ensures Inv(Apply(s, Scribble(a, bytes)))
  {
    hide HistoryInv, PcInv, Writable;
    LockKept(s, Scribble(a, bytes));
    var s' := Apply(s, Scribble(a, bytes));
    WritableRole(s, a);
    ScribbledHistory(s, a, bytes);
    forall i | i in s'.pcs
      ensures PcInv(s', i, s'.pcs[i])
    {
      assert PcInv(s, i, s.pcs[i]);
      ScribbledPc(s, a, bytes, i);
    }
  }

  lemma ReleasedData(s: State, step: Step)
    requires LockInv(s) && DataInv(s) && Enabled(s, step) && (step.RUnlock? || step.Unlock?)
    requires PcInv(s, step.i, s.pcs[step.i])
    ensures DataInv(Apply(s, step))
  {
    HolderSeesStamped(s, step.i);
    assert OutcomeInv(s, step.i, s.pcs[step.i].outcome);
  }

  /** The others do not notice a release: no fetch is pending while a reader, or another writer, holds on. */
  lemma ReleasedPc(s: State, step: Step, j: Caller)
    requires Inv(s) && Enabled(s, step) && (step.RUnlock? || step.Unlock?)
    requires PcInv(s, step.i, s.pcs[step.i])
    requires j in s.pcs && j != step.i && PcInv(s, j, s.pcs[j])
    ensures PcInv(Apply(s, step), j, s.pcs[j])
  {
    hide HistoryInv, DataInv, PcsInv;
    var s', pc := Apply(s, step), s.pcs[j];
    assert OutcomeInv(s, step.i, s.pcs[step.i].outcome);
    if step.RUnlock? {
      assert step.i in Readers(s.pcs);
    }
    assert !HoldsWrite(pc);
    if pc.Releasing? {
      assert OutcomeInv(s', j, pc.outcome);
    }
  }

  lemma ReleasedPcs(s: State, step: Step)
    requires Inv(s) && Enabled(s, step) && (step.RUnlock? || step.Unlock?)
    ensures PcsInv(Apply(s, step))
  {
    hide HistoryInv, DataInv;
    var s' := Apply(s, step);
    forall j | j in s'.pcs
      ensures PcInv(s', j, s'.pcs[j])
    {
      if j != step.i {
        ReleasedPc(s, step, j);
      }
    }
  }

  lemma ReleasedOldResult(s: State, step: Step, r: Return)
    requires Enabled(s, step) && (step.RUnlock? || step.Unlock?) && ReturnOk(s, r)
    ensures ReturnOk(Apply(s, step), r)
  {
  }

  lemma ReleasedOldAge(s: State, step: Step, a: AgeReading)
    requires Enabled(s, step) && (step.RUnlock? || step.Unlock?) && AgeOk(s, a)
    ensures AgeOk(Apply(s, step), a)
  {
  }

  lemma ReleasedLog(s: State, step: Step)
    requires LogInv(s) && Enabled(s, step) && (step.RUnlock? || step.Unlock?)
    requires PcInv(s, step.i, s.pcs[step.i])
    ensures LogInv(Apply(s, step))
  {
    assert OutcomeInv(s, step.i, s.pcs[step.i].outcome);
  }

  lemma ReleasedHits(s: State, step: Step)
    requires HistoryInv(s) && Enabled(s, step) && (step.RUnlock? || step.Unlock?)
    requires OutcomeInv(s, step.i, s.pcs[step.i].outcome)
    ensures HitsDiffer(Apply(s, step).results)
  {
    hide LogInv;
    var results := Apply(s, step).results;
    forall j | 0 <= j < |s.results|
      ensures ReturnOk(s, s.results[j])
    {
      assert s.results[j] in s.results;
    }
  }

  lemma ReleasedAge(s: State, step: Step, a: AgeReading)
    requires LogInv(s) && Enabled(s, step) && (step.RUnlock? || step.Unlock?)
    requires OutcomeInv(s, step.i, s.pcs[step.i].outcome)
    requires a in Apply(s, step).ages && a !in s.ages
    ensures AgeOk(Apply(s, step), a)
  {
  }

  lemma ReleasedResult(s: State, step: Step, r: Return)
    requires LogInv(s) && Enabled(s, step) && (step.RUnlock? || step.Unlock?)
    requires OutcomeInv(s, step.i, s.pcs[step.i].outcome) && DataInv(s) && Stamped(s)
    requires r in Apply(s, step).results && r !in s.results
    ensures ReturnOk(Apply(s, step), r)
  {
  }

  lemma ReleasedHistory(s: State, step: Step)
    requires Inv(s) && Enabled(s, step) && (step.RUnlock? || step.Unlock?)
    requires PcInv(s, step.i, s.pcs[step.i])
    ensures HistoryInv(Apply(s, step))
  {
    hide LogInv, LockInv, DataInv, PcsInv, OutcomeInv, ReturnOk, AgeOk, HitsDiffer;
    assert OutcomeInv(s, step.i, s.pcs[step.i].outcome);
    HolderSeesStamped(s, step.i);
    ReleasedLog(s, step);
    ReleasedHits(s, step);
    var s' := Apply(s, step);
    forall r | r in s'.results
      ensures ReturnOk(s', r)
    {
      if r in s.results {
        ReleasedOldResult(s, step, r);
      } else {
        ReleasedResult(s, step, r);
      }
    }
    forall a | a in s'.ages
      ensures AgeOk(s', a)
    {
      if a in s.ages {
        ReleasedOldAge(s, step, a);
      } else {
        ReleasedAge(s, step, a);
      }
    }
  }

  lemma ReleaseKept(s: State, step: Step)
    requires Inv(s) && Enabled(s, step)
    requires step.RUnlock? || step.Unlock?
    ensures Inv(Apply(s, step))
  {
    LockKept(s, step);
    assert PcInv(s, step.i, s.pcs[step.i]);
    ReleasedData(s, step);
    ReleasedHistory(s, step);
    ReleasedPcs(s, step);
  }

  lemma InvKept(s: State, step: Step)
    requires Inv(s) && Enabled(s, step)
    ensures Inv(Apply(s, step))
  {
    hide Inv, Apply;
    match step
    case Tick(to) => TickKept(s, to);
    case Scribble(a, bytes) => ScribbleKept(s, a, bytes);
    case Copy(_) => CopyKept(s, step);
    case CopyLocked(_) => CopyKept(s, step);
    case FetchSucceeds(i, bytes) => FetchKept(s, i, bytes);
    case Store(i) => StoreKept(s, i);
    case Stamp(i) => StampKept(s, i);
    case RUnlock(_) => ReleaseKept(s, step);
    case Unlock(_) => ReleaseKept(s, step);
    case _ => MoveKept(s, step);
  }

  lemma {:induction false} RunKeepsInv(s: State, steps: seq<Step>)
    requires Inv(s) && IsRun(s, steps)
    ensures Inv(End(s, steps))
    decreases |steps|
  {
    if steps == [] {
    } else {
      InvKept(s, steps[0]);
      RunKeepsInv(Apply(s, steps[0]), steps[1..]);
    }
  }

  lemma InitInv(s: State)
    requires Init(s)
    ensures Inv(s)
  {
    assert Readers(s.pcs) == {};
  }

  // ---- What holds in every run ----

  /** At most one fetch is in flight, and while it is, nobody holds the read lock. */
  lemma MutualExclusion(s: State, steps: seq<Step>, i: Caller, j: Caller)
    requires Init(s) && IsRun(s, steps)
    requires i in End(s, steps).pcs && j in End(s, steps).pcs && i != j
    requires HoldsWrite(End(s, steps).pcs[i])
    ensures !HoldsWrite(End(s, steps).pcs[j]) && !HoldsRead(End(s, steps).pcs[j])
    ensures End(s, steps).readers == 0
  {
    InitInv(s);
    RunKeepsInv(s, steps);
    NoReadersUnderWriter(End(s, steps));
  }

  lemma {:induction false} RunKeepsTtl(s: State, steps: seq<Step>)
    requires IsRun(s, steps)
    ensures End(s, steps).ttl == s.ttl
    decreases |steps|
  {
    if steps == [] {
    } else {
      RunKeepsTtl(Apply(s, steps[0]), steps[1..]);
    }
  }

  /** Successful fetches are at least ttl apart, whether one looks at their return or at their stamp. */
  lemma FetchesAreSpaced(s: State, steps: seq<Step>, j: nat, k: nat)
    requires Init(s) && IsRun(s, steps) && j < k < |End(s, steps).fetches|
    ensures var fetches := End(s, steps).fetches;
            && fetches[k].done - fetches[j].done >= s.ttl
            && fetches[k].stamp - fetches[j].stamp >= s.ttl
            && fetches[k].started - fetches[j].stamp >= s.ttl
  {
    InitInv(s);
    RunKeepsInv(s, steps);
    RunKeepsTtl(s, steps);
  }

  /** The number of fetches that returned within a window of time. */
  function CountWithin(fetches: seq<Fetch>, from: int, to: int): nat {
    if fetches == [] then 0 else
    var last := fetches[|fetches| - 1];
    CountWithin(fetches[..|fetches| - 1], from, to) + if from <= last.done <= to then 1 else 0
  }

  predicate Spaced(fetches: seq<Fetch>, ttl: int) {
    forall j, k | 0 <= j < k < |fetches| :: fetches[k].done - fetches[j].done >= ttl
  }

  lemma {:induction false} NarrowWindow(fetches: seq<Fetch>, from: int, to: int, bound: int)
    requires forall k | 0 <= k < |fetches| :: fetches[k].done <= bound
    requires bound <= to
    ensures CountWithin(fetches, from, to) == CountWithin(fetches, from, bound)
  {
    if fetches == [] {
    } else {
      NarrowWindow(fetches[..|fetches| - 1], from, to, bound);
    }
  }

  lemma {:induction false} SpacedCount(fetches: seq<Fetch>, ttl: int, from: int, to: int)
    requires ttl > 0 && Spaced(fetches, ttl)
    ensures var n := CountWithin(fetches, from, to); n > 0 ==> (n - 1) * ttl <= to - from
  {
    if fetches == [] {
    } else {
      var front, last := fetches[..|fetches| - 1], fetches[|fetches| - 1];
      if from <= last.done <= to {
        NarrowWindow(front, from, to, last.done - ttl);
        SpacedCount(front, ttl, from, last.done - ttl);
        var n := CountWithin(front, from, to);
        assert n * ttl == (n - 1) * ttl + ttl;
      } else {
        SpacedCount(front, ttl, from, to);
      }
    }
  }

  lemma DivisionBound(n: int, w: nat, ttl: int)
    requires ttl > 0 && n * ttl <= w
    ensures n <= w / ttl
  {
    var q := w / ttl;
    assert w < q * ttl + ttl;
    assert n <= q by {
      assert (n - q - 1) * ttl == n * ttl - (q * ttl + ttl);
      assert (n - q - 1) * ttl < 0;
    }
  }

  /** Any window of length w holds at most w / ttl + 1 successful fetches. */
  lemma WindowBound(s: State, steps: seq<Step>, from: int, w: nat)
    requires Init(s) && IsRun(s, steps) && s.ttl > 0
    ensures CountWithin(End(s, steps).fetches, from, from + w) <= w / s.ttl + 1
  {
    hide IsRun, End, Init;
    var fetches := End(s, steps).fetches;
    forall j, k | 0 <= j < k < |fetches|
      ensures fetches[k].done - fetches[j].done >= s.ttl
    {
      FetchesAreSpaced(s, steps, j, k);
    }
    SpacedCount(fetches, s.ttl, from, from + w);
    var n := CountWithin(fetches, from, from + w);
    if n > 0 {
      DivisionBound(n - 1, w, s.ttl);
    }
  }

  /** fetches[k] is the latest fetch stamped by the time at. */
  predicate LatestAt(fetches: seq<Fetch>, k: int, at: int) {
    && 0 <= k < |fetches| && fetches[k].stamp <= at
    && forall m | k < m < |fetches| :: at <= fetches[m].started
  }

  /**
   Every successful call returned the bytes of one successful fetch. For a hit it is the latest at the
   time of its freshness test, less than ttl old, in a buffer the cache does not use. For a miss it is
   the fetch the call made, in the very buffer the cache keeps, until a later fetch replaces it.
   */
  lemma ResultsAreLatest(s: State, steps: seq<Step>, r: Return)
    requires Init(s) && IsRun(s, steps) && r in End(s, steps).results
    ensures var end := End(s, steps);
            && 0 < r.known <= |end.fetches|
            && var f := end.fetches[r.known - 1];
            && r.bytes == f.bytes
            && (r.hit ==> LatestAt(end.fetches, r.known - 1, r.at) && r.at - f.stamp < s.ttl)
            && (!r.hit ==> r.at == f.started && r.buffer == f.buffer)
            && (Stamped(end) ==> (r.buffer == end.data <==> !r.hit && r.known == |end.fetches|))
  {
    InitInv(s);
    RunKeepsInv(s, steps);
    RunKeepsTtl(s, steps);
    assert ReturnOk(End(s, steps), r);
  }

  /** A hit's buffer belongs to its caller alone: no other call got it, and the cache does not keep it. */
  lemma HitsShareNothing(s: State, steps: seq<Step>, j: nat, k: nat)
    requires Init(s) && IsRun(s, steps) && j != k
    requires j < |End(s, steps).results| && k < |End(s, steps).results| && End(s, steps).results[j].hit
    ensures End(s, steps).results[j].buffer != End(s, steps).results[k].buffer
    ensures End(s, steps).results[j].buffer != End(s, steps).data
  {
    InitInv(s);
    RunKeepsInv(s, steps);
    var end := End(s, steps);
    assert end.results[j] in end.results && end.results[k] in end.results;
    assert ReturnOk(end, end.results[j]) && ReturnOk(end, end.results[k]);
  }

  /** AgeSeconds reads -1 exactly when no fetch had been stamped by then, and otherwise the age of the latest. */
  lemma AgesAreExact(s: State, steps: seq<Step>, a: AgeReading)
    requires Init(s) && IsRun(s, steps) && a in End(s, steps).ages
    ensures var fetches := End(s, steps).fetches;
            && (a.age == -1 <==> a.known == 0)
            && (a.known == 0 ==> forall k | 0 <= k < |fetches| :: a.at <= fetches[k].started)
            && (a.known > 0 ==> LatestAt(fetches, a.known - 1, a.at) && a.age == a.at - fetches[a.known - 1].stamp)
  {
    InitInv(s);
    RunKeepsInv(s, steps);
    assert AgeOk(End(s, steps), a);
  }

  lemma RunCons(s: State, steps: seq<Step>)
    requires steps != [] && Enabled(s, steps[0]) && IsRun(Apply(s, steps[0]), steps[1..])
    ensures IsRun(s, steps) && End(s, steps) == End(Apply(s, steps[0]), steps[1..])
  {
  }

  /** A failed fetch leaves no trace: once it has released the lock only its own program counter differs. */
  lemma FailedFetchLeavesNoTrace(s: State, i: Caller)
    requires Inv(s) && i in s.pcs && s.pcs[i].Fetching?
    ensures IsRun(s, [FetchFails(i), Unlock(i)])
    ensures End(s, [FetchFails(i), Unlock(i)]) == s.(writer := None, pcs := s.pcs[i := Idle])
  {
    var steps := [FetchFails(i), Unlock(i)];
    var s1 := Apply(s, FetchFails(i));
    var s2 := Apply(s1, Unlock(i));
    assert s1.pcs[i := Idle] == s.pcs[i := Idle];
    assert IsRun(s2, []);
    RunCons(s1, steps[1..]);
    RunCons(s, steps);
  }

  /** So the ttl does not limit failures: another caller may reach its fetch without the clock moving. */
  lemma RefetchAtOnce(s: State, j: Caller)
    requires s.writer == None && s.readers == 0 && j in s.pcs && s.pcs[j].Idle? && !Fresh(s.fetchAt, s.ttl, s.now)
    ensures var steps := [RLock(j), Test(j), RUnlock(j), Lock(j), Retest(j)];
            IsRun(s, steps) && End(s, steps) == s.(writer := Some(j), pcs := s.pcs[j := Fetching(s.now)])
  {
    var steps := [RLock(j), Test(j), RUnlock(j), Lock(j), Retest(j)];
    var s1 := Apply(s, RLock(j));
    var s2 := Apply(s1, Test(j));
    var s3 := Apply(s2, RUnlock(j));
    var s4 := Apply(s3, Lock(j));
    var s5 := Apply(s4, Retest(j));
    assert s5 == s.(writer := Some(j), pcs := s5.pcs) && s5.pcs == s.pcs[j := Fetching(s.now)];
    assert Enabled(s1, Test(j)) && Enabled(s2, RUnlock(j)) && Enabled(s3, Lock(j)) && Enabled(s4, Retest(j));
    hide Enabled, Apply;
    assert IsRun(s5, []);
    RunCons(s4, steps[4..]);
    RunCons(s3, steps[3..]);
    RunCons(s2, steps[2..]);
    RunCons(s1, steps[1..]);
    RunCons(s, steps);
  }

  lemma RunOfFour(s: State, a: Step, b: Step, c: Step, d: Step)
    requires Enabled(s, a) && Enabled(Apply(s, a), b) && Enabled(Apply(Apply(s, a), b), c)
    requires Enabled(Apply(Apply(Apply(s, a), b), c), d)
    ensures IsRun(s, [a, b, c, d]) && End(s, [a, b, c, d]) == Apply(Apply(Apply(Apply(s, a), b), c), d)
  {
    hide Enabled, Apply;
    var steps := [a, b, c, d];
    var s3 := Apply(Apply(Apply(s, a), b), c);
    assert IsRun(Apply(s3, d), []);
    RunCons(s3, steps[3..]);
    RunCons(Apply(Apply(s, a), b), steps[2..]);
    RunCons(Apply(s, a), steps[1..]);
    RunCons(s, steps);
  }

  /** A successful fetch becomes the cached data, is stamped, and is handed out as the very buffer it is kept in. */
  lemma SuccessfulFetchIsKept(s: State, i: Caller, bytes: Bytes)
    requires i in s.pcs && s.pcs[i].Fetching?
    ensures var steps := [FetchSucceeds(i, bytes), Store(i), Stamp(i), Unlock(i)];
            var buffer := |s.heap|;
            && IsRun(s, steps)
            && End(s, steps) == s.(writer := None, pcs := s.pcs[i := Idle], heap := s.heap + [Cell(bytes, Shared)],
                                   data := buffer, fetchAt := Some(s.now),
                                   fetches := s.fetches + [Fetch(buffer, bytes, s.pcs[i].started, s.now, s.now)],
                                   results := s.results + [
                                     Return(i, false, buffer, bytes, s.pcs[i].started, |s.fetches| + 1)])
  {
    hide IsRun, End;
    var s1 := Apply(s, FetchSucceeds(i, bytes));
    var s2 := Apply(s1, Store(i));
    var s3 := Apply(s2, Stamp(i));
    assert Apply(s3, Unlock(i)).pcs == s.pcs[i := Idle];
    RunOfFour(s, FetchSucceeds(i, bytes), Store(i), Stamp(i), Unlock(i));
  }

  /**
   The sharing matters: a caller that writes into the buffer a miss gave it changes what the next hit
   returns. (The runs above let callers write only to what is Writable.)
   */
  lemma WritingToSharedBufferCorrupts(s: State, i: Caller, bytes: Bytes)
    requires s.data < |s.heap| && s.writer == None && i in s.pcs && s.pcs[i] == Idle && Fresh(s.fetchAt, s.ttl, s.now)
    ensures var corrupted := s.(heap := s.heap[s.data := Cell(bytes, Shared)]);
            var steps := [RLock(i), Test(i), Copy(i), RUnlock(i)];
            && IsRun(corrupted, steps)
            && var results := End(corrupted, steps).results;
            results != [] && results[|results| - 1].hit && results[|results| - 1].bytes == bytes
  {
    hide IsRun, End;
    var s0 := s.(heap := s.heap[s.data := Cell(bytes, Shared)]);
    var s2 := Apply(Apply(s0, RLock(i)), Test(i));
    assert s2.pcs[i] == Copying(s.now);
    RunOfFour(s0, RLock(i), Test(i), Copy(i), RUnlock(i));
  }

  lemma {:induction false} RunConcat(s: State, a: seq<Step>, b: seq<Step>)
    requires IsRun(s, a) && IsRun(End(s, a), b)
    ensures IsRun(s, a + b) && End(s, a + b) == End(End(s, a), b)
    decreases |a|
  {
    hide Enabled, Apply;
    if a == [] {
      assert a + b == b;
    } else {
      RunConcat(Apply(s, a[0]), a[1..], b);
      assert (a + b)[1..] == a[1..] + b;
      RunCons(s, a + b);
    }
  }

  function ToFetch(i: Caller): seq<Step> {
    [RLock(i), Test(i), RUnlock(i), Lock(i), Retest(i)]
  }

  function FromFetch(i: Caller, bytes: Bytes): seq<Step> {
    [FetchSucceeds(i, bytes), Store(i), Stamp(i), Unlock(i)]
  }

  /** A whole call that misses: the caller ends up idle, holding the buffer that the cache keeps. */
  lemma MissHandsOutKept(s: State, i: Caller, bytes: Bytes)
    requires s.writer == None && s.readers == 0 && i in s.pcs && s.pcs[i] == Idle && !Fresh(s.fetchAt, s.ttl, s.now)
    ensures IsRun(s, ToFetch(i) + FromFetch(i, bytes))
    ensures var kept := End(s, ToFetch(i) + FromFetch(i, bytes));
            && kept.data == |s.heap| && kept.heap == s.heap + [Cell(bytes, Shared)]
            && kept.writer == None && kept.pcs == s.pcs && kept.fetchAt == Some(kept.now)
            && kept.ttl == s.ttl && kept.now == s.now
            && kept.results == s.results + [Return(i, false, kept.data, bytes, s.now, |s.fetches| + 1)]
  {
    hide IsRun, End, Enabled, Apply;
    RefetchAtOnce(s, i);
    var mid := End(s, ToFetch(i));
    SuccessfulFetchIsKept(mid, i, bytes);
    assert mid.pcs[i := Idle] == s.pcs;
    RunConcat(s, ToFetch(i), FromFetch(i, bytes));
  }

  /**
   So such a write is within reach. After any run that leaves the lock free and the data stale, a call may miss;
   if its caller then writes to the buffer it was given, the next hit, whosever it is, returns what was written.
   */
  lemma MissThenWriteCorrupts(s: State, steps: seq<Step>, i: Caller, j: Caller, fetched: Bytes, written: Bytes)
    requires Init(s) && IsRun(s, steps) && s.ttl > 0
    requires var before := End(s, steps);
             && before.writer == None && before.readers == 0 && !Fresh(before.fetchAt, before.ttl, before.now)
             && i in before.pcs && before.pcs[i] == Idle && j in before.pcs && before.pcs[j] == Idle
    ensures var more := steps + (ToFetch(i) + FromFetch(i, fetched));
            && IsRun(s, more)
            && var kept := End(s, more);
            && kept.results != [] && i in kept.pcs && kept.pcs[i] == Idle
            && kept.results[|kept.results| - 1].caller == i && kept.results[|kept.results| - 1].buffer == kept.data
            && kept.data < |kept.heap|
            && var corrupted := kept.(heap := kept.heap[kept.data := Cell(written, Shared)]);
            var hit := [RLock(j), Test(j), Copy(j), RUnlock(j)];
            && IsRun(corrupted, hit)
            && var results := End(corrupted, hit).results;
            results != [] && results[|results| - 1].hit && results[|results| - 1].bytes == written
  {
    hide IsRun, End, Enabled, Apply;
    var before := End(s, steps);
    MissHandsOutKept(before, i, fetched);
    RunConcat(s, steps, ToFetch(i) + FromFetch(i, fetched));
    RunKeepsTtl(s, steps);
    WritingToSharedBufferCorrupts(End(s, steps + (ToFetch(i) + FromFetch(i, fetched))), j, written);
  }
}
