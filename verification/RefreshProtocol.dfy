/**
 Every interleaving of the refresh goroutine of SacctEfficiencyCollector, its cancellation and any number
 of scrapes (internal/collector/sacct_efficiency.go). The command is an oracle that returns text or fails;
 the ticker may fire whenever the goroutine waits for it.
 */
module RefreshProtocol {
  import opened Numbers
  import opened Exposition
  import opened ReadLock
  import SacctRecords
  import SacctRefresh

  type Scraper = nat

  /** The goroutine launched by Start. */
  datatype Pc =
    | NotStarted
    | Refreshing                        // the command is running
    | Locking(data: string, metrics: seq<Series>)
    | Caching(data: string, metrics: seq<Series>)    // write lock
    | Stamping(data: string, metrics: seq<Series>)   // write lock
    | Unlocking                         // write lock
    | Selecting
    | Returning                         // on its way out, done not yet closed
    | Exited

  datatype ScrapePc =
    | Idle
    | Emitting(k: nat, out: seq<Series>, at: int)                   // read lock
    | Releasing(out: seq<Series>, stamp: Option<int>, at: int)      // read lock

  /** One successful refresh: the command output, the metrics computed from it, and its timestamp. */
  datatype Publication = Publication(data: string, metrics: seq<Series>, at: int)

  /** One finished Collect: the metrics and timestamp it sent, and when it held the lock. */
  datatype Scrape = Scrape(out: seq<Series>, stamp: Option<int>, at: int, known: nat)

  datatype State = State(
    now: int,
    pc: Pc,
    cancelled: bool,
    done: bool,
    attempts: nat,
    readers: nat,
    writer: bool,
    cached: seq<Series>,
    lastRefresh: Option<int>,
    scrapes: map<Scraper, ScrapePc>,
    published: seq<Publication>,
    collected: seq<Scrape>
  )

  predicate Init(s: State) {
    && s.pc == NotStarted && !s.done && s.attempts == 0
    && s.readers == 0 && !s.writer && s.cached == [] && s.lastRefresh == None
    && s.published == [] && s.collected == []
    && forall i | i in s.scrapes :: s.scrapes[i] == Idle
  }

  datatype Step =
    | Clock(to: int)
    | Cancel
    | Start
    | RefreshFails
    | RefreshSucceeds(data: string, metrics: seq<Series>)
    | Lock
    | SetCached
    | SetStamp
    | Unlock
    | Tick
    | Return
    | Close
    | ScrapeLock(i: Scraper)
    | Emit(i: Scraper)
    | EmitStamp(i: Scraper)
    | ScrapeUnlock(i: Scraper)

  /** What a refresh may publish for a command output: the series of its averages, in any map order. */
  ghost predicate Publishable(read: FloatReader, data: string, metrics: seq<Series>) {
    SacctRefresh.Renders(metrics, SacctRefresh.AveragesOf(SacctRecords.Records(SacctRecords.Lines(read, data))))
  }

  /** Where a step may be taken. */
  predicate Ready(s: State, step: Step) {
    match step
    case Clock(to) => s.now <= to
    case Cancel => true
    case Start => s.pc.NotStarted?
    case RefreshFails => s.pc.Refreshing?
    case RefreshSucceeds(_, _) => s.pc.Refreshing?
    case Lock => s.pc.Locking? && s.readers == 0 && !s.writer
    case SetCached => s.pc.Caching?
    case SetStamp => s.pc.Stamping?
    case Unlock => s.pc.Unlocking?
    case Tick => s.pc.Selecting?
    case Return => s.pc.Selecting? && s.cancelled
    case Close => s.pc.Returning?
    case ScrapeLock(i) => i in s.scrapes && s.scrapes[i].Idle? && !s.writer
    case Emit(i) => i in s.scrapes && s.scrapes[i].Emitting? && s.scrapes[i].k < |s.cached|
    case EmitStamp(i) => i in s.scrapes && s.scrapes[i].Emitting? && s.scrapes[i].k == |s.cached|
    case ScrapeUnlock(i) => i in s.scrapes && s.scrapes[i].Releasing? && s.readers > 0
  }

  ghost predicate Enabled(read: FloatReader, s: State, step: Step) {
    Ready(s, step) && (step.RefreshSucceeds? ==> Publishable(read, step.data, step.metrics))
  }

  /** float64(lastRefresh.Unix()): whole seconds of a nanosecond clock. */
  function Unix(t: int): int {
    t / 1_000_000_000
  }

  function Apply(s: State, step: Step): (s': State)
    requires Ready(s, step)
    ensures s'.scrapes.Keys == s.scrapes.Keys
  {
    match step
    case Clock(to) => s.(now := to)
    case Cancel => s.(cancelled := true)
    case Start => s.(pc := Refreshing)
    case RefreshFails => s.(pc := Selecting, attempts := s.attempts + 1)
    case RefreshSucceeds(data, metrics) => s.(pc := Locking(data, metrics), attempts := s.attempts + 1)
    case Lock => s.(pc := Caching(s.pc.data, s.pc.metrics), writer := true)
    case SetCached => s.(pc := Stamping(s.pc.data, s.pc.metrics), cached := s.pc.metrics)
    case SetStamp =>
      s.(pc := Unlocking, lastRefresh := Some(s.now),
         published := s.published + [Publication(s.pc.data, s.pc.metrics, s.now)])
    case Unlock => s.(pc := Selecting, writer := false)
    case Tick => s.(pc := Refreshing)
    case Return => s.(pc := Returning)
    case Close => s.(pc := Exited, done := true)
    case ScrapeLock(i) => s.(scrapes := s.scrapes[i := Emitting(0, [], s.now)], readers := s.readers + 1)
    case Emit(i) =>
      var p := s.scrapes[i];
      s.(scrapes := s.scrapes[i := Emitting(p.k + 1, p.out + [s.cached[p.k]], p.at)])
    case EmitStamp(i) =>
      var p := s.scrapes[i];
      var stamp := if s.lastRefresh.Some? then Some(Unix(s.lastRefresh.value)) else None;
      s.(scrapes := s.scrapes[i := Releasing(p.out, stamp, p.at)])
    case ScrapeUnlock(i) =>
      var p := s.scrapes[i];
      s.(scrapes := s.scrapes[i := Idle], readers := s.readers - 1,
         collected := s.collected + [Scrape(p.out, p.stamp, p.at, |s.published|)])
  }

  ghost predicate IsRun(read: FloatReader, s: State, steps: seq<Step>)
    decreases |steps|
  {
    steps == [] || (Enabled(read, s, steps[0]) && IsRun(read, Apply(s, steps[0]), steps[1..]))
  }

  ghost function End(read: FloatReader, s: State, steps: seq<Step>): State
    requires IsRun(read, s, steps)
    decreases |steps|
  {
    if steps == [] then s else End(read, Apply(s, steps[0]), steps[1..])
  }

  // ---- The invariant ----

  predicate HoldsWrite(pc: Pc) {
    pc.Caching? || pc.Stamping? || pc.Unlocking?
  }

  /** A scrape holds the lock from its start to its end. */
  predicate HoldsRead(p: ScrapePc) {
    !p.Idle?
  }

  function Readers(scrapes: map<Scraper, ScrapePc>): set<Scraper> {
    Holders(scrapes, HoldsRead)
  }

  predicate LockInv(s: State) {
    && s.readers == |Readers(s.scrapes)|
    && (s.writer <==> HoldsWrite(s.pc))
    && (s.writer ==> s.readers == 0)
  }

  /** What is published: nothing before the first successful refresh, then the pair of the latest one. */
  function Stamp(s: State): Option<int> {
    if s.published == [] then None else Some(s.published[|s.published| - 1].at)
  }

  function Metrics(s: State): seq<Series> {
    if s.published == [] then [] else s.published[|s.published| - 1].metrics
  }

  ghost predicate PublishedInv(read: FloatReader, s: State) {
    && s.lastRefresh == Stamp(s)
    && s.cached == (if s.pc.Stamping? then s.pc.metrics else Metrics(s))
    && (s.pc.Locking? || s.pc.Caching? || s.pc.Stamping? ==> Publishable(read, s.pc.data, s.pc.metrics))
    && (forall p | p in s.published :: p.at <= s.now && Publishable(read, p.data, p.metrics))
    && (forall j, k | 0 <= j < k < |s.published| :: s.published[j].at <= s.published[k].at)
  }

  predicate ProgressInv(s: State) {
    && (s.done <==> s.pc.Exited?)
    && (s.attempts == 0 ==> s.pc.NotStarted? || s.pc.Refreshing?)
  }

  predicate ScrapeInv(s: State, p: ScrapePc) {
    match p
    case Idle => true
    case Emitting(k, out, at) =>
      at <= s.now && k <= |s.cached| && out == s.cached[..k] && (s.published != [] ==> Stamp(s).value <= at)
    case Releasing(out, stamp, at) =>
      && at <= s.now && out == Metrics(s) && (s.published != [] ==> Stamp(s).value <= at)
      && stamp == if s.published == [] then None else Some(Unix(Stamp(s).value))
  }

  /** A scrape sent the metrics and the timestamp of one publication, the latest while it held the lock. */
  predicate CollectedOk(s: State, c: Scrape) {
    && c.known <= |s.published| && c.at <= s.now
    && (if c.known == 0 then c.out == [] && c.stamp == None
        else
          && c.out == s.published[c.known - 1].metrics
          && c.stamp == Some(Unix(s.published[c.known - 1].at))
          && s.published[c.known - 1].at <= c.at)
    && (forall k | c.known <= k < |s.published| :: c.at <= s.published[k].at)
  }

  ghost predicate Inv(read: FloatReader, s: State) {
    && LockInv(s)
    && PublishedInv(read, s)
    && ProgressInv(s)
    && (forall i | i in s.scrapes :: ScrapeInv(s, s.scrapes[i]))
    && (forall c | c in s.collected :: CollectedOk(s, c))
  }

  lemma InitInv(read: FloatReader, s: State)
    requires Init(s)
    ensures Inv(read, s)
  {
    assert Readers(s.scrapes) == {};
  }

  lemma NoScrapeUnderWriter(s: State)
    requires LockInv(s) && s.writer
    ensures forall i | i in s.scrapes :: s.scrapes[i].Idle?
  {
    forall i | i in s.scrapes
      ensures s.scrapes[i].Idle?
    {
      assert i !in Readers(s.scrapes);
    }
  }

  lemma LockKept(s: State, step: Step)
    requires LockInv(s) && Ready(s, step)
    ensures LockInv(Apply(s, step))
  {
    if step.ScrapeLock? || step.Emit? || step.EmitStamp? || step.ScrapeUnlock? {
      HoldersChange(s.scrapes, HoldsRead, step.i, Apply(s, step).scrapes[step.i]);
    }
  }

  lemma PublishedKept(read: FloatReader, s: State, step: Step)
    requires PublishedInv(read, s) && Enabled(read, s, step)
    ensures PublishedInv(read, Apply(s, step))
  {
    hide Publishable;
  }

  lemma ProgressKept(s: State, step: Step)
    requires ProgressInv(s) && Ready(s, step)
    ensures ProgressInv(Apply(s, step))
  {
  }

  /** What a scrape rests on: the clock going forward, and what is published staying as it is. */
  lemma ScrapeFrame(s: State, s': State, p: ScrapePc)
    requires ScrapeInv(s, p) && s.now <= s'.now && s'.cached == s.cached && s'.published == s.published
    ensures ScrapeInv(s', p)
  {
  }

  lemma PublishedPast(read: FloatReader, s: State)
    requires PublishedInv(read, s)
    ensures s.published != [] ==> Stamp(s).value <= s.now
  {
    hide Publishable;
    if s.published != [] {
      assert s.published[|s.published| - 1] in s.published;
    }
  }

  predicate IsStepOf(step: Step, i: Scraper) {
    step in {ScrapeLock(i), Emit(i), EmitStamp(i), ScrapeUnlock(i)}
  }

  lemma StampedWhenPublished(s: State)
    ensures Stamp(s).Some? <==> s.published != []
  {
  }

  /** Where a scrape goes by its own step, judged before the step. */
  lemma OwnStep(s: State, step: Step, i: Scraper)
    requires Ready(s, step) && i in s.scrapes && IsStepOf(step, i)
    requires s.published != [] ==> Stamp(s).value <= s.now
    requires step.ScrapeUnlock? || (s.lastRefresh == Stamp(s) && s.cached == Metrics(s))
    requires ScrapeInv(s, s.scrapes[i])
    ensures ScrapeInv(s, Apply(s, step).scrapes[i])
  {
    hide Unix, Stamp, Metrics;
    StampedWhenPublished(s);
  }

  lemma OwnScrapeKept(read: FloatReader, s: State, step: Step, i: Scraper)
    requires PublishedInv(read, s) && Ready(s, step) && i in s.scrapes && IsStepOf(step, i)
    requires ScrapeInv(s, s.scrapes[i]) && (s.scrapes[i].Idle? || !s.pc.Stamping?)
    requires step.ScrapeLock? ==> !s.pc.Stamping?
    ensures ScrapeInv(Apply(s, step), Apply(s, step).scrapes[i])
  {
    hide Publishable, ScrapeInv, Stamp, Metrics;
    PublishedPast(read, s);
    OwnStep(s, step, i);
    ScrapeFrame(s, Apply(s, step), Apply(s, step).scrapes[i]);
  }

  lemma OtherScrapeKept(read: FloatReader, s: State, step: Step, i: Scraper)
    requires PublishedInv(read, s) && Ready(s, step) && i in s.scrapes && ScrapeInv(s, s.scrapes[i])
    requires HoldsWrite(s.pc) ==> s.scrapes[i].Idle?
    requires Apply(s, step).scrapes[i] == s.scrapes[i]
    ensures ScrapeInv(Apply(s, step), s.scrapes[i])
  {
    hide Publishable, PublishedInv, Stamp, Metrics;
    if !s.scrapes[i].Idle? {
      hide ScrapeInv;
      ScrapeFrame(s, Apply(s, step), s.scrapes[i]);
    }
  }

  lemma ScrapesKept(read: FloatReader, s: State, step: Step, i: Scraper)
    requires Inv(read, s) && Enabled(read, s, step) && i in s.scrapes
    ensures ScrapeInv(Apply(s, step), Apply(s, step).scrapes[i])
  {
    hide Publishable;
    assert ScrapeInv(s, s.scrapes[i]);
    if s.writer {
      NoScrapeUnderWriter(s);
    }
    if IsStepOf(step, i) {
      OwnScrapeKept(read, s, step, i);
    } else {
      OtherScrapeKept(read, s, step, i);
    }
  }

  /** A finished scrape stays right while publications are only added, none in its past. */
  lemma CollectedFrame(s: State, s': State, c: Scrape)
    requires CollectedOk(s, c) && s.now <= s'.now
    requires |s.published| <= |s'.published| && s'.published[..|s.published|] == s.published
    requires forall k | |s.published| <= k < |s'.published| :: s.now <= s'.published[k].at
    ensures CollectedOk(s', c)
  {
    hide Unix;
    assert forall k | 0 <= k < |s.published| :: s'.published[k] == s.published[k];
  }

  lemma CollectedKept(read: FloatReader, s: State, step: Step, c: Scrape)
    requires Inv(read, s) && Enabled(read, s, step) && c in Apply(s, step).collected
    ensures CollectedOk(Apply(s, step), c)
  {
    hide Publishable, Unix;
    if c in s.collected {
      assert CollectedOk(s, c);
      hide CollectedOk, LockInv, PublishedInv, ScrapeInv, ProgressInv;
      CollectedFrame(s, Apply(s, step), c);
    } else {
      assert ScrapeInv(s, s.scrapes[step.i]);
    }
  }

  lemma InvKept(read: FloatReader, s: State, step: Step)
    requires Inv(read, s) && Enabled(read, s, step)
    ensures Inv(read, Apply(s, step))
  {
    hide Publishable, LockInv, PublishedInv, ProgressInv, ScrapeInv, CollectedOk;
    LockKept(s, step);
    PublishedKept(read, s, step);
    ProgressKept(s, step);
    var s' := Apply(s, step);
    forall i | i in s'.scrapes
      ensures ScrapeInv(s', s'.scrapes[i])
    {
      ScrapesKept(read, s, step, i);
    }
    forall c | c in s'.collected
      ensures CollectedOk(s', c)
    {
      CollectedKept(read, s, step, c);
    }
  }

  lemma {:induction false} RunKeepsInv(read: FloatReader, s: State, steps: seq<Step>)
    requires Inv(read, s) && IsRun(read, s, steps)
    ensures Inv(read, End(read, s, steps))
    decreases |steps|
  {
    if steps == [] {
    } else {
      InvKept(read, s, steps[0]);
      RunKeepsInv(read, Apply(s, steps[0]), steps[1..]);
    }
  }

  // ---- What holds in every run ----

  /**
   Every finished Collect sent either nothing, when no refresh had succeeded by then, or the metrics and
   the timestamp of one and the same refresh, the latest when it held the lock; and those metrics are the
   series of the averages of that refresh's command output.
   */
  lemma ScrapesSeeOneRefresh(read: FloatReader, s: State, steps: seq<Step>, c: Scrape)
    requires Init(s) && IsRun(read, s, steps) && c in End(read, s, steps).collected
    ensures var published := End(read, s, steps).published;
            && (forall k | c.known <= k < |published| :: c.at <= published[k].at)
            && if c.known == 0 then c.out == [] && c.stamp == None
               else
                 && c.known <= |published|
                 && var p := published[c.known - 1];
                 && c.out == p.metrics && p.at <= c.at && Publishable(read, p.data, c.out)
                 && c.stamp.Some?
                 && c.stamp.value * 1_000_000_000 <= p.at < (c.stamp.value + 1) * 1_000_000_000
  {
    hide Publishable;
    InitInv(read, s);
    RunKeepsInv(read, s, steps);
    var end := End(read, s, steps);
    assert CollectedOk(end, c);
    if c.known > 0 {
      assert end.published[c.known - 1] in end.published;
    }
  }

  /** Done is closed only after at least one refresh was attempted. */
  lemma DoneAfterAttempt(read: FloatReader, s: State, steps: seq<Step>)
    requires Init(s) && IsRun(read, s, steps) && End(read, s, steps).done
    ensures End(read, s, steps).attempts >= 1
  {
    InitInv(read, s);
    RunKeepsInv(read, s, steps);
  }

  /** What no step changes any more once done is closed. */
  predicate SamePublication(s: State, s': State) {
    && s'.done && s'.cached == s.cached && s'.lastRefresh == s.lastRefresh
    && s'.published == s.published && s'.attempts == s.attempts
  }

  lemma DoneStep(s: State, step: Step)
    requires ProgressInv(s) && s.done && Ready(s, step)
    ensures SamePublication(s, Apply(s, step))
  {
  }

  /** Once done is closed, no continuation of the run changes the published pair. */
  lemma {:induction false} DoneIsFinal(read: FloatReader, s: State, steps: seq<Step>)
    requires Inv(read, s) && s.done && IsRun(read, s, steps)
    ensures SamePublication(s, End(read, s, steps))
    decreases |steps|
  {
    if steps == [] {
    } else {
      hide Publishable, Apply, Ready;
      InvKept(read, s, steps[0]);
      DoneStep(s, steps[0]);
      DoneIsFinal(read, Apply(s, steps[0]), steps[1..]);
    }
  }

  /** What anyone holding the read lock can see: the pair of the latest successful refresh. */
  lemma PublishedPair(read: FloatReader, s: State, steps: seq<Step>)
    requires Init(s) && IsRun(read, s, steps) && !End(read, s, steps).writer
    ensures var end := End(read, s, steps); end.cached == Metrics(end) && end.lastRefresh == Stamp(end)
  {
    hide Publishable;
    InitInv(read, s);
    RunKeepsInv(read, s, steps);
  }
}
