/** Every run of a parallel fuzz session: the workers, the messages on their way, and what
    the coordinator makes of them in whatever order they come. */
module FuzzRuns {
  import opened Syntax
  import opened FuzzCoordinator

  // ---- the whole system ----------------------------------------------------------------------

  datatype Phase = Booting | Waiting | Finished

  /** `next` is the index of the worker's current or next case; `expected` and `open` say how
      far its messages have been delivered: the case whose end is due, and whether its start
      has come. */
  datatype Worker = Worker(phase: Phase, next: nat, current: Option<Task>, queue: seq<Message>, over: Option<int>,
      exitSeen: bool,
                           expected: nat, open: bool)

  datatype Session = Session(c: View, workers: seq<Worker>, records: seq<Record>)

  /** `w` is a worker, `now` what the clock shows, `gone` the threads the watchdog sees to be over. */
  datatype Event =
    | Boot(w: nat)
    | Begin(w: nat, md5: string, startedAt: int)
    | Finish(w: nat, status: Status)
    | Complete(w: nat)
    | Fail(w: nat)
    | End(w: nat, code: int)
    | Deliver(w: nat, now: int)
    | DeliverExit(w: nat)
    | DeliverError
    | Tick(now: int, gone: set<nat>)
    | Stop
    | Signal(code: int)

  function Fresh(w: nat): Worker { Worker(Booting, w, None, [], None, false, w, false) }

  function Begun(cfg: Config, now: int): Session {
    Session(Initial(cfg, now), seq(cfg.threads, (w: nat) => Fresh(w)), [])
  }

  function Own(cfg: Config, ss: Session, k: Worker, e: Event): Worker
    requires e.Boot? || e.Begin? || e.Finish? || e.Complete? || e.Fail? || e.End?
  {
    match e
    case Boot(_) => if k.over.None? && k.phase == Booting then k.(phase := Waiting, queue := k.queue + [Ready]) else k
    case Begin(_, md5, startedAt) =>
      if k.over.None? && k.phase == Waiting && ss.c.started && k.current.None? then
        var c := Task(k.next, md5);
        k.(current := Some(c), queue := k.queue + [CaseStart(c, startedAt)])
      else k
    case Finish(_, status) =>
      if k.over.None? && k.phase == Waiting && k.current.Some? then
        k.(current := None, next := k.next + cfg.threads, queue := k.queue + [CaseEnd(k.current.value, status)])
      else k
    case Complete(_) =>
      if k.over.None? && k.phase == Waiting && ss.c.started
          && k.current.None? then k.(phase := Finished, queue := k.queue + [Done]) else k
    case Fail(_) => if k.over.None? && k.phase != Finished then k.(phase := Finished, queue := k.queue + [Failed])
                                                                else k
    case End(_, code) => if k.over.None? then k.(over := Some(code)) else k
  }

  function Delivered(cfg: Config, k: Worker): Worker
    requires k.queue != []
  {
    var rest := k.(queue := k.queue[1..]);
    match k.queue[0]
    case CaseStart(_, _) => rest.(open := true)
    case CaseEnd(_, _) => rest.(open := false, expected := k.expected + cfg.threads)
    case _ => rest
  }

  /** One event; one that cannot happen changes nothing. */
  function Step(cfg: Config, ss: Session, e: Event): Session {
    match e
    case Deliver(w, now) =>
      if w >= |ss.workers| || ss.workers[w].queue == [] then ss
      else
        var after := OnMessage(cfg, ss.c, w, ss.workers[w].queue[0], now);
        Session(after.0, ss.workers[w := Delivered(cfg, ss.workers[w])], ss.records + after.1)
    case DeliverExit(w) =>
      if w >= |ss.workers| || ss.workers[w].queue != [] || ss.workers[w].over.None? || ss.workers[w].exitSeen then ss
      else ss.(c := OnExit(ss.c, w, ss.workers[w].over.value),
           workers := ss.workers[w := ss.workers[w].(exitSeen := true)])
    case DeliverError => ss.(c := OnError(ss.c))
    case Tick(now, gone) =>
      if !ss.c.watching || !Over(ss, gone) then ss
      else
        var after := OnTick(cfg, ss.c, now, gone);
        ss.(c := after.0, records := ss.records + after.1)
    case Stop => if ss.c.settled.Some? then ss else ss.(c := RequestStop(cfg, ss.c))
    case Signal(code) => if ss.c.settled.Some? then ss else ss.(c := OnSignal(ss.c, code))
    case _ => if e.w >= |ss.workers| then ss else ss.(workers := ss.workers[e.w := Own(cfg, ss, ss.workers[e.w], e)])
  }

  /** The watchdog takes a thread for gone only when it is over. */
  predicate Over(ss: Session, gone: set<nat>) {
    forall w :: w in gone && w < |ss.workers| ==> ss.workers[w].over.Some?
  }

  /** The platform hands over a thread's messages before it shows that the thread is gone. */
  predicate Drained(ss: Session, e: Event) {
    e.Tick? ==> forall w :: w in e.gone && w < |ss.workers| ==> ss.workers[w].queue == []
  }

  function Run(cfg: Config, start: Session, events: seq<Event>): Session {
    if events == [] then start
    else Step(cfg, Run(cfg, start, events[..|events| - 1]), events[|events| - 1])
  }

  /** Every watchdog tick of the run finds the messages of gone threads handed over. */
  predicate DrainedRun(cfg: Config, start: Session, events: seq<Event>) {
    events == []
    || (DrainedRun(cfg, start, events[..|events| - 1])
       && Drained(Run(cfg, start, events[..|events| - 1]), events[|events| - 1]))
  }

  // ---- what always holds of the coordinator -----------------------------------------------------

  function Indexes(records: seq<Record>): set<nat> { set r | r in records :: r.c.index }

  predicate NoneTwice(records: seq<Record>) {
    forall i, j :: 0 <= i < j < |records| ==> records[i].c.index != records[j].c.index
  }

  function CountStatus(records: seq<Record>, s: Status): nat {
    if records == [] then 0
    else CountStatus(records[..|records| - 1], s) + (if records[|records| - 1].status == s then 1 else 0)
  }

  function CountWorker(records: seq<Record>, w: nat): nat {
    if records == [] then 0
    else CountWorker(records[..|records| - 1], w) + (if records[|records| - 1].worker == w then 1 else 0)
  }

  function CountHashed(records: seq<Record>): nat {
    if records == [] then 0
    else CountHashed(records[..|records| - 1]) + (if records[|records| - 1].c.md5 != "" then 1 else 0)
  }

  function Hashes(records: seq<Record>): set<string> { set r | r in records && r.c.md5 != "" :: r.c.md5 }

  /** The statistics are those of the records. */
  ghost predicate Tally(v: View, records: seq<Record>) {
    && v.checked == |records|
    && (forall s :: Count(v.stats.counts, s) == CountStatus(records, s))
    && (forall w :: PerWorker(v.stats.perWorker, w) == CountWorker(records, w))
    && v.stats.hashes == Hashes(records)
    && v.stats.duplicates + |v.stats.hashes| == CountHashed(records)
  }

  /** One worker counts as remaining for each live one, and the run is over when none is left. */
  predicate Roll(cfg: Config, v: View) {
    && v.remaining == |v.live|
    && (forall w :: w in v.live ==> w < cfg.threads)
    && (v.settled == Some(Resolved) ==> v.live == map[])
    && (v.live == map[] && cfg.threads > 0 ==> v.settled.Some?)
  }

  ghost predicate Sound(cfg: Config, v: View, records: seq<Record>) { Roll(cfg, v) && Tally(v, records) }

  lemma HashesMore(records: seq<Record>, r: Record)
    ensures Hashes(records + [r]) == if r.c.md5 == "" then Hashes(records) else Hashes(records) + {r.c.md5}
  {
    var more := records + [r];
    forall x | x in Hashes(records) + (if r.c.md5 == "" then {} else {r.c.md5}) ensures x in Hashes(more) {
      if x in Hashes(records) {
        var q :| q in records && q.c.md5 != "" && q.c.md5 == x;
        assert q in more;
      } else {
        assert r in more;
      }
    }
  }

  lemma TallyMore(v: View, records: seq<Record>, r: Record)
    requires Tally(v, records)
    ensures Tally(RecordResult(v, r), records + [r])
  {
    var more := records + [r];
    assert more[..|more| - 1] == records;
    HashesTally(v, records, r);
    var after := RecordResult(v, r);
    hide Hashes, CountHashed;
    forall s ensures Count(after.stats.counts, s) == CountStatus(more, s) {
      assert Count(v.stats.counts, s) == CountStatus(records, s);
    }
    forall w ensures PerWorker(after.stats.perWorker, w) == CountWorker(more, w) {
      assert PerWorker(v.stats.perWorker, w) == CountWorker(records, w);
    }
  }

  lemma HashesTally(v: View, records: seq<Record>, r: Record)
    requires v.stats.hashes == Hashes(records) && v.stats.duplicates + |v.stats.hashes| == CountHashed(records)
    ensures var stats := RecordResult(v, r).stats;
            stats.hashes == Hashes(records + [r])
            && stats.duplicates + |stats.hashes| == CountHashed(records + [r])
  {
    hide Hashes, Count, PerWorker;
    HashesMore(records, r);
    assert (records + [r])[..|records|] == records;
    if r.c.md5 in v.stats.hashes { assert v.stats.hashes + {r.c.md5} == v.stats.hashes; }
  }

  /** The counts over all statuses add up to the number of records. */
  lemma {:induction false} CountsSum(counts: map<Status, nat>, records: seq<Record>)
    requires forall s :: Count(counts, s) == CountStatus(records, s)
    ensures SumOver(STATUSES, counts) == |records|
  {
    SumIs(counts);
    TenSum(records);
  }

  function Ten(records: seq<Record>): nat {
    CountStatus(records, Passed) + CountStatus(records, VmFailures) + CountStatus(records, CompileErrors)
    + CountStatus(records, RuntimeErrors) + CountStatus(records, DifferentialFailures)
        + CountStatus(records, ExpectedRuntimeErrors)
    + CountStatus(records, InternalFailures) + CountStatus(records, RuntimeTimeouts) + CountStatus(records, Timeouts)
    + CountStatus(records, Skipped)
  }

  lemma {:induction false} TenSum(records: seq<Record>)
    ensures Ten(records) == |records|
  {
    if records != [] {
      TenSum(records[..|records| - 1]);
    }
  }

  lemma SumIs(counts: map<Status, nat>)
    ensures SumOver(STATUSES, counts)
         == Count(counts, Passed) + Count(counts, VmFailures) + Count(counts, CompileErrors)
             + Count(counts, RuntimeErrors)
            + Count(counts, DifferentialFailures) + Count(counts, ExpectedRuntimeErrors)
                + Count(counts, InternalFailures)
            + Count(counts, RuntimeTimeouts) + Count(counts, Timeouts) + Count(counts, Skipped)
  {
    hide Count, SumOver;
    SumFrom(STATUSES, counts, 0);
    SumFrom(STATUSES, counts, 1);
    SumFrom(STATUSES, counts, 2);
    SumFrom(STATUSES, counts, 3);
    SumFrom(STATUSES, counts, 4);
    SumFrom(STATUSES, counts, 5);
    SumFrom(STATUSES, counts, 6);
    SumFrom(STATUSES, counts, 7);
    SumFrom(STATUSES, counts, 8);
    SumFrom(STATUSES, counts, 9);
    assert STATUSES[0..] == STATUSES && STATUSES[10..] == [];
    SumOfNone(counts);
  }

  lemma SumOfNone(counts: map<Status, nat>)
    ensures SumOver([], counts) == 0
  {
  }

  lemma SumFrom(statuses: seq<Status>, counts: map<Status, nat>, k: nat)
    requires k < |statuses|
    ensures SumOver(statuses[k..], counts) == Count(counts, statuses[k]) + SumOver(statuses[k + 1..], counts)
  {
    assert statuses[k..][0] == statuses[k] && statuses[k..][1..] == statuses[k + 1..];
  }

  lemma NoteDoneRoll(cfg: Config, v: View, w: nat)
    requires Roll(cfg, v) && v.settled.None?
    ensures Roll(cfg, NoteDone(v, w))
  {
    if w in v.live {
      var less := v.live - {w};
      assert less.Keys == v.live.Keys - {w};
      assert |less| == 0 ==> less == map[] by { if |less| == 0 { assert less.Keys == {}; } }
    }
  }

  lemma PutRoll(cfg: Config, v: View, w: nat, state: Live)
    requires Roll(cfg, v) && w in v.live
    ensures Roll(cfg, Put(v, w, state))
  {
    assert Put(v, w, state).live.Keys == v.live.Keys;
    assert w in Put(v, w, state).live;
  }

  lemma MessageSound(cfg: Config, v: View, records: seq<Record>, w: nat, m: Message, now: int)
    requires Sound(cfg, v, records)
    ensures var after := OnMessage(cfg, v, w, m, now); Sound(cfg, after.0, records + after.1)
  {
    hide Roll, Tally, LimitReached, RecordResult;
    var after := OnMessage(cfg, v, w, m, now);
    assert records + [] == records;
    if v.settled.None? {
      var seen := Seen(v, w, now);
      if w in v.live { PutRoll(cfg, v, w, v.live[w].(lastSeenAt := now)); }
      SameTally(v, seen, records);
      assert Roll(cfg, seen);
      match m {
        case Ready => SameRoll(cfg, seen, after.0); SameTally(seen, after.0, records);
        case CaseStart(c, startedAt) =>
          StartedRoll(cfg, seen, w, c, if startedAt != 0 then startedAt else now);
          SameTally(seen, after.0, records);
        case CaseEnd(c, status) =>
          if after.1 != [] {
            var ended := Ended(seen, w);
            EndedRoll(cfg, seen, w);
            SameTally(seen, ended, records);
            var recorded := RecordResult(ended, Record(w, c, status));
            TallyMore(ended, records, Record(w, c, status));
            RecordRoll(cfg, ended, Record(w, c, status));
            SameRoll(cfg, recorded, RequestStop(cfg, recorded));
            SameTally(recorded, RequestStop(cfg, recorded), records + after.1);
          }
        case Failed => SettleRoll(cfg, seen, WorkerFailed(w)); SameTally(seen, after.0, records);
        case Done => NoteDoneRoll(cfg, seen, w); SameTally(seen, after.0, records);
      }
    }
  }

  lemma SameTally(v: View, u: View, records: seq<Record>)
    requires Tally(v, records)
    ensures u.stats == v.stats && u.checked == v.checked ==> Tally(u, records)
  {
  }

  lemma SameRoll(cfg: Config, v: View, u: View)
    requires Roll(cfg, v)
    ensures u.live == v.live && u.remaining == v.remaining && u.settled == v.settled ==> Roll(cfg, u)
  {
  }

  lemma RecordRoll(cfg: Config, v: View, r: Record)
    requires Roll(cfg, v)
    ensures Roll(cfg, RecordResult(v, r))
  {
  }

  lemma SettleRoll(cfg: Config, v: View, o: Outcome)
    requires Roll(cfg, v) && o != Resolved
    ensures Roll(cfg, Settle(v, o))
  {
  }

  lemma StartedRoll(cfg: Config, v: View, w: nat, c: Task, at: int)
    requires Roll(cfg, v)
    ensures Roll(cfg, Started(v, w, c, at))
  {
    hide Roll, Put;
    if w in v.live { PutRoll(cfg, v, w,
        v.live[w].(currentCase := Some(c), currentCaseStartedAt := at, stuckHandled := false)); }
  }

  lemma EndedRoll(cfg: Config, v: View, w: nat)
    requires Roll(cfg, v)
    ensures Roll(cfg, Ended(v, w))
  {
    hide Roll, Put;
    if w in v.live { PutRoll(cfg, v, w,
        v.live[w].(currentCase := None, currentCaseStartedAt := 0, stuckHandled := false)); }
  }

  lemma {:induction false} CheckSound(cfg: Config, v: View, records: seq<Record>, now: int, gone: set<nat>, w: nat)
    requires Sound(cfg, v, records) && (v.settled.Some? ==> v.live == map[])
    ensures var after := Check(cfg, v, now, gone, w);
            Sound(cfg, after.0, records + after.1) && (after.0.settled.Some? ==> after.0.live == map[])
  {
    hide Roll, Tally, RecordResult;
    var after := Check(cfg, v, now, gone, w);
    assert records + [] == records;
    SameTally(v, after.0, records);
    if w in v.live {
      var state := v.live[w];
      if w in gone {
        NoteDoneRoll(cfg, v, w);
        ResolvedRoll(cfg, after.0);
      } else if after.1 != [] {
        var put := Put(v, w, state.(lastReportAt := now, stuckHandled := true, terminating := true));
        var r := StuckRecord(cfg, w, state.currentCase.value);
        assert after == (RecordResult(put, r), [r]);
        PutRoll(cfg, v, w, state.(lastReportAt := now, stuckHandled := true, terminating := true));
        SameTally(v, put, records);
        TallyMore(put, records, r);
        RecordRoll(cfg, put, r);
        assert RecordResult(put, r).settled == put.settled == None by { RecordLeaves(put, r); }
      } else {
        PutRoll(cfg, v, w, state.(lastReportAt := now));
      }
    }
  }

  lemma ResolvedRoll(cfg: Config, v: View)
    requires Roll(cfg, v)
    ensures v.settled == Some(Resolved) ==> v.live == map[]
  {
  }

  lemma RecordLeaves(v: View, r: Record)
    ensures var u := RecordResult(v, r); u.settled == v.settled && u.live == v.live && u.remaining == v.remaining
  {
  }

  lemma {:induction false} CheckUpToSound(cfg: Config, v: View, records: seq<Record>, now: int, gone: set<nat>, n: nat)
    requires Sound(cfg, v, records) && (v.settled.Some? ==> v.live == map[])
    ensures var after := CheckUpTo(cfg, v, now, gone, n);
            Sound(cfg, after.0, records + after.1) && (after.0.settled.Some? ==> after.0.live == map[])
  {
    hide Sound, Check;
    if n == 0 {
      assert records + [] == records;
    } else {
      CheckUpToSound(cfg, v, records, now, gone, n - 1);
      var before := CheckUpTo(cfg, v, now, gone, n - 1);
      CheckSound(cfg, before.0, records + before.1, now, gone, n - 1);
      assert records + (before.1 + Check(cfg, before.0, now, gone, n - 1).1)
          == records + before.1 + Check(cfg, before.0, now, gone, n - 1).1;
    }
  }

  lemma ExitSound(cfg: Config, v: View, records: seq<Record>, w: nat, code: int)
    requires Sound(cfg, v, records)
    ensures Sound(cfg, OnExit(v, w, code), records)
  {
    hide Roll, Tally;
    var after := OnExit(v, w, code);
    SameTally(v, after, records);
    if v.settled.None? {
      NoteDoneRoll(cfg, v, w);
      SettleRoll(cfg, v, Exited(w, code));
    }
  }

  /** The coordinator's books are right after every event, whatever the workers do. */
  lemma StepSound(cfg: Config, ss: Session, e: Event)
    requires Sound(cfg, ss.c, ss.records)
    ensures var after := Step(cfg, ss, e); Sound(cfg, after.c, after.records)
  {
    hide Roll, Tally, OnMessage, OnExit, CheckUpTo, Own, Delivered, Over;
    var v := ss.c;
    match e
    case Deliver(w, now) =>
      if w < |ss.workers| && ss.workers[w].queue != [] { MessageSound(cfg, v, ss.records, w, ss.workers[w].queue[0],
          now); }
    case DeliverExit(w) =>
      if w < |ss.workers| && ss.workers[w].over.Some? { ExitSound(cfg, v, ss.records, w, ss.workers[w].over.value); }
    case DeliverError => SettleRoll(cfg, v, Crashed); SameTally(v, OnError(v), ss.records);
    case Tick(now, gone) =>
      assert ss.records + [] == ss.records;
      if v.settled.None? { CheckUpToSound(cfg, v, ss.records, now, gone, cfg.threads); }
    case Stop => SameRoll(cfg, v, RequestStop(cfg, v)); SameTally(v, RequestStop(cfg, v), ss.records);
    case Signal(code) =>
      SameRoll(cfg, v, v.(stopFlag := true));
      SettleRoll(cfg, v.(stopFlag := true), Interrupted(code));
      SameTally(v, OnSignal(v, code), ss.records);
    case _ =>
  }

  lemma BegunSound(cfg: Config, now: int)
    ensures Sound(cfg, Initial(cfg, now), [])
  {
    var live := SpawnedUpTo(cfg.threads, now);
    if cfg.threads > 0 { assert 0 in live; }
  }

  lemma {:induction false} RunSound(cfg: Config, now: int, events: seq<Event>)
    ensures var end := Run(cfg, Begun(cfg, now), events); Sound(cfg, end.c, end.records)
  {
    hide Sound, Step;
    if events == [] {
      BegunSound(cfg, now);
    } else {
      var last := |events| - 1;
      RunSound(cfg, now, events[..last]);
      StepSound(cfg, Run(cfg, Begun(cfg, now), events[..last]), events[last]);
    }
  }

  /** In every run: the remaining count is the number of live workers, the run is resolved
      only when none is left, and the counts by status and by worker, and the hashes with
      their duplicates, each add up to the number of checked cases or of those with a hash. */
  lemma BooksBalance(cfg: Config, now: int, events: seq<Event>)
    requires cfg.threads > 0
    ensures var end := Run(cfg, Begun(cfg, now), events); var v := end.c;
            && v.remaining == |v.live|
            && (v.settled == Some(Resolved) ==> v.live == map[]) && (v.live == map[] ==> v.settled.Some?)
            && SumOver(STATUSES, v.stats.counts) == v.checked == |end.records|
            && (forall s :: Count(v.stats.counts, s) == CountStatus(end.records, s))
            && (forall w :: PerWorker(v.stats.perWorker, w) == CountWorker(end.records, w))
            && v.stats.hashes == Hashes(end.records)
            && v.stats.duplicates + |v.stats.hashes| == CountHashed(end.records)
  {
    hide Step, Run, CountStatus, CountWorker, CountHashed;
    RunSound(cfg, now, events);
    var end := Run(cfg, Begun(cfg, now), events);
    CountsSum(end.c.stats.counts, end.records);
  }

  // ---- settling --------------------------------------------------------------------------------

  lemma SettledStep(cfg: Config, ss: Session, e: Event)
    requires ss.c.settled.Some?
    ensures var after := Step(cfg, ss, e); after.c == ss.c && after.records == ss.records
  {
    hide Own, Delivered, Over, CheckUpTo;
    assert ss.records + [] == ss.records;
  }

  /** A run settles at most once, and from then on nothing is counted or recorded. */
  lemma {:induction false} SettlesOnce(cfg: Config, start: Session, events: seq<Event>, n: nat)
    requires n <= |events| && Run(cfg, start, events[..n]).c.settled.Some?
    ensures var before := Run(cfg, start, events[..n]); var end := Run(cfg, start, events);
            end.c == before.c && end.records == before.records
    decreases |events|
  {
    hide Step;
    if n == |events| {
      assert events[..n] == events;
    } else {
      var last := |events| - 1;
      assert events[..last][..n] == events[..n];
      SettlesOnce(cfg, start, events[..last], n);
      SettledStep(cfg, Run(cfg, start, events[..last]), events[last]);
    }
  }

  // ---- the end ---------------------------------------------------------------------------------

  /** A worker whose exit has been handled is not waited for any more. */
  predicate ExitsCount(ss: Session) {
    ss.c.settled.None? ==> forall w :: 0 <= w < |ss.workers| && ss.workers[w].exitSeen ==> w !in ss.c.live
  }

  lemma {:induction false} CheckUpToShrinks(cfg: Config, v: View, now: int, gone: set<nat>, n: nat)
    ensures var after := CheckUpTo(cfg, v, now, gone, n).0; after.live.Keys <= v.live.Keys
                                                            && (v.settled.Some? ==> after.settled.Some?)
  {
    hide Check;
    if n > 0 {
      CheckUpToShrinks(cfg, v, now, gone, n - 1);
      CheckShrinks(cfg, CheckUpTo(cfg, v, now, gone, n - 1).0, now, gone, n - 1);
    }
  }

  lemma CheckShrinks(cfg: Config, v: View, now: int, gone: set<nat>, w: nat)
    ensures var after := Check(cfg, v, now, gone, w).0; after.live.Keys <= v.live.Keys
                                                        && (v.settled.Some? ==> after.settled.Some?)
  {
    hide Stuck, Counted;
  }

  lemma MessageShrinks(cfg: Config, v: View, w: nat, m: Message, now: int)
    ensures var after := OnMessage(cfg, v, w, m, now).0; after.live.Keys <= v.live.Keys
                                                         && (v.settled.Some? ==> after.settled.Some?)
  {
    hide LimitReached, RecordResult, Put, Started, Ended, Seen;
    if v.settled.None? {
      var seen := Seen(v, w, now);
      SeenKeys(v, w, now);
      match m
      case CaseStart(c, at) => StartedKeys(seen, w, c, if at != 0 then at else now);
      case CaseEnd(c, status) =>
        EndedKeys(seen, w);
        RecordLeaves(Ended(seen, w), Record(w, c, status));
      case _ =>
    }
  }

  lemma SeenKeys(v: View, w: nat, now: int)
    ensures Seen(v, w, now).live.Keys == v.live.Keys
  {
  }

  lemma StartedKeys(v: View, w: nat, c: Task, at: int)
    ensures Started(v, w, c, at).live.Keys == v.live.Keys
  {
  }

  lemma EndedKeys(v: View, w: nat)
    ensures Ended(v, w).live.Keys == v.live.Keys
  {
  }

  lemma StepExits(cfg: Config, ss: Session, e: Event)
    requires ExitsCount(ss)
    ensures ExitsCount(Step(cfg, ss, e)) && |Step(cfg, ss, e).workers| == |ss.workers|
  {
    hide OnMessage, CheckUpTo, Own, Delivered, Over;
    match e
    case Deliver(w, now) =>
      if w < |ss.workers| && ss.workers[w].queue != [] {
        MessageShrinks(cfg, ss.c, w, ss.workers[w].queue[0], now);
        DeliveredSeen(cfg, ss.workers[w]);
      }
    case Tick(now, gone) => CheckUpToShrinks(cfg, ss.c, now, gone, cfg.threads);
    case DeliverExit(_) =>
    case DeliverError =>
    case Stop =>
    case Signal(_) =>
    case _ => if e.w < |ss.workers| { OwnSeen(cfg, ss, ss.workers[e.w], e); }
  }

  lemma DeliveredSeen(cfg: Config, k: Worker)
    requires k.queue != []
    ensures Delivered(cfg, k).exitSeen == k.exitSeen
  {
  }

  lemma OwnSeen(cfg: Config, ss: Session, k: Worker, e: Event)
    requires e.Boot? || e.Begin? || e.Finish? || e.Complete? || e.Fail? || e.End?
    ensures Own(cfg, ss, k, e).exitSeen == k.exitSeen
  {
  }

  lemma {:induction false} RunExits(cfg: Config, now: int, events: seq<Event>)
    ensures var end := Run(cfg, Begun(cfg, now), events); ExitsCount(end) && |end.workers| == cfg.threads
  {
    hide ExitsCount, Step;
    if events == [] {
      BegunExits(cfg, now);
    } else {
      var last := |events| - 1;
      RunExits(cfg, now, events[..last]);
      StepExits(cfg, Run(cfg, Begun(cfg, now), events[..last]), events[last]);
    }
  }

  lemma BegunExits(cfg: Config, now: int)
    ensures ExitsCount(Begun(cfg, now))
  {
  }

  /** Once the exit of every worker has been handled the run is settled: none hangs. */
  lemma AllGoneSettles(cfg: Config, now: int, events: seq<Event>)
    requires cfg.threads > 0
    requires forall k :: k in Run(cfg, Begun(cfg, now), events).workers ==> k.exitSeen
    ensures Run(cfg, Begun(cfg, now), events).c.settled.Some?
  {
    hide Run, Begun, Tally;
    RunExits(cfg, now, events);
    RunSound(cfg, now, events);
    var end := Run(cfg, Begun(cfg, now), events);
    if end.c.settled.None? { NobodyLeft(end); }
  }

  lemma NobodyLeft(ss: Session)
    requires ExitsCount(ss) && ss.c.settled.None? && forall k :: k in ss.workers ==> k.exitSeen
    requires forall w :: w in ss.c.live ==> w < |ss.workers|
    ensures ss.c.live == map[]
  {
    forall w | 0 <= w < |ss.workers| ensures w !in ss.c.live { assert ss.workers[w] in ss.workers; }
  }

  // ---- a worker and its messages -----------------------------------------------------------------

  /** What a queue brings, if `expected` and `open` say how far its messages have come: the
      worker's cases one after the other, each start followed by its end, up to where the
      worker is now; and nothing after the last word. */
  predicate Feed(queue: seq<Message>, expected: nat, open: bool, next: nat, busy: bool, t: nat) {
    if queue == [] then expected == next && open == busy
    else
      match queue[0]
      case CaseStart(c, _) => !open && c.index == expected && Feed(queue[1..], expected, true, next, busy, t)
      case CaseEnd(c, _) => open && c.index == expected && Feed(queue[1..], expected + t, false, next, busy, t)
      case Done => !open && queue[1..] == [] && expected == next && !busy
      case _ => Feed(queue[1..], expected, open, next, busy, t)
  }

  lemma {:induction false} FeedAppend(queue: seq<Message>, m: Message, expected: nat, open: bool, next: nat, busy: bool,
                                      next': nat, busy': bool, t: nat)
    requires Done !in queue && Feed(queue, expected, open, next, busy, t) && Feed([m], next, busy, next', busy', t)
    ensures Feed(queue + [m], expected, open, next', busy', t)
    decreases queue
  {
    if queue == [] {
      assert queue + [m] == [m];
    } else {
      assert (queue + [m])[1..] == queue[1..] + [m];
      var e := if queue[0].CaseEnd? then expected + t else expected;
      var o := if queue[0].CaseStart? then true else if queue[0].CaseEnd? then false else open;
      FeedAppend(queue[1..], m, e, o, next, busy, next', busy', t);
    }
  }

  /** The coordinator's view of a live worker matches what it has been told, and the case it
      has written off as stuck is on record. */
  predicate Follows(k: Worker, state: Live, recorded: set<nat>) {
    && (!state.terminating ==> if k.open then state.currentCase.Some? && state.currentCase.value.index == k.expected
                               else state.currentCase.None?)
    && (state.stuckHandled ==> state.terminating)
    && (k.expected in recorded <==> k.open && state.stuckHandled)
  }

  /** The records of worker `w` are its first cases: all those whose end has been delivered,
      and at most the next one. */
  ghost predicate InOrder(t: nat, w: nat, k: Worker, recorded: set<nat>)
    requires t > 0
  {
    forall i: nat :: i % t == w ==> (i < k.expected ==> i in recorded) && (i > k.expected ==> i !in recorded)
  }

  ghost predicate WorkerOk(t: nat, w: nat, k: Worker, live: Option<Live>, recorded: set<nat>, settled: bool)
    requires t > 0
  {
    && k.expected % t == w
    && Feed(k.queue, k.expected, k.open, k.next, k.current.Some?, t)
    && (k.current.Some? ==> k.current.value.index == k.next)
    && (Done in k.queue ==> k.phase == Finished)
    && (!settled ==> InOrder(t, w, k, recorded)
                     && (live.Some? ==> Follows(k, live.value, recorded))
                     && (live.None? && k.expected in recorded ==> k.over.Some? && k.queue == []))
  }

  function LiveOf(v: View, w: nat): Option<Live> { if w in v.live then Some(v.live[w]) else None }

  ghost predicate Held(cfg: Config, v: View, workers: seq<Worker>, records: seq<Record>) {
    && cfg.threads > 0 && |workers| == cfg.threads
    && NoneTwice(records)
    && (forall r :: r in records ==> r.worker == r.c.index % cfg.threads)
    && forall w: nat :: w < |workers|
                        ==> WorkerOk(cfg.threads, w, workers[w], LiveOf(v, w), Indexes(records), v.settled.Some?)
  }

  lemma Multiples(t: int, q: int)
    requires t > 0
    ensures (q >= 1 ==> t * q >= t) && (q <= -1 ==> t * q <= -t) && (q == 0 ==> t * q == 0)
  {
    if q >= 1 { assert t * q == t + t * (q - 1); }
    if q <= -1 { assert t * q == t * (q + 1) - t; }
  }

  /** Two numbers of one class lie at least a step apart. */
  lemma ClassStep(t: nat, d: nat, i: nat)
    requires t > 0 && i % t == d % t && d < i
    ensures i >= d + t
  {
    var q := i / t - d / t;
    assert i - d == t * q by {
      assert i == t * (i / t) + i % t && d == t * (d / t) + d % t;
      Spread(t, i / t, d / t);
    }
    Multiples(t, q);
  }

  lemma Spread(t: int, a: int, b: int)
    ensures t * (a - b) == t * a - t * b
  {
  }

  lemma AddModulus(t: nat, d: nat)
    requires t > 0
    ensures (d + t) % t == d % t
  {
    var n := d + t;
    var q := n / t - d / t - 1;
    assert t * q == d % t - n % t by {
      assert n == t * (n / t) + n % t && d == t * (d / t) + d % t;
      Spread(t, n / t, d / t);
      Spread(t, n / t - d / t, 1);
    }
    Multiples(t, q);
  }

  /** The next case of a worker whose current one is on record. */
  lemma OrderNext(t: nat, w: nat, k: Worker, k': Worker, recorded: set<nat>)
    requires t > 0 && k.expected % t == w && InOrder(t, w, k, recorded) && k.expected in recorded
             && k'.expected == k.expected + t
    ensures k'.expected % t == w && InOrder(t, w, k', recorded) && k'.expected !in recorded
  {
    AddModulus(t, k.expected);
    forall i: nat | i % t == w && i < k'.expected ensures i in recorded {
      if i > k.expected { ClassStep(t, k.expected, i); }
    }
  }

  /** A record of one worker's case leaves the others as they were. */
  lemma OtherOk(t: nat, u: nat, k: Worker, live: Option<Live>, recorded: set<nat>, more: set<nat>, settled: bool,
                settled': bool)
    requires t > 0 && WorkerOk(t, u, k, live, recorded, settled) && (settled ==> settled')
    requires forall i: nat :: i % t == u ==> (i in recorded <==> i in more)
    ensures WorkerOk(t, u, k, live, more, settled')
  {
    hide Feed;
  }

  lemma OwnOk(cfg: Config, ss: Session, w: nat, k: Worker, e: Event, live: Option<Live>, recorded: set<nat>,
              settled: bool)
    requires e.Boot? || e.Begin? || e.Finish? || e.Complete? || e.Fail? || e.End?
    requires cfg.threads > 0 && WorkerOk(cfg.threads, w, k, live, recorded, settled)
    ensures WorkerOk(cfg.threads, w, Own(cfg, ss, k, e), live, recorded, settled)
  {
    var t := cfg.threads;
    var after := Own(cfg, ss, k, e);
    if after.queue != k.queue {
      var m := after.queue[|k.queue|];
      assert after.queue == k.queue + [m];
      assert [m][1..] == [];
      FeedAppend(k.queue, m, k.expected, k.open, k.next, k.current.Some?, after.next, after.current.Some?, t);
    }
    hide Feed, Own;
  }

  lemma IndexesMore(records: seq<Record>, r: Record)
    ensures Indexes(records + [r]) == Indexes(records) + {r.c.index}
  {
    var more := records + [r];
    assert more[|records|] == r;
    forall i ensures i in Indexes(more) <==> i in Indexes(records) + {r.c.index} {
      if i in Indexes(records) {
        var q :| q in records && q.c.index == i;
        assert q in more;
      }
    }
  }

  lemma NoneTwiceMore(records: seq<Record>, r: Record)
    requires NoneTwice(records) && r.c.index !in Indexes(records)
    ensures NoneTwice(records + [r])
  {
    forall i | 0 <= i < |records| ensures records[i].c.index != r.c.index { assert records[i] in records; }
  }

  /** A worker after the first message of its queue is handled, and what goes on record. */
  ghost predicate Handled(cfg: Config, v: View, w: nat, k: Worker, recorded: set<nat>, now: int)
    requires cfg.threads > 0 && k.queue != []
  {
    var after := OnMessage(cfg, v, w, k.queue[0], now);
    && |after.1| <= 1
    && (|after.1| == 1 ==> after.1[0].worker == w && after.1[0].c.index == k.expected && k.expected !in recorded)
    && var more := if |after.1| == 1 then recorded + {k.expected} else recorded;
       WorkerOk(cfg.threads, w, Delivered(cfg, k), LiveOf(after.0, w), more, after.0.settled.Some?)
  }

  lemma EndHandled(cfg: Config, v: View, w: nat, k: Worker, recorded: set<nat>, now: int)
    requires cfg.threads > 0 && k.queue != [] && v.settled.None?
             && WorkerOk(cfg.threads, w, k, LiveOf(v, w), recorded, false)
    requires k.queue[0].CaseEnd?
    ensures Handled(cfg, v, w, k, recorded, now)
  {
    hide LimitReached, Counted, InOrder;
    var more := recorded + {k.expected};
    assert recorded == more || k.expected !in recorded;
    assert InOrder(cfg.threads, w, k, more) by { OneMoreInOrder(cfg.threads, w, k, recorded); }
    OrderNext(cfg.threads, w, k, Delivered(cfg, k), more);
  }

  lemma OneMoreInOrder(t: nat, w: nat, k: Worker, recorded: set<nat>)
    requires t > 0 && InOrder(t, w, k, recorded)
    ensures InOrder(t, w, k, recorded + {k.expected})
  {
  }

  lemma StartHandled(cfg: Config, v: View, w: nat, k: Worker, recorded: set<nat>, now: int)
    requires cfg.threads > 0 && k.queue != [] && v.settled.None?
             && WorkerOk(cfg.threads, w, k, LiveOf(v, w), recorded, false)
    requires k.queue[0].CaseStart?
    ensures Handled(cfg, v, w, k, recorded, now)
  {
    hide LimitReached, Counted;
  }

  lemma SameOrder(t: nat, w: nat, k: Worker, k': Worker, recorded: set<nat>)
    requires t > 0 && InOrder(t, w, k, recorded) && k'.expected == k.expected
    ensures InOrder(t, w, k', recorded)
  {
  }

  lemma OtherHandled(cfg: Config, v: View, w: nat, k: Worker, recorded: set<nat>, now: int)
    requires cfg.threads > 0 && k.queue != [] && v.settled.None?
             && WorkerOk(cfg.threads, w, k, LiveOf(v, w), recorded, false)
    requires k.queue[0].Ready? || k.queue[0].Failed?
    ensures Handled(cfg, v, w, k, recorded, now)
  {
    hide LimitReached, Counted, InOrder, NoteDone;
    SameOrder(cfg.threads, w, k, Delivered(cfg, k), recorded);
  }

  lemma DoneHandled(cfg: Config, v: View, w: nat, k: Worker, recorded: set<nat>, now: int)
    requires cfg.threads > 0 && k.queue != [] && v.settled.None?
             && WorkerOk(cfg.threads, w, k, LiveOf(v, w), recorded, false)
    requires k.queue[0].Done?
    ensures Handled(cfg, v, w, k, recorded, now)
  {
    hide LimitReached, Counted, InOrder;
    SameOrder(cfg.threads, w, k, Delivered(cfg, k), recorded);
    assert k.expected !in recorded;
  }

  lemma DeliveredOk(cfg: Config, v: View, w: nat, k: Worker, recorded: set<nat>, now: int)
    requires cfg.threads > 0 && k.queue != [] && v.settled.None?
             && WorkerOk(cfg.threads, w, k, LiveOf(v, w), recorded, false)
    ensures Handled(cfg, v, w, k, recorded, now)
  {
    hide Handled, WorkerOk;
    match k.queue[0] {
      case CaseEnd(_, _) => EndHandled(cfg, v, w, k, recorded, now);
      case CaseStart(_, _) => StartHandled(cfg, v, w, k, recorded, now);
      case Done => DoneHandled(cfg, v, w, k, recorded, now);
      case _ => OtherHandled(cfg, v, w, k, recorded, now);
    }
  }

  lemma OthersLive(cfg: Config, v: View, w: nat, m: Message, now: int, u: nat)
    requires u != w
    ensures LiveOf(OnMessage(cfg, v, w, m, now).0, u) == LiveOf(v, u)
  {
    hide LimitReached, Counted;
  }

  /** One worker's change, with at most one new record of its own, keeps everything. */
  lemma HeldMore(cfg: Config, v: View, v': View, workers: seq<Worker>, records: seq<Record>, w: nat, k: Worker,
                 added: seq<Record>)
    requires Held(cfg, v, workers, records) && w < |workers| && |added| <= 1
    requires |added| == 1 ==> added[0].worker == w == added[0].c.index % cfg.threads
                              && added[0].c.index !in Indexes(records)
    requires var more := if |added| == 1 then Indexes(records) + {added[0].c.index} else Indexes(records);
             WorkerOk(cfg.threads, w, k, LiveOf(v', w), more, v'.settled.Some?)
    requires forall u: nat :: u != w ==> LiveOf(v', u) == LiveOf(v, u)
    requires v.settled.Some? ==> v'.settled.Some?
    ensures Held(cfg, v', workers[w := k], records + added)
  {
    hide WorkerOk, LiveOf, NoneTwice, Indexes;
    var more := records + added;
    if added == [] {
      assert more == records;
    } else {
      assert added == [added[0]];
      IndexesMore(records, added[0]);
      NoneTwiceMore(records, added[0]);
    }
    forall u: nat | u < |workers| && u != w
      ensures WorkerOk(cfg.threads, u, workers[u], LiveOf(v', u), Indexes(more), v'.settled.Some?)
    {
      OtherOk(cfg.threads, u, workers[u], LiveOf(v, u), Indexes(records), Indexes(more), v.settled.Some?,
          v'.settled.Some?);
    }
  }

  lemma HeldDeliver(cfg: Config, v: View, workers: seq<Worker>, records: seq<Record>, w: nat, now: int)
    requires Held(cfg, v, workers, records) && w < |workers| && workers[w].queue != []
    ensures var after := OnMessage(cfg, v, w, workers[w].queue[0], now);
            Held(cfg, after.0, workers[w := Delivered(cfg, workers[w])], records + after.1)
  {
    hide OnMessage, LiveOf, NoneTwice, Indexes, InOrder;
    var k := workers[w];
    var m := k.queue[0];
    var after := OnMessage(cfg, v, w, m, now);
    if v.settled.Some? {
      SettledMessage(cfg, v, w, m, now);
      SettledDelivery(cfg, w, k, LiveOf(v, w), Indexes(records));
    } else {
      DeliveredOk(cfg, v, w, k, Indexes(records), now);
    }
    forall u: nat | u != w ensures LiveOf(after.0, u) == LiveOf(v, u) { OthersLive(cfg, v, w, m, now, u); }
    HeldMore(cfg, v, after.0, workers, records, w, Delivered(cfg, k), after.1);
  }

  lemma SettledMessage(cfg: Config, v: View, w: nat, m: Message, now: int)
    requires v.settled.Some?
    ensures OnMessage(cfg, v, w, m, now) == (v, [])
  {
  }

  lemma SettledDelivery(cfg: Config, w: nat, k: Worker, live: Option<Live>, recorded: set<nat>)
    requires cfg.threads > 0 && k.queue != [] && WorkerOk(cfg.threads, w, k, live, recorded, true)
    ensures WorkerOk(cfg.threads, w, Delivered(cfg, k), live, recorded, true)
  {
    AddModulus(cfg.threads, k.expected);
  }

  /** A worker whose thread is over and whose messages have all been handled may be dropped. */
  lemma HeldGone(cfg: Config, v: View, v': View, workers: seq<Worker>, records: seq<Record>, w: nat)
    requires Held(cfg, v, workers, records) && w < |workers| && workers[w].over.Some? && workers[w].queue == []
    requires v' == NoteDone(v, w) || exists o :: v' == Settle(v, o)
    ensures Held(cfg, v', workers, records)
  {
    hide Feed, NoneTwice, Indexes, InOrder;
    assert workers[w := workers[w]] == workers && records + [] == records;
    HeldMore(cfg, v, v', workers, records, w, workers[w], []);
  }

  lemma HeldSettled(cfg: Config, v: View, v': View, workers: seq<Worker>, records: seq<Record>)
    requires Held(cfg, v, workers, records) && v'.live == v.live && (v.settled.Some? ==> v'.settled.Some?)
    ensures Held(cfg, v', workers, records)
  {
    hide Feed, NoneTwice, Indexes, InOrder, Follows;
    forall w: nat | w < |workers| ensures LiveOf(v', w) == LiveOf(v, w) {}
  }

  /** A worker written off as stuck: its current case goes on record. */
  lemma CheckedOk(cfg: Config, v: View, w: nat, k: Worker, recorded: set<nat>, now: int, gone: set<nat>)
    requires cfg.threads > 0 && v.settled.None? && w in v.live && w !in gone
             && WorkerOk(cfg.threads, w, k, LiveOf(v, w), recorded, false)
    ensures var after := Check(cfg, v, now, gone, w);
            && |after.1| <= 1 && after.0.settled.None?
            && (|after.1| == 1 ==> after.1[0].worker == w && after.1[0].c.index == k.expected
                                   && k.expected !in recorded)
            && var more := if |after.1| == 1 then recorded + {k.expected} else recorded;
               WorkerOk(cfg.threads, w, k, LiveOf(after.0, w), more, false)
  {
    hide Feed, Counted;
  }

  lemma OthersChecked(cfg: Config, v: View, w: nat, now: int, gone: set<nat>, u: nat)
    requires u != w
    ensures LiveOf(Check(cfg, v, now, gone, w).0, u) == LiveOf(v, u)
  {
    hide Counted, Stuck;
  }

  lemma HeldCheck(cfg: Config, v: View, workers: seq<Worker>, records: seq<Record>, now: int, gone: set<nat>, w: nat)
    requires Held(cfg, v, workers, records) && w < |workers| && (v.settled.Some? ==> v.live == map[])
    requires w in gone ==> workers[w].over.Some? && workers[w].queue == []
    ensures var after := Check(cfg, v, now, gone, w); Held(cfg, after.0, workers, records + after.1)
  {
    hide Stuck, LiveOf, NoneTwice, Indexes, InOrder, Feed, Follows, RecordResult;
    var after := Check(cfg, v, now, gone, w);
    assert records + [] == records && workers[w := workers[w]] == workers;
    if w in v.live {
      if w in gone {
        HeldGone(cfg, v, after.0, workers, records, w);
      } else {
        CheckedOk(cfg, v, w, workers[w], Indexes(records), now, gone);
        forall u: nat | u != w ensures LiveOf(after.0, u) == LiveOf(v, u) { OthersChecked(cfg, v, w, now, gone, u); }
        HeldMore(cfg, v, after.0, workers, records, w, workers[w], after.1);
      }
    }
  }

  lemma {:induction false} HeldCheckUpTo(cfg: Config, v: View, workers: seq<Worker>, records: seq<Record>, now: int,
                                         gone: set<nat>, n: nat)
    requires Held(cfg, v, workers, records) && n <= |workers| && v.settled.None? && Sound(cfg, v, records)
    requires forall w :: w in gone && w < |workers| ==> workers[w].over.Some? && workers[w].queue == []
    ensures var after := CheckUpTo(cfg, v, now, gone, n); Held(cfg, after.0, workers, records + after.1)
  {
    hide Held, Check, Sound;
    if n == 0 {
      assert records + [] == records;
    } else {
      HeldCheckUpTo(cfg, v, workers, records, now, gone, n - 1);
      CheckUpToSound(cfg, v, records, now, gone, n - 1);
      var before := CheckUpTo(cfg, v, now, gone, n - 1);
      HeldCheck(cfg, before.0, workers, records + before.1, now, gone, n - 1);
      assert records + (before.1 + Check(cfg, before.0, now, gone, n - 1).1)
          == records + before.1 + Check(cfg, before.0, now, gone, n - 1).1;
    }
  }

  lemma HeldOwn(cfg: Config, ss: Session, e: Event)
    requires Held(cfg, ss.c, ss.workers, ss.records)
    requires (e.Boot? || e.Begin? || e.Finish? || e.Complete? || e.Fail? || e.End?) && e.w < |ss.workers|
    ensures Held(cfg, ss.c, ss.workers[e.w := Own(cfg, ss, ss.workers[e.w], e)], ss.records)
  {
    hide Own, NoneTwice, Indexes, WorkerOk;
    var w := e.w;
    assert ss.records + [] == ss.records;
    OwnOk(cfg, ss, w, ss.workers[w], e, LiveOf(ss.c, w), Indexes(ss.records), ss.c.settled.Some?);
    HeldMore(cfg, ss.c, ss.c, ss.workers, ss.records, w, Own(cfg, ss, ss.workers[w], e), []);
  }

  lemma ExitHeld(cfg: Config, ss: Session, w: nat)
    requires Held(cfg, ss.c, ss.workers, ss.records) && w < |ss.workers| && ss.workers[w].over.Some?
             && ss.workers[w].queue == []
    ensures Held(cfg, OnExit(ss.c, w, ss.workers[w].over.value), ss.workers[w := ss.workers[w].(exitSeen := true)],
            ss.records)
  {
    hide NoneTwice, Indexes, Feed, NoteDone, Settle;
    var v' := OnExit(ss.c, w, ss.workers[w].over.value);
    if ss.c.settled.None? { HeldGone(cfg, ss.c, v', ss.workers, ss.records, w); }
    assert ss.records + [] == ss.records;
    HeldMore(cfg, v', v', ss.workers, ss.records, w, ss.workers[w].(exitSeen := true), []);
  }

  lemma HeldStep(cfg: Config, ss: Session, e: Event)
    requires Held(cfg, ss.c, ss.workers, ss.records) && Sound(cfg, ss.c, ss.records) && Drained(ss, e)
    ensures var after := Step(cfg, ss, e); Held(cfg, after.c, after.workers, after.records)
  {
    hide Held, Sound, OnMessage, OnExit, CheckUpTo, Own, Delivered;
    assert ss.records + [] == ss.records;
    match e
    case Deliver(w, now) =>
      if w < |ss.workers| && ss.workers[w].queue != [] { HeldDeliver(cfg, ss.c, ss.workers, ss.records, w, now); }
    case DeliverExit(w) =>
      if w < |ss.workers| && ss.workers[w].queue == [] && ss.workers[w].over.Some? { ExitHeld(cfg, ss, w); }
    case DeliverError => HeldSettled(cfg, ss.c, OnError(ss.c), ss.workers, ss.records);
    case Tick(now, gone) =>
      if ss.c.settled.None? && Over(ss, gone) {
        WorkerCount(cfg, ss);
        HeldCheckUpTo(cfg, ss.c, ss.workers, ss.records, now, gone, cfg.threads);
      }
    case Stop => HeldSettled(cfg, ss.c, RequestStop(cfg, ss.c), ss.workers, ss.records);
    case Signal(code) => HeldSettled(cfg, ss.c, OnSignal(ss.c, code), ss.workers, ss.records);
    case _ =>
      if e.w < |ss.workers| { HeldOwn(cfg, ss, e); }
  }

  lemma WorkerCount(cfg: Config, ss: Session)
    requires Held(cfg, ss.c, ss.workers, ss.records)
    ensures |ss.workers| == cfg.threads
  {
  }

  lemma ClassFloor(t: nat, i: nat)
    requires t > 0
    ensures i % t <= i
  {
  }

  lemma ClassOf(t: nat, w: nat)
    requires w < t
    ensures w % t == w
  {
  }

  lemma BegunHeld(cfg: Config, now: int)
    requires cfg.threads > 0
    ensures var ss := Begun(cfg, now); Held(cfg, ss.c, ss.workers, ss.records)
  {
    var ss := Begun(cfg, now);
    forall w: nat | w < |ss.workers|
      ensures WorkerOk(cfg.threads, w, ss.workers[w], LiveOf(ss.c, w), Indexes(ss.records), false) {
      forall i: nat | i % cfg.threads == w ensures i >= w { ClassFloor(cfg.threads, i); }
      ClassOf(cfg.threads, w);
    }
  }

  lemma {:induction false} RunHeld(cfg: Config, now: int, events: seq<Event>)
    requires cfg.threads > 0 && DrainedRun(cfg, Begun(cfg, now), events)
    ensures var end := Run(cfg, Begun(cfg, now), events); Held(cfg, end.c, end.workers, end.records)
  {
    hide Held, Step, Begun, Drained;
    if events == [] {
      BegunHeld(cfg, now);
    } else {
      var last := |events| - 1;
      RunHeld(cfg, now, events[..last]);
      RunSound(cfg, now, events[..last]);
      HeldStep(cfg, Run(cfg, Begun(cfg, now), events[..last]), events[last]);
    }
  }

  /** In every run in which a gone thread's messages are handed over before the watchdog
      takes notice: no case is recorded twice, even if a worker is written off as stuck and
      then reports after all; a record's worker is the one its case belongs to; and while
      the run is not settled, the records of each worker are its cases in order without a
      gap, up to the last one whose end it has reported. */
  lemma NoCaseTwice(cfg: Config, now: int, events: seq<Event>)
    requires cfg.threads > 0 && DrainedRun(cfg, Begun(cfg, now), events)
    ensures var end := Run(cfg, Begun(cfg, now), events);
            && NoneTwice(end.records)
            && (forall r :: r in end.records ==> r.worker == r.c.index % cfg.threads)
            && |end.workers| == cfg.threads
            && (end.c.settled.None? ==> forall w: nat :: w < cfg.threads
                                                         ==> InOrder(cfg.threads, w, end.workers[w],
                                                             Indexes(end.records)))
  {
    hide Step, Run, Begun, NoneTwice, Indexes, InOrder, Feed, Follows;
    RunHeld(cfg, now, events);
  }

  // ---- if a thread is seen to be gone too early -----------------------------------------------------

  lemma RunOneMore(cfg: Config, start: Session, events: seq<Event>, e: Event)
    ensures Run(cfg, start, events + [e]) == Step(cfg, Run(cfg, start, events), e)
  {
    assert (events + [e])[..|events|] == events;
  }

  lemma RunTwoParts(cfg: Config, start: Session, a: seq<Event>, b: seq<Event>)
    ensures Run(cfg, start, a + b) == Run(cfg, Run(cfg, start, a), b)
    decreases b
  {
    if b == [] {
      assert a + b == a;
    } else {
      var last := |b| - 1;
      assert (a + b)[..|a + b| - 1] == a + b[..last];
      RunTwoParts(cfg, start, a, b[..last]);
    }
  }

  const EXAMPLE := Config(2, 10, 100, 0, (c: Task) => c.md5)

  lemma FirstActs(ss: Session, k: Worker, j: Worker, e: Event)
    requires (e.Boot? || e.Begin? || e.Finish? || e.Complete? || e.Fail? || e.End?) && e.w == 0 && ss.workers == [k, j]
    ensures Step(EXAMPLE, ss, e) == ss.(workers := [Own(EXAMPLE, ss, k, e), j])
  {
    assert ss.workers[0 := Own(EXAMPLE, ss, k, e)] == [Own(EXAMPLE, ss, k, e), j];
  }

  lemma FirstDelivers(ss: Session, k: Worker, j: Worker, now: int)
    requires ss.workers == [k, j] && k.queue != []
    ensures var after := OnMessage(EXAMPLE, ss.c, 0, k.queue[0], now);
            Step(EXAMPLE, ss, Deliver(0, now)) == Session(after.0, [Delivered(EXAMPLE, k), j], ss.records + after.1)
  {
    assert ss.workers[0 := Delivered(EXAMPLE, k)] == [Delivered(EXAMPLE, k), j];
  }

  /** Two workers that have said they are ready. */
  lemma BothReady() returns (events: seq<Event>, ss: Session)
    ensures ss == Run(EXAMPLE, Begun(EXAMPLE, 1), events)
    ensures ss.c.settled.None? && ss.c.remaining == 2 && ss.c.started && ss.records == []
    ensures ss.c.live == map[0 := Spawned(1), 1 := Spawned(1)]
    ensures |ss.workers| == 2 && ss.workers[0] == Fresh(0).(phase := Waiting)
  {
    hide Run, Step;
    var s0 := Begun(EXAMPLE, 1);
    var s2 := BothBoot();
    ss := BothHeard(s2);
    RunOneMore(EXAMPLE, s0, [], Boot(0));
    RunOneMore(EXAMPLE, s0, [] + [Boot(0)], Boot(1));
    RunOneMore(EXAMPLE, s0, [] + [Boot(0)] + [Boot(1)], Deliver(0, 1));
    RunOneMore(EXAMPLE, s0, [] + [Boot(0)] + [Boot(1)] + [Deliver(0, 1)], Deliver(1, 1));
    RunNothing(s0);
    events := [] + [Boot(0)] + [Boot(1)] + [Deliver(0, 1)] + [Deliver(1, 1)];
  }

  lemma BothBoot() returns (ss: Session)
    ensures ss == Step(EXAMPLE, Step(EXAMPLE, Begun(EXAMPLE, 1), Boot(0)), Boot(1))
    ensures ss.c == Initial(EXAMPLE, 1) && ss.records == [] && ss.workers == [Waits(0), Waits(1)]
  {
    var s0 := Begun(EXAMPLE, 1);
    var s1 := Step(EXAMPLE, s0, Boot(0));
    assert s1.workers[0] == Waits(0) && s1.workers[1] == Fresh(1);
    ss := Step(EXAMPLE, s1, Boot(1));
  }

  function Waits(w: nat): Worker { Fresh(w).(phase := Waiting, queue := [Ready]) }

  lemma BothHeard(ss: Session) returns (after: Session)
    requires ss.c == Initial(EXAMPLE, 1) && ss.records == [] && ss.workers == [Waits(0), Waits(1)]
    ensures after == Step(EXAMPLE, Step(EXAMPLE, ss, Deliver(0, 1)), Deliver(1, 1))
    ensures after.c.settled.None? && after.c.remaining == 2 && after.c.started && after.records == []
    ensures after.c.live == map[0 := Spawned(1), 1 := Spawned(1)]
    ensures |after.workers| == 2 && after.workers[0] == Fresh(0).(phase := Waiting)
  {
    var s3 := Step(EXAMPLE, ss, Deliver(0, 1));
    assert s3.c.live == ss.c.live && s3.c.ready == 1 && s3.workers[1] == ss.workers[1];
    after := Step(EXAMPLE, s3, Deliver(1, 1));
    assert after.c.live == ss.c.live;
  }

  lemma RunNothing(ss: Session)
    ensures Run(EXAMPLE, ss, []) == ss
  {
  }

  /** The first worker at work on its first case, whose start has been delivered. */
  lemma AtWork(ss: Session, j: Worker) returns (after: Session)
    requires ss.workers == [Fresh(0).(phase := Waiting), j]
    requires ss.c.settled.None? && ss.c.started && ss.c.live == map[0 := Spawned(1), 1 := Spawned(1)]
             && ss.records == []
    ensures after == Run(EXAMPLE, ss, [Begin(0, "m", 1), Deliver(0, 1), Stop])
    ensures after.workers == [Worker(Waiting, 0, Some(Task(0, "m")), [], None, false, 0, true), j]
    ensures after.c.live == map[0 := Live(1, 0, Some(Task(0, "m")), 1, false, false), 1 := Spawned(1)]
    ensures after.records == [] && after.c.settled.None? && after.c.watching && after.c.remaining == ss.c.remaining
  {
    hide Run;
    var k0 := Fresh(0).(phase := Waiting);
    FirstActs(ss, k0, j, Begin(0, "m", 1));
    var k1 := Own(EXAMPLE, ss, k0, Begin(0, "m", 1));
    assert k1.queue == [CaseStart(Task(0, "m"), 1)] && k1.queue[1..] == [];
    var s1 := ss.(workers := [k1, j]);
    FirstDelivers(s1, k1, j, 1);
    var s2 := Step(EXAMPLE, s1, Deliver(0, 1));
    after := Step(EXAMPLE, s2, Stop);
    RunThree(ss, Begin(0, "m", 1), Deliver(0, 1), Stop);
  }

  lemma RunThree(ss: Session, a: Event, b: Event, c: Event)
    ensures Run(EXAMPLE, ss, [a, b, c]) == Step(EXAMPLE, Step(EXAMPLE, Step(EXAMPLE, ss, a), b), c)
  {
    hide Step;
    RunOneMore(EXAMPLE, ss, [], a);
    RunOneMore(EXAMPLE, ss, [a], b);
    RunOneMore(EXAMPLE, ss, [a, b], c);
    assert [] + [a] == [a] && [a] + [b] == [a, b] && [a, b] + [c] == [a, b, c];
  }

  /** Written off as stuck, the worker ends its case and its thread. */
  lemma WrittenOff(ss: Session, j: Worker) returns (after: Session)
    requires ss.workers == [Worker(Waiting, 0, Some(Task(0, "m")), [], None, false, 0, true), j]
    requires ss.c.live == map[0 := Live(1, 0, Some(Task(0, "m")), 1, false, false), 1 := Spawned(1)]
    requires ss.records == [] && ss.c.settled.None? && ss.c.watching && ss.c.remaining == 2
    ensures after == Run(EXAMPLE, ss, [Tick(200, {}), Finish(0, Passed), End(0, 1)])
    ensures |after.workers| == 2 && after.workers[0].queue == [CaseEnd(Task(0, "m"), Passed)]
            && after.workers[0].over.Some?
    ensures 0 in after.c.live && 1 in after.c.live && after.records == [Record(0, Task(0, "m"), InternalFailures)]
    ensures after.c.settled.None? && after.c.watching && after.c.remaining == 2
  {
    hide Run;
    var first := Check(EXAMPLE, ss.c, 200, {}, 0);
    assert first.1 == [Record(0, Task(0, "m"), InternalFailures)] && first.0.live.Keys == {0, 1};
    var second := Check(EXAMPLE, first.0, 200, {}, 1);
    assert second.1 == [] && second.0.live.Keys == {0, 1};
    assert CheckUpTo(EXAMPLE, ss.c, 200, {}, 0) == (ss.c, []);
    assert CheckUpTo(EXAMPLE, ss.c, 200, {}, 1) == (first.0, [] + first.1);
    assert CheckUpTo(EXAMPLE, ss.c, 200, {}, 2) == (second.0, ([] + first.1) + second.1);
    var s1 := Step(EXAMPLE, ss, Tick(200, {}));
    var k := ss.workers[0];
    FirstActs(s1, k, j, Finish(0, Passed));
    var k1 := Own(EXAMPLE, s1, k, Finish(0, Passed));
    var s2 := s1.(workers := [k1, j]);
    FirstActs(s2, k1, j, End(0, 1));
    after := Step(EXAMPLE, s2, End(0, 1));
    RunThree(ss, Tick(200, {}), Finish(0, Passed), End(0, 1));
  }

  /** The thread is taken for gone, its entry is dropped, and then its report comes in. */
  lemma ReportsLate(ss: Session) returns (after: Session)
    requires |ss.workers| == 2 && ss.workers[0].queue == [CaseEnd(Task(0, "m"), Passed)] && ss.workers[0].over.Some?
    requires 0 in ss.c.live && 1 in ss.c.live && ss.records == [Record(0, Task(0, "m"), InternalFailures)]
    requires ss.c.settled.None? && ss.c.watching && ss.c.remaining == 2
    ensures after == Run(EXAMPLE, ss, [Tick(300, {0}), Deliver(0, 301)])
    ensures !NoneTwice(after.records)
  {
    hide Run, LimitReached, Counted, Delivered;
    var first := Check(EXAMPLE, ss.c, 300, {0}, 0);
    assert first.1 == [] && 0 !in first.0.live && first.0.settled.None?;
    var second := Check(EXAMPLE, first.0, 300, {0}, 1);
    assert 0 !in second.0.live && second.0.settled.None?;
    assert CheckUpTo(EXAMPLE, ss.c, 300, {0}, 0) == (ss.c, []);
    assert CheckUpTo(EXAMPLE, ss.c, 300, {0}, 1) == (first.0, [] + first.1);
    assert CheckUpTo(EXAMPLE, ss.c, 300, {0}, 2) == (second.0, ([] + first.1) + second.1);
    var s1 := Step(EXAMPLE, ss, Tick(300, {0}));
    after := Step(EXAMPLE, s1, Deliver(0, 301));
    var last := |after.records| - 1;
    assert after.records[0].c.index == 0 && after.records[last].c.index == 0 && last > 0;
    RunOneMore(EXAMPLE, ss, [], Tick(300, {0}));
    RunOneMore(EXAMPLE, ss, [Tick(300, {0})], Deliver(0, 301));
    assert [] + [Tick(300, {0})] == [Tick(300, {0})];
    assert [Tick(300, {0})] + [Deliver(0, 301)] == [Tick(300, {0}), Deliver(0, 301)];
    RunNothing(ss);
  }

  /** The proviso is needed: a watchdog that sees a thread gone while its last report is
      still on the way lets a case be recorded as stuck and once more as reported. */
  lemma EarlyTick() returns (events: seq<Event>)
    ensures !NoneTwice(Run(EXAMPLE, Begun(EXAMPLE, 1), events).records)
    ensures !DrainedRun(EXAMPLE, Begun(EXAMPLE, 1), events)
  {
    hide Run, Begun, Step, NoneTwice, DrainedRun;
    var start := Begun(EXAMPLE, 1);
    var begin, s1 := BothReady();
    var work := [Begin(0, "m", 1), Deliver(0, 1), Stop];
    var off := [Tick(200, {}), Finish(0, Passed), End(0, 1)];
    var late := [Tick(300, {0}), Deliver(0, 301)];
    assert s1.workers == [s1.workers[0], s1.workers[1]];
    var s2 := AtWork(s1, s1.workers[1]);
    var s3 := WrittenOff(s2, s1.workers[1]);
    var s4 := ReportsLate(s3);
    RunTwoParts(EXAMPLE, start, begin, work);
    RunTwoParts(EXAMPLE, start, begin + work, off);
    RunTwoParts(EXAMPLE, start, begin + work + off, late);
    events := begin + work + off + late;
    if DrainedRun(EXAMPLE, start, events) { NoCaseTwice(EXAMPLE, 1, events); }
  }
}
