/** The main thread of a parallel fuzz run: what it keeps about its workers and what each
    event makes of it. */
module FuzzCoordinator {
  import opened Syntax

  datatype Status =
    | Passed | VmFailures | CompileErrors | RuntimeErrors | DifferentialFailures | ExpectedRuntimeErrors
    | InternalFailures | RuntimeTimeouts | Timeouts | Skipped

  const STATUSES: seq<Status> := [Passed, VmFailures, CompileErrors, RuntimeErrors, DifferentialFailures,
      ExpectedRuntimeErrors,
                                  InternalFailures, RuntimeTimeouts, Timeouts, Skipped]

  const ERROR_STATUSES: seq<Status> := [RuntimeTimeouts, VmFailures, CompileErrors, RuntimeErrors, DifferentialFailures,
                                        ExpectedRuntimeErrors, InternalFailures]

  datatype Task = Task(index: nat, md5: string)
  datatype Message = Ready | CaseStart(c: Task, startedAt: int) | CaseEnd(c: Task, status: Status) | Failed | Done
  datatype Outcome = Resolved | WorkerFailed(worker: nat) | Crashed | Exited(worker: nat,
      code: int) | Interrupted(code: int)

  /** `restored` is the hash of the source a stuck case is restored as. */
  datatype Config = Config(threads: nat, idleCheckMs: int, stuckMs: int, errorLimit: int, restored: Task -> string)

  /** What is known of a worker that has not finished. */
  datatype Live = Live(lastSeenAt: int, lastReportAt: int, currentCase: Option<Task>, currentCaseStartedAt: int,
                       stuckHandled: bool, terminating: bool)

  datatype Record = Record(worker: nat, c: Task, status: Status)

  datatype Stats = Stats(counts: map<Status, nat>, hashes: set<string>, duplicates: nat, perWorker: map<nat, nat>)

  datatype View = View(remaining: int, ready: nat, started: bool, settled: Option<Outcome>, live: map<nat, Live>,
                       stopFlag: bool, watching: bool, checked: nat, stats: Stats)

  // ---- what each event does -----------------------------------------------------------------

  function Settle(v: View, o: Outcome): View {
    if v.settled.Some? then v else v.(settled := Some(o), watching := false)
  }

  function NoteDone(v: View, w: nat): View {
    if w !in v.live then v
    else
      var less := v.(live := v.live - {w}, remaining := v.remaining - 1);
      if less.remaining == 0 then Settle(less, Resolved) else less
  }

  function Put(v: View, w: nat, state: Live): View { v.(live := v.live[w := state]) }

  function Seen(v: View, w: nat, now: int): View {
    if w in v.live then Put(v, w, v.live[w].(lastSeenAt := now)) else v
  }

  function Started(v: View, w: nat, c: Task, at: int): View {
    if w in v.live then Put(v, w, v.live[w].(currentCase := Some(c), currentCaseStartedAt := at, stuckHandled := false))
                        else v
  }

  function Ended(v: View, w: nat): View {
    if w in v.live then Put(v, w, v.live[w].(currentCase := None, currentCaseStartedAt := 0, stuckHandled := false))
                        else v
  }

  function RequestStop(cfg: Config, v: View): View {
    v.(stopFlag := true, watching := v.watching || cfg.idleCheckMs > 0)
  }

  function Count(counts: map<Status, nat>, s: Status): nat { if s in counts then counts[s] else 0 }

  function PerWorker(counts: map<nat, nat>, w: nat): nat { if w in counts then counts[w] else 0 }

  function Counted(stats: Stats, r: Record): Stats {
    Stats(stats.counts[r.status := Count(stats.counts, r.status) + 1],
          if r.c.md5 == "" then stats.hashes else stats.hashes + {r.c.md5},
          if r.c.md5 != "" && r.c.md5 in stats.hashes then stats.duplicates + 1 else stats.duplicates,
          stats.perWorker[r.worker := PerWorker(stats.perWorker, r.worker) + 1])
  }

  function RecordResult(v: View, r: Record): View {
    v.(stats := Counted(v.stats, r), checked := v.checked + 1)
  }

  function SumOver(statuses: seq<Status>, counts: map<Status, nat>): nat {
    if statuses == [] then 0 else Count(counts, statuses[0]) + SumOver(statuses[1..], counts)
  }

  predicate LimitReached(cfg: Config, stats: Stats) {
    cfg.errorLimit > 0 && SumOver(ERROR_STATUSES, stats.counts) >= cfg.errorLimit
  }

  /** A message's effect, and what it puts on record. */
  function OnMessage(cfg: Config, v: View, w: nat, m: Message, now: int): (View, seq<Record>) {
    if v.settled.Some? then (v, [])
    else
      var seen := Seen(v, w, now);
      match m
      case Ready => (seen.(ready := v.ready + 1, started := v.started || v.ready + 1 == cfg.threads), [])
      case CaseStart(c, startedAt) => (Started(seen, w, c, if startedAt != 0 then startedAt else now), [])
      case CaseEnd(c, status) =>
        if w in v.live && v.live[w].stuckHandled then (seen, [])
        else
          var r := Record(w, c, status);
          var recorded := RecordResult(Ended(seen, w), r);
          (if LimitReached(cfg, recorded.stats) then RequestStop(cfg, recorded) else recorded, [r])
      case Failed => (Settle(seen, WorkerFailed(w)), [])
      case Done => (NoteDone(seen, w), [])
  }

  function OnExit(v: View, w: nat, code: int): View {
    if v.settled.Some? then v
    else if (w in v.live && v.live[w].terminating) || code == 0 then NoteDone(v, w)
    else Settle(v, Exited(w, code))
  }

  function OnError(v: View): View { Settle(v, Crashed) }

  function OnSignal(v: View, code: int): View { Settle(v.(stopFlag := true), Interrupted(code)) }

  predicate Stuck(cfg: Config, state: Live, now: int) {
    cfg.stuckMs > 0 && state.currentCase.Some? && state.currentCaseStartedAt != 0 && !state.stuckHandled
    && now - state.currentCaseStartedAt >= cfg.stuckMs
  }

  function StuckRecord(cfg: Config, w: nat, c: Task): Record {
    Record(w, Task(c.index, cfg.restored(c)), InternalFailures)
  }

  /** What the watchdog does about one worker; `gone` are the threads that are over. */
  function Check(cfg: Config, v: View, now: int, gone: set<nat>, w: nat): (View, seq<Record>) {
    if w !in v.live then (v, [])
    else if w in gone then (NoteDone(v, w), [])
    else
      var state := v.live[w];
      if state.terminating || now - state.lastSeenAt < cfg.idleCheckMs || now - state.lastReportAt < cfg.idleCheckMs
          then (v, [])
      else if Stuck(cfg, state, now) then
        var r := StuckRecord(cfg, w, state.currentCase.value);
        (RecordResult(Put(v, w, state.(lastReportAt := now, stuckHandled := true, terminating := true)), r), [r])
      else (Put(v, w, state.(lastReportAt := now)), [])
  }

  function CheckUpTo(cfg: Config, v: View, now: int, gone: set<nat>, n: nat): (View, seq<Record>) {
    if n == 0 then (v, [])
    else
      var before := CheckUpTo(cfg, v, now, gone, n - 1);
      var after := Check(cfg, before.0, now, gone, n - 1);
      (after.0, before.1 + after.1)
  }

  function OnTick(cfg: Config, v: View, now: int, gone: set<nat>): (View, seq<Record>) {
    if v.settled.Some? || v.live == map[] then (v, []) else CheckUpTo(cfg, v, now, gone, cfg.threads)
  }

  function Spawned(now: int): Live { Live(now, 0, None, 0, false, false) }

  function SpawnedUpTo(n: nat, now: int): (live: map<nat, Live>)
    ensures forall w: nat :: w in live <==> w < n
    ensures forall w: nat :: w in live ==> live[w] == Spawned(now)
    ensures |live| == n
  {
    if n == 0 then map[] else SpawnedUpTo(n - 1, now)[n - 1 := Spawned(now)]
  }

  function Initial(cfg: Config, now: int): View {
    View(cfg.threads, 0, false, None, SpawnedUpTo(cfg.threads, now), false, false, 0, Stats(map[], {}, 0, map[]))
  }

  // ---- the coordinator as it runs -----------------------------------------------------------

  class Coordinator {
    const cfg: Config
    var remaining: int
    var ready: nat
    var started: bool
    var settled: Option<Outcome>
    var liveWorkers: map<nat, Live>
    var stopFlag: bool
    var watching: bool
    var checkedCases: nat
    var counts: map<Status, nat>
    var sourceHashes: set<string>
    var duplicateCases: nat
    var workerCounts: map<nat, nat>
    ghost var records: seq<Record>

    ghost function Now(): View
      reads this
    {
      View(remaining, ready, started, settled, liveWorkers, stopFlag, watching, checkedCases,
           Stats(counts, sourceHashes, duplicateCases, workerCounts))
    }

    constructor (cfg: Config, now: int)
      ensures this.cfg == cfg && Now() == Initial(cfg, now) && records == []
    {
      this.cfg := cfg;
      remaining := cfg.threads;
      ready := 0;
      started := false;
      settled := None;
      stopFlag := false;
      watching := false;
      checkedCases := 0;
      counts := map[];
      sourceHashes := {};
      duplicateCases := 0;
      workerCounts := map[];
      records := [];
      liveWorkers := map[];
      new;
      for w := 0 to cfg.threads
        invariant this.cfg == cfg && records == []
        invariant Now() == Initial(cfg, now).(live := SpawnedUpTo(w, now))
      {
        liveWorkers := liveWorkers[w := Spawned(now)];
      }
    }

    method SettleOnce(o: Outcome)
      modifies this
      ensures Now() == Settle(old(Now()), o) && records == old(records)
    {
      if settled.Some? {
        return;
      }
      settled := Some(o);
      watching := false;
    }

    method NoteWorkerDone(w: nat)
      modifies this
      ensures Now() == NoteDone(old(Now()), w) && records == old(records)
    {
      if w !in liveWorkers {
        return;
      }
      liveWorkers := liveWorkers - {w};
      remaining := remaining - 1;
      if remaining == 0 {
        SettleOnce(Resolved);
      }
    }

    method MarkWorkerSeen(w: nat, now: int)
      modifies this
      ensures Now() == Seen(old(Now()), w, now) && records == old(records)
    {
      if w in liveWorkers {
        liveWorkers := liveWorkers[w := liveWorkers[w].(lastSeenAt := now)];
      }
    }

    method MarkWorkerCaseStart(w: nat, c: Task, startedAt: int, now: int)
      modifies this
      ensures Now() == Started(old(Now()), w, c, if startedAt != 0 then startedAt else now) && records == old(records)
    {
      if w in liveWorkers {
        var at := if startedAt != 0 then startedAt else now;
        liveWorkers := liveWorkers[w := liveWorkers[w].(currentCase := Some(c), currentCaseStartedAt := at,
            stuckHandled := false)];
      }
    }

    method MarkWorkerCaseDone(w: nat)
      modifies this
      ensures Now() == Ended(old(Now()), w) && records == old(records)
    {
      if w in liveWorkers {
        liveWorkers := liveWorkers[w := liveWorkers[w].(currentCase := None, currentCaseStartedAt := 0,
            stuckHandled := false)];
      }
    }

    method AskToStop()
      modifies this
      ensures Now() == RequestStop(cfg, old(Now())) && records == old(records)
    {
      stopFlag := true;
      if watching || cfg.idleCheckMs <= 0 {
        return;
      }
      watching := true;
    }

    method RecordWorkerCase(w: nat)
      modifies this`workerCounts
      ensures workerCounts == old(workerCounts)[w := PerWorker(old(workerCounts), w) + 1]
    {
      workerCounts := workerCounts[w := PerWorker(workerCounts, w) + 1];
    }

    method RecordGeneratedIdentity(c: Task)
      modifies this`sourceHashes, this`duplicateCases
      ensures sourceHashes == if c.md5 == "" then old(sourceHashes) else old(sourceHashes) + {c.md5}
      ensures duplicateCases == if c.md5 != "" && c.md5 in old(sourceHashes)
              then old(duplicateCases) + 1 else old(duplicateCases)
    {
      if c.md5 == "" {
        return;
      }
      if c.md5 in sourceHashes {
        duplicateCases := duplicateCases + 1;
        assert sourceHashes + {c.md5} == sourceHashes;
        return;
      }
      sourceHashes := sourceHashes + {c.md5};
    }

    method RecordFuzzResult(w: nat, c: Task, status: Status)
      modifies this
      ensures Now() == RecordResult(old(Now()), Record(w, c, status))
              && records == old(records) + [Record(w, c, status)]
    {
      hide Count, PerWorker;
      RecordWorkerCase(w);
      RecordGeneratedIdentity(c);
      counts := counts[status := Count(counts, status) + 1];
      checkedCases := checkedCases + 1;
      records := records + [Record(w, c, status)];
    }

    method ErrorLimitReached() returns (reached: bool)
      ensures reached == LimitReached(cfg, Now().stats)
    {
      if cfg.errorLimit <= 0 {
        return false;
      }
      var total := 0;
      for k := 0 to |ERROR_STATUSES|
        invariant total + SumOver(ERROR_STATUSES[k..], counts) == SumOver(ERROR_STATUSES, counts)
      {
        assert ERROR_STATUSES[k..][0] == ERROR_STATUSES[k] && ERROR_STATUSES[k..][1..] == ERROR_STATUSES[k + 1..];
        total := total + Count(counts, ERROR_STATUSES[k]);
      }
      reached := total >= cfg.errorLimit;
    }

    method HandleMessage(w: nat, m: Message, now: int)
      modifies this
      ensures var after := OnMessage(cfg, old(Now()), w, m, now); Now() == after.0 && records == old(records) + after.1
    {
      hide LimitReached, Counted;
      if settled.Some? {
        return;
      }
      MarkWorkerSeen(w, now);
      match m {
        case Ready =>
          ready := ready + 1;
          if ready == cfg.threads {
            started := true;
          }
        case CaseStart(c, startedAt) => MarkWorkerCaseStart(w, c, startedAt, now);
        case CaseEnd(c, status) =>
          if w in liveWorkers && liveWorkers[w].stuckHandled {
            return;
          }
          MarkWorkerCaseDone(w);
          RecordFuzzResult(w, c, status);
          var reached := ErrorLimitReached();
          if reached {
            AskToStop();
          }
        case Failed => SettleOnce(WorkerFailed(w));
        case Done => NoteWorkerDone(w);
      }
    }

    method HandleExit(w: nat, code: int)
      modifies this
      ensures Now() == OnExit(old(Now()), w, code) && records == old(records)
    {
      if settled.Some? {
        return;
      }
      if w in liveWorkers && liveWorkers[w].terminating {
        NoteWorkerDone(w);
        return;
      }
      if code == 0 {
        NoteWorkerDone(w);
        return;
      }
      SettleOnce(Exited(w, code));
    }

    method HandleSignal(code: int)
      modifies this
      ensures Now() == OnSignal(old(Now()), code) && records == old(records)
    {
      stopFlag := true;
      SettleOnce(Interrupted(code));
    }

    method CheckWorker(w: nat, now: int, gone: set<nat>)
      modifies this
      ensures var after := Check(cfg, old(Now()), now, gone, w); Now() == after.0 && records == old(records) + after.1
    {
      hide Counted;
      if w !in liveWorkers {
        return;
      }
      if w in gone {
        NoteWorkerDone(w);
        return;
      }
      var state := liveWorkers[w];
      if state.terminating || now - state.lastSeenAt < cfg.idleCheckMs || now - state.lastReportAt < cfg.idleCheckMs {
        return;
      }
      liveWorkers := liveWorkers[w := state.(lastReportAt := now)];
      if Stuck(cfg, state, now) {
        ArchiveStuckWorker(w);
      }
    }

    method ArchiveStuckWorker(w: nat)
      requires w in liveWorkers && liveWorkers[w].currentCase.Some?
      modifies this
      ensures var state := old(liveWorkers[w]);
              var r := StuckRecord(cfg, w, state.currentCase.value);
              Now() == RecordResult(Put(old(Now()), w, state.(stuckHandled := true, terminating := true)), r)
                  && records == old(records) + [r]
    {
      var state := liveWorkers[w];
      liveWorkers := liveWorkers[w := state.(stuckHandled := true, terminating := true)];
      var c := state.currentCase.value;
      RecordFuzzResult(w, Task(c.index, cfg.restored(c)), InternalFailures);
    }

    method CheckWorkerLiveness(now: int, gone: set<nat>)
      modifies this
      ensures var after := OnTick(cfg, old(Now()), now, gone); Now() == after.0 && records == old(records) + after.1
    {
      hide Check;
      if settled.Some? || |liveWorkers| == 0 {
        assert |liveWorkers| == 0 ==> liveWorkers == map[]
                                      by { if |liveWorkers| == 0 { assert liveWorkers.Keys == {}; } }
        return;
      }
      for w := 0 to cfg.threads
        invariant var after := CheckUpTo(cfg, old(Now()), now, gone, w);
                  Now() == after.0 && records == old(records) + after.1
      {
        CheckWorker(w, now, gone);
      }
    }
  }
}
