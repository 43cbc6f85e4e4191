/** How a fuzz session ends and why: every outcome goes back to the events that bring it
    about, and the flags to the messages that set them. */
module FuzzOutcomes {
  import opened Syntax
  import opened FuzzCoordinator
  import opened FuzzRuns

  /** The watchdog has given up on a worker that has not finished. */
  predicate GivenUp(v: View, w: nat) { w in v.live && v.live[w].terminating }

  /** The next message of worker `w`, if there is one. */
  predicate Next(ss: Session, w: nat, m: Message) {
    w < |ss.workers| && ss.workers[w].queue != [] && ss.workers[w].queue[0] == m
  }

  /** The thread of worker `w` has ended, and that can be reported now. */
  predicate ExitDue(ss: Session, w: nat) {
    w < |ss.workers| && ss.workers[w].queue == [] && ss.workers[w].over.Some? && !ss.workers[w].exitSeen
  }

  // ---- a worker is done ----------------------------------------------------------------------

  /** Why the session need not wait for worker `w`: it says that it is done; its thread ends
      with code 0, or after the watchdog has given up on it; or the watchdog sees that its
      thread is over. */
  predicate Excuses(ss: Session, e: Event, w: nat) {
    ss.c.settled.None? && w in ss.c.live &&
    match e
    case Deliver(u, _) => u == w && Next(ss, w, Done)
    case DeliverExit(u) => u == w && ExitDue(ss, w) && (ss.workers[w].over == Some(0) || GivenUp(ss.c, w))
    case Tick(_, gone) => ss.c.watching && Over(ss, gone) && w in gone && w < |ss.workers|
                          && ss.workers[w].over.Some?
    case _ => false
  }

  lemma {:induction false} CheckedLeaves(cfg: Config, v: View, now: int, gone: set<nat>, n: nat, w: nat)
    requires w in v.live
    ensures w in CheckUpTo(cfg, v, now, gone, n).0.live <==> w !in gone || w >= n
    decreases n
  {
    if n > 0 {
      CheckedLeaves(cfg, v, now, gone, n - 1, w);
      CheckLeaves(cfg, CheckUpTo(cfg, v, now, gone, n - 1).0, now, gone, n - 1, w);
    }
  }

  lemma CheckLeaves(cfg: Config, v: View, now: int, gone: set<nat>, u: nat, w: nat)
    ensures w in Check(cfg, v, now, gone, u).0.live <==> w in v.live && !(u == w && w in gone)
  {
    hide Stuck, Counted;
  }

  /** What a worker's own events leave alone. */
  lemma OwnLeaves(cfg: Config, ss: Session, e: Event)
    requires e.Boot? || e.Begin? || e.Finish? || e.Complete? || e.Fail? || e.End?
    ensures Step(cfg, ss, e).c == ss.c
  {
  }

  lemma MessageLeaves(cfg: Config, v: View, w: nat, m: Message, now: int, u: nat)
    requires v.settled.None?
    ensures u in OnMessage(cfg, v, w, m, now).0.live <==> u in v.live && !(u == w && m == Done)
  {
    hide LimitReached, RecordResult, Put, Started, Ended, Seen;
    var seen := Seen(v, w, now);
    SeenKeys(v, w, now);
    match m
    case CaseStart(c, at) => StartedKeys(seen, w, c, if at != 0 then at else now);
    case CaseEnd(c, status) =>
      EndedKeys(seen, w);
      RecordLeaves(Ended(seen, w), Record(w, c, status));
    case _ =>
  }

  /** A worker leaves the live ones exactly at an excuse. */
  lemma LeavesExcused(cfg: Config, ss: Session, e: Event, w: nat)
    requires Roll(cfg, ss.c) && |ss.workers| == cfg.threads && ExitsCount(ss) && w in ss.c.live
    ensures w !in Step(cfg, ss, e).c.live <==> Excuses(ss, e, w)
  {
    hide OnMessage, Check, CheckUpTo, Own, Delivered;
    if ss.c.settled.Some? {
      SettledStep(cfg, ss, e);
    } else {
      match e
      case Deliver(u, now) =>
        if u < |ss.workers| && ss.workers[u].queue != [] {
          MessageLeaves(cfg, ss.c, u, ss.workers[u].queue[0], now, w);
        }
      case DeliverExit(u) =>
        if u == w && w < |ss.workers| && ss.workers[w].over.Some? && ss.workers[w].queue == [] {
          assert !ss.workers[w].exitSeen;
        }
      case Tick(now, gone) => CheckedLeaves(cfg, ss.c, now, gone, cfg.threads, w);
      case DeliverError =>
      case Stop =>
      case Signal(_) =>
      case _ => OwnLeaves(cfg, ss, e);
    }
  }

  // ---- how it ends ---------------------------------------------------------------------------

  /** An event that ends a session badly: a worker says that it failed, its thread ends with
      another code than 0 and the watchdog has not given up on it, a thread breaks down, or a
      signal comes. */
  predicate Fails(ss: Session, e: Event, o: Outcome) {
    ss.c.settled.None? &&
    match o
    case Resolved => false
    case WorkerFailed(w) => e.Deliver? && e.w == w && Next(ss, w, Failed)
    case Exited(w, code) => e == DeliverExit(w) && ExitDue(ss, w) && ss.workers[w].over == Some(code) && code != 0
                            && !GivenUp(ss.c, w)
    case Crashed => e.DeliverError?
    case Interrupted(code) => e == Signal(code)
  }

  /** A session that has not ended ends badly exactly at such an event, and with its outcome. */
  lemma FailsSettles(cfg: Config, ss: Session, e: Event, o: Outcome)
    requires Roll(cfg, ss.c) && ss.c.settled.None? && o != Resolved
    ensures Step(cfg, ss, e).c.settled == Some(o) <==> Fails(ss, e, o)
  {
    hide Check, CheckUpTo, Own, Delivered, Over, Roll, OnMessage;
    match e
    case Deliver(u, now) =>
      if u < |ss.workers| && ss.workers[u].queue != [] {
        MessageSettles(cfg, ss.c, u, ss.workers[u].queue[0], now, o);
      }
    case DeliverExit(u) =>
    case Tick(now, gone) => CheckedSettles(cfg, ss.c, now, gone, cfg.threads);
    case DeliverError =>
    case Stop =>
    case Signal(_) =>
    case _ => OwnLeaves(cfg, ss, e);
  }

  lemma MessageSettles(cfg: Config, v: View, w: nat, m: Message, now: int, o: Outcome)
    requires v.settled.None? && o != Resolved
    ensures OnMessage(cfg, v, w, m, now).0.settled == Some(o) <==> m == Failed && o == WorkerFailed(w)
  {
    hide LimitReached, Counted;
  }

  lemma {:induction false} CheckedSettles(cfg: Config, v: View, now: int, gone: set<nat>, n: nat)
    requires v.settled.None? || v.settled == Some(Resolved)
    ensures var u := CheckUpTo(cfg, v, now, gone, n).0; u.settled.None? || u.settled == Some(Resolved)
    decreases n
  {
    hide Stuck, Counted;
    if n > 0 { CheckedSettles(cfg, v, now, gone, n - 1); }
  }

  /** At some event of the run the session need no longer wait for `w`. */
  ghost predicate Excused(cfg: Config, start: Session, events: seq<Event>, w: nat) {
    exists n :: 0 <= n < |events| && Excuses(Run(cfg, start, events[..n]), events[n], w)
  }

  ghost predicate FailedWith(cfg: Config, start: Session, events: seq<Event>, o: Outcome) {
    exists n :: 0 <= n < |events| && Fails(Run(cfg, start, events[..n]), events[n], o)
  }

  lemma ExcusedMore(cfg: Config, start: Session, events: seq<Event>, w: nat)
    requires events != []
    ensures var less := events[..|events| - 1];
            Excused(cfg, start, events, w)
            <==> Excused(cfg, start, less, w) || Excuses(Run(cfg, start, less), events[|events| - 1], w)
  {
    hide Run, Excuses;
    var last := |events| - 1;
    var less := events[..last];
    if n :| 0 <= n < |events| && Excuses(Run(cfg, start, events[..n]), events[n], w) {
      if n < last { assert less[..n] == events[..n]; }
    }
    if n :| 0 <= n < |less| && Excuses(Run(cfg, start, less[..n]), less[n], w) {
      assert less[..n] == events[..n] && less[n] == events[n];
    }
  }

  lemma FailedMore(cfg: Config, start: Session, events: seq<Event>, o: Outcome)
    requires events != []
    ensures var less := events[..|events| - 1];
            FailedWith(cfg, start, events, o)
            <==> FailedWith(cfg, start, less, o) || Fails(Run(cfg, start, less), events[|events| - 1], o)
  {
    hide Run, Fails;
    var last := |events| - 1;
    var less := events[..last];
    if n :| 0 <= n < |events| && Fails(Run(cfg, start, events[..n]), events[n], o) {
      if n < last { assert less[..n] == events[..n]; }
    }
    if n :| 0 <= n < |less| && Fails(Run(cfg, start, less[..n]), less[n], o) {
      assert less[..n] == events[..n] && less[n] == events[n];
    }
  }

  /** Nobody is missing from the live workers without an excuse; and a session that ended
      badly still has live ones. */
  ghost predicate Accounts(cfg: Config, start: Session, events: seq<Event>) {
    var end := Run(cfg, start, events);
    && (forall w :: 0 <= w < cfg.threads ==> (w !in end.c.live <==> Excused(cfg, start, events, w)))
    && (end.c.settled.Some? && end.c.settled != Some(Resolved) ==> end.c.live != map[])
  }

  lemma {:induction false} RunAccounts(cfg: Config, now: int, events: seq<Event>)
    requires cfg.threads > 0
    ensures Accounts(cfg, Begun(cfg, now), events)
    decreases |events|
  {
    hide Step, Roll, Tally, ExitsCount, Excuses, Fails;
    var start := Begun(cfg, now);
    if events == [] {
      BegunLive(cfg, now);
    } else {
      var last := |events| - 1;
      var less := events[..last];
      var ss, e := Run(cfg, start, less), events[last];
      RunAccounts(cfg, now, less);
      RunSound(cfg, now, less);
      RunExits(cfg, now, less);
      forall w | 0 <= w < cfg.threads
        ensures w !in Step(cfg, ss, e).c.live <==> Excused(cfg, start, events, w)
      {
        ExcusedMore(cfg, start, events, w);
        if w in ss.c.live { LeavesExcused(cfg, ss, e, w); } else { StaysAway(cfg, ss, e, w); }
      }
      EndsWithLive(cfg, ss, e);
    }
  }

  lemma BegunLive(cfg: Config, now: int)
    ensures forall w :: 0 <= w < cfg.threads ==> w in Begun(cfg, now).c.live
    ensures Begun(cfg, now).c.settled.None?
  {
  }

  lemma StaysAway(cfg: Config, ss: Session, e: Event, w: nat)
    requires w !in ss.c.live
    ensures w !in Step(cfg, ss, e).c.live && !Excuses(ss, e, w)
  {
    hide OnMessage, CheckUpTo, Own, Delivered, Over;
    match e
    case Deliver(u, now) =>
      if u < |ss.workers| && ss.workers[u].queue != [] { MessageShrinks(cfg, ss.c, u, ss.workers[u].queue[0], now); }
    case Tick(now, gone) => CheckUpToShrinks(cfg, ss.c, now, gone, cfg.threads);
    case DeliverExit(_) =>
    case DeliverError =>
    case Stop =>
    case Signal(_) =>
    case _ => OwnLeaves(cfg, ss, e);
  }

  lemma EndsWithLive(cfg: Config, ss: Session, e: Event)
    requires Roll(cfg, ss.c) && cfg.threads > 0 && |ss.workers| == cfg.threads && ExitsCount(ss)
    requires ss.c.settled.Some? && ss.c.settled != Some(Resolved) ==> ss.c.live != map[]
    ensures var after := Step(cfg, ss, e).c;
            after.settled.Some? && after.settled != Some(Resolved) ==> after.live != map[]
  {
    hide Step, Excuses, ExitsCount;
    var after := Step(cfg, ss, e).c;
    if ss.c.settled.Some? {
      SettledStep(cfg, ss, e);
    } else if after.settled.Some? && after.settled != Some(Resolved) {
      FailsSettles(cfg, ss, e, after.settled.value);
      var w :| w in ss.c.live;
      LeavesExcused(cfg, ss, e, w);
      NoExcuse(ss, e, after.settled.value, w);
    }
  }

  lemma NoExcuse(ss: Session, e: Event, o: Outcome, w: nat)
    requires Fails(ss, e, o)
    ensures !Excuses(ss, e, w)
  {
  }

  /** In every run: a bad outcome goes back to exactly the event that names it, and a session
      is resolved exactly when no worker is left without an excuse. A thread that ends with a
      code of its own making is never taken for a success. */
  lemma {:induction false} OutcomeExplained(cfg: Config, now: int, events: seq<Event>, o: Outcome)
    requires cfg.threads > 0
    ensures var start := Begun(cfg, now);
            Run(cfg, start, events).c.settled == Some(o)
            <==> if o == Resolved then forall w :: 0 <= w < cfg.threads ==> Excused(cfg, start, events, w)
                 else FailedWith(cfg, start, events, o)
    decreases |events|
  {
    hide Step, Tally, Excused, Fails, FailedWith;
    var start := Begun(cfg, now);
    var end := Run(cfg, start, events);
    if o == Resolved {
      RunAccounts(cfg, now, events);
      RunSound(cfg, now, events);
      if forall w :: 0 <= w < cfg.threads ==> Excused(cfg, start, events, w) {
        assert forall w :: w in end.c.live ==> 0 <= w < cfg.threads;
        assert end.c.live == map[];
      }
    } else {
      BadOutcome(cfg, now, events, o);
    }
  }

  lemma {:induction false} BadOutcome(cfg: Config, now: int, events: seq<Event>, o: Outcome)
    requires cfg.threads > 0 && o != Resolved
    ensures Run(cfg, Begun(cfg, now), events).c.settled == Some(o) <==> FailedWith(cfg, Begun(cfg, now), events, o)
    decreases |events|
  {
    hide Step, Roll, Tally, Fails;
    var start := Begun(cfg, now);
    if events == [] {
      BegunLive(cfg, now);
    } else {
      var less, e := events[..|events| - 1], events[|events| - 1];
      var ss := Run(cfg, start, less);
      BadOutcome(cfg, now, less, o);
      FailedMore(cfg, start, events, o);
      if ss.c.settled.Some? {
        SettledStep(cfg, ss, e);
        AlreadySettled(ss, e, o);
      } else {
        RunSound(cfg, now, less);
        FailsSettles(cfg, ss, e, o);
      }
    }
  }

  lemma AlreadySettled(ss: Session, e: Event, o: Outcome)
    requires ss.c.settled.Some?
    ensures !Fails(ss, e, o)
  {
  }

  // ---- when the workers are started ------------------------------------------------------------

  /** Worker `w` reports ready to a session that has not ended. */
  predicate Reports(ss: Session, e: Event, w: nat) {
    ss.c.settled.None? && e.Deliver? && e.w == w && Next(ss, w, Ready)
  }

  ghost predicate Reported(cfg: Config, start: Session, events: seq<Event>, w: nat) {
    exists n :: 0 <= n < |events| && Reports(Run(cfg, start, events[..n]), events[n], w)
  }

  lemma ReportedMore(cfg: Config, start: Session, events: seq<Event>, w: nat)
    requires events != []
    ensures var less := events[..|events| - 1];
            Reported(cfg, start, events, w)
            <==> Reported(cfg, start, less, w) || Reports(Run(cfg, start, less), events[|events| - 1], w)
  {
    hide Run, Reports;
    var last := |events| - 1;
    var less := events[..last];
    if n :| 0 <= n < |events| && Reports(Run(cfg, start, events[..n]), events[n], w) {
      if n < last { assert less[..n] == events[..n]; }
    }
    if n :| 0 <= n < |less| && Reports(Run(cfg, start, less[..n]), less[n], w) {
      assert less[..n] == events[..n] && less[n] == events[n];
    }
  }

  /** A worker says that it is ready before anything else, and once. */
  predicate ReadyFirst(k: Worker, reported: bool) {
    && (forall j :: 0 < j < |k.queue| ==> k.queue[j] != Ready)
    && (reported ==> k.queue == [] || k.queue[0] != Ready)
    && (k.phase == Booting ==> k.queue == [] && !reported)
  }

  /** The count of ready workers is right, given who has reported. */
  ghost predicate ReadyCount(cfg: Config, ss: Session, reported: set<nat>) {
    && |ss.workers| == cfg.threads && ss.c.ready == |reported| && (ss.c.started <==> |reported| == cfg.threads)
    && (forall w :: w in reported ==> w < cfg.threads)
    && forall w :: 0 <= w < cfg.threads ==> ReadyFirst(ss.workers[w], w in reported)
  }

  lemma Below(s: set<nat>, n: nat)
    requires forall w :: w in s ==> w < n
    ensures |s| <= n && (|s| == n <==> forall w :: 0 <= w < n ==> w in s)
    decreases n
  {
    if n > 0 {
      var less := s - {n - 1};
      Below(less, n - 1);
      if n - 1 in s {
        assert |s| == |less| + 1;
        assert forall w :: 0 <= w < n - 1 ==> (w in less <==> w in s);
      } else {
        assert less == s;
      }
    } else {
      assert s == {};
    }
  }

  lemma OwnReady(cfg: Config, ss: Session, k: Worker, e: Event, reported: bool)
    requires e.Boot? || e.Begin? || e.Finish? || e.Complete? || e.Fail? || e.End?
    requires ReadyFirst(k, reported)
    ensures ReadyFirst(Own(cfg, ss, k, e), reported)
  {
  }

  lemma DeliveredReady(cfg: Config, k: Worker, reported: bool)
    requires k.queue != [] && ReadyFirst(k, reported)
    ensures ReadyFirst(Delivered(cfg, k), reported || k.queue[0] == Ready)
  {
  }

  lemma MessageReady(cfg: Config, v: View, w: nat, m: Message, now: int)
    ensures var after := OnMessage(cfg, v, w, m, now).0;
            if v.settled.None? && m == Ready
            then after.ready == v.ready + 1 && (after.started <==> v.started || v.ready + 1 == cfg.threads)
            else after.ready == v.ready && after.started == v.started
  {
    hide LimitReached, Counted;
  }

  lemma {:induction false} CheckedReady(cfg: Config, v: View, now: int, gone: set<nat>, n: nat)
    ensures var after := CheckUpTo(cfg, v, now, gone, n).0; after.ready == v.ready && after.started == v.started
    decreases n
  {
    hide Stuck, Counted;
    if n > 0 { CheckedReady(cfg, v, now, gone, n - 1); }
  }

  function NowReporting(cfg: Config, ss: Session, e: Event): set<nat> {
    set w | 0 <= w < cfg.threads && Reports(ss, e, w)
  }

  lemma StepReady(cfg: Config, ss: Session, e: Event, reported: set<nat>)
    requires cfg.threads > 0 && ReadyCount(cfg, ss, reported)
    ensures ReadyCount(cfg, Step(cfg, ss, e), reported + NowReporting(cfg, ss, e))
  {
    hide OnMessage, CheckUpTo, Own, Delivered, Over, ReadyFirst, ReadyCount;
    if e.Deliver? && e.w < |ss.workers| && ss.workers[e.w].queue != [] {
      DeliverReady(cfg, ss, e, reported);
    } else {
      assert NowReporting(cfg, ss, e) == {};
      assert reported + {} == reported;
      OtherReady(cfg, ss, e, reported);
    }
  }

  lemma NextReports(cfg: Config, ss: Session, e: Event)
    requires |ss.workers| == cfg.threads && e.Deliver? && e.w < |ss.workers| && ss.workers[e.w].queue != []
    ensures NowReporting(cfg, ss, e)
         == if ss.c.settled.None? && ss.workers[e.w].queue[0] == Ready then {e.w} else {}
  {
  }

  lemma DeliverReady(cfg: Config, ss: Session, e: Event, reported: set<nat>)
    requires cfg.threads > 0 && ReadyCount(cfg, ss, reported)
    requires e.Deliver? && e.w < |ss.workers| && ss.workers[e.w].queue != []
    ensures ReadyCount(cfg, Step(cfg, ss, e), reported + NowReporting(cfg, ss, e))
  {
    hide OnMessage, Delivered, ReadyFirst, NowReporting;
    var u, m := e.w, ss.workers[e.w].queue[0];
    NextReports(cfg, ss, e);
    MessageReady(cfg, ss.c, u, m, e.now);
    DeliveredReady(cfg, ss.workers[u], u in reported);
    if ss.c.settled.None? && m == Ready {
      NotYet(ss.workers[u], u in reported);
      Below(reported, cfg.threads);
      Below(reported + {u}, cfg.threads);
    } else {
      assert reported + {} == reported;
      if m == Ready { NotReported(cfg, ss, u, reported); }
    }
  }

  lemma OtherReady(cfg: Config, ss: Session, e: Event, reported: set<nat>)
    requires ReadyCount(cfg, ss, reported)
    requires e.Deliver? ==> e.w >= |ss.workers| || ss.workers[e.w].queue == []
    ensures ReadyCount(cfg, Step(cfg, ss, e), reported)
  {
    hide CheckUpTo, Own, Over, ReadyFirst;
    match e
    case Tick(now, gone) => CheckedReady(cfg, ss.c, now, gone, cfg.threads);
    case DeliverExit(u) => if u < |ss.workers| { SeenReady(ss.workers[u], u in reported); }
    case Deliver(_, _) =>
    case DeliverError =>
    case Stop =>
    case Signal(_) =>
    case _ => if e.w < |ss.workers| { OwnReady(cfg, ss, ss.workers[e.w], e, e.w in reported); }
  }

  lemma SeenReady(k: Worker, reported: bool)
    requires ReadyFirst(k, reported)
    ensures ReadyFirst(k.(exitSeen := true), reported)
  {
  }

  lemma NotYet(k: Worker, reported: bool)
    requires ReadyFirst(k, reported) && k.queue != [] && k.queue[0] == Ready
    ensures !reported
  {
  }

  /** What comes after the end is not counted. */
  lemma NotReported(cfg: Config, ss: Session, u: nat, reported: set<nat>)
    requires ReadyCount(cfg, ss, reported) && u < |ss.workers| && ss.workers[u].queue != []
             && ss.workers[u].queue[0] == Ready
    ensures ReadyFirst(Delivered(cfg, ss.workers[u]), u in reported)
  {
  }

  lemma {:induction false} RunReady(cfg: Config, now: int, events: seq<Event>) returns (reported: set<nat>)
    requires cfg.threads > 0
    ensures ReadyCount(cfg, Run(cfg, Begun(cfg, now), events), reported)
    ensures forall w :: 0 <= w < cfg.threads ==> (w in reported <==> Reported(cfg, Begun(cfg, now), events, w))
    decreases |events|
  {
    hide Step, ReadyCount, Reports;
    var start := Begun(cfg, now);
    if events == [] {
      reported := {};
      NobodyReady(cfg, now);
    } else {
      var less, e := events[..|events| - 1], events[|events| - 1];
      var before := RunReady(cfg, now, less);
      var ss := Run(cfg, start, less);
      StepReady(cfg, ss, e, before);
      reported := before + NowReporting(cfg, ss, e);
      forall w | 0 <= w < cfg.threads ensures w in reported <==> Reported(cfg, start, events, w) {
        ReportedMore(cfg, start, events, w);
      }
    }
  }

  lemma NobodyReady(cfg: Config, now: int)
    requires cfg.threads > 0
    ensures ReadyCount(cfg, Begun(cfg, now), {})
  {
  }

  /** In every run the workers are started exactly when all of them have reported ready. */
  lemma StartedWhenReady(cfg: Config, now: int, events: seq<Event>)
    requires cfg.threads > 0
    ensures Run(cfg, Begun(cfg, now), events).c.started
            <==> forall w :: 0 <= w < cfg.threads ==> Reported(cfg, Begun(cfg, now), events, w)
  {
    hide Run, Reported, ReadyFirst;
    var reported := RunReady(cfg, now, events);
    Below(reported, cfg.threads);
  }

  // ---- when they are stopped -------------------------------------------------------------------

  /** Neither passed, nor timed out in the generator, nor skipped. */
  predicate IsError(s: Status) { s != Passed && s != Timeouts && s != Skipped }

  function ErrorsIn(records: seq<Record>): nat {
    if records == [] then 0
    else ErrorsIn(records[..|records| - 1]) + (if IsError(records[|records| - 1].status) then 1 else 0)
  }

  function SevenIn(records: seq<Record>): nat {
    CountStatus(records, RuntimeTimeouts) + CountStatus(records, VmFailures) + CountStatus(records, CompileErrors)
    + CountStatus(records, RuntimeErrors) + CountStatus(records, DifferentialFailures)
    + CountStatus(records, ExpectedRuntimeErrors) + CountStatus(records, InternalFailures)
  }

  lemma {:induction false} ErrorsAre(records: seq<Record>)
    ensures SevenIn(records) == ErrorsIn(records)
  {
    if records != [] { ErrorsAre(records[..|records| - 1]); }
  }

  lemma SevenSum(counts: map<Status, nat>)
    ensures SumOver(ERROR_STATUSES, counts)
         == Count(counts, RuntimeTimeouts) + Count(counts, VmFailures) + Count(counts, CompileErrors)
            + Count(counts, RuntimeErrors) + Count(counts, DifferentialFailures)
            + Count(counts, ExpectedRuntimeErrors) + Count(counts, InternalFailures)
  {
    hide Count, SumOver;
    SumFrom(ERROR_STATUSES, counts, 0);
    SumFrom(ERROR_STATUSES, counts, 1);
    SumFrom(ERROR_STATUSES, counts, 2);
    SumFrom(ERROR_STATUSES, counts, 3);
    SumFrom(ERROR_STATUSES, counts, 4);
    SumFrom(ERROR_STATUSES, counts, 5);
    SumFrom(ERROR_STATUSES, counts, 6);
    assert ERROR_STATUSES[0..] == ERROR_STATUSES && ERROR_STATUSES[7..] == [];
    SumOfNone(counts);
  }

  lemma LimitIs(cfg: Config, v: View, records: seq<Record>)
    requires Tally(v, records)
    ensures LimitReached(cfg, v.stats) <==> cfg.errorLimit > 0 && ErrorsIn(records) >= cfg.errorLimit
  {
    hide SumOver, CountStatus;
    SevenSum(v.stats.counts);
    ErrorsAre(records);
  }

  /** A message that records a case as the one that fills the measure of errors. */
  predicate Overflows(cfg: Config, ss: Session, e: Event) {
    && ss.c.settled.None? && e.Deliver? && e.w < |ss.workers| && ss.workers[e.w].queue != []
    && ss.workers[e.w].queue[0].CaseEnd?
    && |Step(cfg, ss, e).records| > |ss.records|
    && cfg.errorLimit > 0 && ErrorsIn(Step(cfg, ss, e).records) >= cfg.errorLimit
  }

  /** The stop flag is set by a request or a signal, and by a case message exactly when the
      records with errors have reached the limit. */
  lemma StopFlagSet(cfg: Config, ss: Session, e: Event)
    requires Sound(cfg, ss.c, ss.records)
    ensures Step(cfg, ss, e).c.stopFlag
            <==> ss.c.stopFlag || (ss.c.settled.None? && (e.Stop? || e.Signal?)) || Overflows(cfg, ss, e)
  {
    hide Check, CheckUpTo, Own, Delivered, Over, Roll, ErrorsIn, OnMessage;
    if ss.c.settled.Some? {
      SettledStep(cfg, ss, e);
    } else {
      match e
      case Deliver(w, now) =>
        if w < |ss.workers| && ss.workers[w].queue != [] {
          MessageSound(cfg, ss.c, ss.records, w, ss.workers[w].queue[0], now);
          MessageStops(cfg, ss.c, ss.records, w, ss.workers[w].queue[0], now);
        }
      case DeliverExit(_) =>
      case Tick(now, gone) => CheckedStops(cfg, ss.c, now, gone, cfg.threads);
      case DeliverError =>
      case Stop =>
      case Signal(_) =>
      case _ => OwnLeaves(cfg, ss, e);
    }
  }

  lemma MessageStops(cfg: Config, v: View, records: seq<Record>, w: nat, m: Message, now: int)
    requires v.settled.None?
    requires var after := OnMessage(cfg, v, w, m, now); Tally(after.0, records + after.1)
    ensures var after := OnMessage(cfg, v, w, m, now);
            after.0.stopFlag <==> v.stopFlag || (m.CaseEnd? && after.1 != [] && cfg.errorLimit > 0
                                                 && ErrorsIn(records + after.1) >= cfg.errorLimit)
  {
    hide LimitReached, Counted, ErrorsIn, Tally;
    var after := OnMessage(cfg, v, w, m, now);
    if m.CaseEnd? && after.1 != [] { LimitIs(cfg, after.0, records + after.1); }
  }

  lemma {:induction false} CheckedStops(cfg: Config, v: View, now: int, gone: set<nat>, n: nat)
    ensures CheckUpTo(cfg, v, now, gone, n).0.stopFlag == v.stopFlag
    decreases n
  {
    hide Stuck, Counted;
    if n > 0 { CheckedStops(cfg, v, now, gone, n - 1); }
  }

  // ---- the watchdog ------------------------------------------------------------------------------

  /** What the coordinator knows of a worker comes from its last message: when it was handed
      over, and, until the case ends, which case started and when. */
  lemma MessageSeen(cfg: Config, v: View, w: nat, m: Message, now: int)
    requires v.settled.None? && w in v.live && m != Done
    ensures var after := OnMessage(cfg, v, w, m, now).0;
            && w in after.live && after.live[w].lastSeenAt == now && after.live[w].terminating == v.live[w].terminating
            && (m.CaseStart? ==> after.live[w].currentCase == Some(m.c)
                                 && after.live[w].currentCaseStartedAt == if m.startedAt != 0 then m.startedAt else now)
            && (m.CaseEnd? && !v.live[w].stuckHandled ==> after.live[w].currentCase == None)
            && forall u :: u != w && u in v.live ==> u in after.live && after.live[u] == v.live[u]
  {
    hide LimitReached, Counted;
  }

  /** Nothing heard, and not looked at, for the length of an idle check. */
  predicate Silent(cfg: Config, state: Live, now: int) {
    now - state.lastSeenAt >= cfg.idleCheckMs && now - state.lastReportAt >= cfg.idleCheckMs
  }

  /** Silent, and longer than the limit on a case that has started. */
  predicate Hangs(cfg: Config, state: Live, now: int) {
    && Silent(cfg, state, now)
    && cfg.stuckMs > 0 && state.currentCase.Some? && state.currentCaseStartedAt != 0 && !state.stuckHandled
    && now - state.currentCaseStartedAt >= cfg.stuckMs
  }

  lemma {:induction false} CheckedGivesUp(cfg: Config, v: View, now: int, gone: set<nat>, n: nat, w: nat)
    requires w in v.live && w !in gone
    ensures var after := CheckUpTo(cfg, v, now, gone, n);
            && w in after.0.live
            && (w >= n ==> after.0.live[w] == v.live[w])
            && (w < n && !v.live[w].terminating ==>
                  (after.0.live[w].terminating <==> Hangs(cfg, v.live[w], now))
                  && (Hangs(cfg, v.live[w], now) ==>
                        Record(w, Task(v.live[w].currentCase.value.index, cfg.restored(v.live[w].currentCase.value)),
                            InternalFailures) in after.1))
            && (w < n && v.live[w].terminating ==> after.0.live[w].terminating)
            && (w < n && !v.live[w].terminating ==>
                  after.0.live[w].lastReportAt == if Silent(cfg, v.live[w], now) then now else v.live[w].lastReportAt)
    decreases n
  {
    hide Check;
    if n > 0 {
      CheckedGivesUp(cfg, v, now, gone, n - 1, w);
      CheckGivesUp(cfg, CheckUpTo(cfg, v, now, gone, n - 1).0, now, gone, n - 1, w);
    }
  }

  lemma CheckGivesUp(cfg: Config, v: View, now: int, gone: set<nat>, u: nat, w: nat)
    requires w in v.live && w !in gone
    ensures var after := Check(cfg, v, now, gone, u);
            && w in after.0.live
            && (u != w ==> after.0.live[w] == v.live[w])
            && (u == w && !v.live[w].terminating ==>
                  (after.0.live[w].terminating <==> Hangs(cfg, v.live[w], now))
                  && (Hangs(cfg, v.live[w], now) ==>
                        Record(w, Task(v.live[w].currentCase.value.index, cfg.restored(v.live[w].currentCase.value)),
                            InternalFailures) in after.1))
            && (u == w && v.live[w].terminating ==> after.0.live[w].terminating)
            && (u == w && !v.live[w].terminating ==>
                  after.0.live[w].lastReportAt == if Silent(cfg, v.live[w], now) then now else v.live[w].lastReportAt)
  {
    hide Counted;
  }

  /** The watchdog gives up on a worker exactly at a tick that finds its thread running and
      the worker hanging; then the case at hand is recorded as an internal failure. A worker
      that is only silent is noted as looked at. */
  lemma GivesUp(cfg: Config, ss: Session, e: Event, w: nat)
    requires Roll(cfg, ss.c) && w in ss.c.live && !ss.c.live[w].terminating
    ensures var after := Step(cfg, ss, e);
            var found := e.Tick? && ss.c.watching && Over(ss, e.gone) && ss.c.settled.None? && w !in e.gone
                         && Hangs(cfg, ss.c.live[w], e.now);
            && (GivenUp(after.c, w) <==> found)
            && (found ==> Record(w, Task(ss.c.live[w].currentCase.value.index,
                    cfg.restored(ss.c.live[w].currentCase.value)), InternalFailures) in after.records)
            && (e.Tick? && ss.c.watching && Over(ss, e.gone) && ss.c.settled.None? && w !in e.gone ==>
                  w in after.c.live && after.c.live[w].lastReportAt
                      == if Silent(cfg, ss.c.live[w], e.now) then e.now else ss.c.live[w].lastReportAt)
  {
    hide OnMessage, Check, CheckUpTo, Own, Delivered, Over, Hangs;
    if ss.c.settled.Some? {
      SettledStep(cfg, ss, e);
    } else {
      match e
      case Deliver(u, now) =>
        if u < |ss.workers| && ss.workers[u].queue != [] {
          var m := ss.workers[u].queue[0];
          MessageLeaves(cfg, ss.c, u, m, now, w);
          if !(u == w && m == Done) { MessageKeeps(cfg, ss.c, u, m, now, w); }
        }
      case DeliverExit(u) =>
      case Tick(now, gone) =>
        if w in gone {
          CheckedLeaves(cfg, ss.c, now, gone, cfg.threads, w);
        } else {
          CheckedGivesUp(cfg, ss.c, now, gone, cfg.threads, w);
        }
      case DeliverError =>
      case Stop =>
      case Signal(_) =>
      case _ => OwnLeaves(cfg, ss, e);
    }
  }

  lemma MessageKeeps(cfg: Config, v: View, u: nat, m: Message, now: int, w: nat)
    requires v.settled.None? && w in v.live && !(u == w && m == Done)
    ensures var after := OnMessage(cfg, v, u, m, now).0;
            w in after.live && after.live[w].terminating == v.live[w].terminating
  {
    hide LimitReached, RecordResult, OnMessage;
    if u in v.live && m != Done { MessageSeen(cfg, v, u, m, now); } else { StrangerLeaves(cfg, v, u, m, now, w); }
  }

  /** A last word, or a message of a worker that has finished, says nothing of the others. */
  lemma StrangerLeaves(cfg: Config, v: View, u: nat, m: Message, now: int, w: nat)
    requires v.settled.None? && w in v.live && u != w && (u !in v.live || m == Done)
    ensures var after := OnMessage(cfg, v, u, m, now).0;
            w in after.live && after.live[w].terminating == v.live[w].terminating
  {
    hide LimitReached, Counted;
  }

  /** The watchdog runs exactly from a request to stop, if it is wanted at all, until the end. */
  lemma WatchdogRuns(cfg: Config, ss: Session, e: Event)
    requires Sound(cfg, ss.c, ss.records) && (ss.c.settled.Some? ==> !ss.c.watching)
    ensures var after := Step(cfg, ss, e).c;
            after.watching <==> after.settled.None?
                                && (ss.c.watching || (cfg.idleCheckMs > 0 && (e.Stop? || Overflows(cfg, ss, e))))
  {
    hide Check, CheckUpTo, Own, Delivered, Over, Roll, ErrorsIn, OnMessage;
    if ss.c.settled.Some? {
      SettledStep(cfg, ss, e);
    } else {
      match e
      case Deliver(w, now) =>
        if w < |ss.workers| && ss.workers[w].queue != [] {
          MessageSound(cfg, ss.c, ss.records, w, ss.workers[w].queue[0], now);
          MessageWatches(cfg, ss.c, ss.records, w, ss.workers[w].queue[0], now);
        }
      case DeliverExit(_) =>
      case Tick(now, gone) => CheckedWatches(cfg, ss.c, now, gone, cfg.threads);
      case DeliverError =>
      case Stop =>
      case Signal(_) =>
      case _ => OwnLeaves(cfg, ss, e);
    }
  }

  lemma MessageWatches(cfg: Config, v: View, records: seq<Record>, w: nat, m: Message, now: int)
    requires v.settled.None?
    requires var after := OnMessage(cfg, v, w, m, now); Tally(after.0, records + after.1)
    ensures var after := OnMessage(cfg, v, w, m, now);
            var full := m.CaseEnd? && after.1 != [] && cfg.errorLimit > 0
                        && ErrorsIn(records + after.1) >= cfg.errorLimit;
            after.0.watching <==> after.0.settled.None? && (v.watching || (cfg.idleCheckMs > 0 && full))
  {
    hide LimitReached, Counted, ErrorsIn, Tally;
    var after := OnMessage(cfg, v, w, m, now);
    if m.CaseEnd? && after.1 != [] { LimitIs(cfg, after.0, records + after.1); }
  }

  lemma {:induction false} CheckedWatches(cfg: Config, v: View, now: int, gone: set<nat>, n: nat)
    requires v.settled.Some? ==> !v.watching
    ensures var after := CheckUpTo(cfg, v, now, gone, n).0;
            after.watching <==> after.settled.None? && v.watching
    decreases n
  {
    hide Stuck, Counted;
    if n > 0 { CheckedWatches(cfg, v, now, gone, n - 1); }
  }
}
