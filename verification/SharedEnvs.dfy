/** The environments of a program on the heap, which share records as clones do, follow the
    system of Sharing step by step. */
module SharedEnvs {
  import opened Syntax
  import opened Env
  import opened EnvRuns
  import opened Sharing

  // ---- environments as a system ------------------------------------------------------------

  function RecordsOf(pool: seq<ScopeFrame>): set<EnvironmentRecord> {
    set i | 0 <= i < |pool| :: pool[i].record
  }

  /** Every record ever made, once. */
  ghost predicate Pooled(pool: seq<ScopeFrame>)
    reads RecordsOf(pool)
  {
    (forall i, j :: 0 <= i < j < |pool| ==> pool[i].record != pool[j].record)
    && forall i :: 0 <= i < |pool| ==> pool[i].record.Valid()
  }

  predicate Stacks(frames: seq<ScopeFrame>, pool: seq<ScopeFrame>, ids: seq<nat>) {
    |frames| == |ids| && forall k :: 0 <= k < |ids| ==> ids[k] < |pool| && frames[k] == pool[ids[k]]
  }

  ghost predicate Matches(env: LexicalEnv, pool: seq<ScopeFrame>, h: Holder)
    reads env, env.Records()
  {
    env.Valid() && Stacks(env.frames, pool, h.ids) && env.nameCache == h.names && env.slotCache == h.slots
  }

  /** The environments and all records, as values. */
  ghost predicate Represents(envs: seq<LexicalEnv>, pool: seq<ScopeFrame>, s: System)
    reads envs, RecordsOf(pool)
  {
    && Pooled(pool) && s.records == View(pool) && |envs| == |s.holders|
    && (forall i, j :: 0 <= i < j < |envs| ==> envs[i] != envs[j])
    && forall b :: 0 <= b < |envs| ==> Stacks(envs[b].frames, pool, s.holders[b].ids)
                                       && Matches(envs[b], pool, s.holders[b])
  }

  /** What an environment holds on the heap is what it holds in the system. */
  lemma HeldSame(envs: seq<LexicalEnv>, pool: seq<ScopeFrame>, s: System, b: nat)
    requires Represents(envs, pool, s) && b < |envs|
    ensures SaneOne(s.records, s.holders[b]) && Held(s.records, s.holders[b]) == envs[b].Held()
  {
    hide EnvironmentRecord.Valid, EnvironmentRecord.Slots, View;
    var ids := s.holders[b].ids;
    assert Matches(envs[b], pool, s.holders[b]);
    assert Chain(ids, |pool|);
    assert FramesOf(s.records, ids) == envs[b].Frames();
  }

  lemma RepresentsSane(envs: seq<LexicalEnv>, pool: seq<ScopeFrame>, s: System)
    requires Represents(envs, pool, s)
    ensures Sane(s)
  {
    hide SaneOne, View, Matches, Pooled;
    forall b | 0 <= b < |s.holders| ensures SaneOne(s.records, s.holders[b]) { HeldSame(envs, pool, s, b); }
  }

  /** What all records hold after one environment has written one of its own. */
  lemma PoolAfter(pool: seq<ScopeFrame>, frames: seq<ScopeFrame>, records: seq<Frame>, ids: seq<nat>, w: Write)
    requires |records| == |pool| && Stacks(frames, pool, ids) && Chain(ids, |pool|) && (!w.NoWrite? ==> w.at < |ids|)
    requires View(frames) == Written(FramesOf(records, ids), w)
    requires forall i :: 0 <= i < |pool| && i !in ids ==> View(pool)[i] == records[i]
    ensures View(pool) == PutVia(records, ids, w)
  {
    hide View, EnvironmentRecord.Slots, PutName, PutSlot, Written;
    var more := PutVia(records, ids, w);
    forall k | 0 <= k < |ids| ensures View(pool)[ids[k]] == View(frames)[k] { assert frames[k] == pool[ids[k]]; }
    FramesVia(records, ids, w);
    forall i | 0 <= i < |pool| ensures View(pool)[i] == more[i] {
      if i in ids {
        var k :| 0 <= k < |ids| && ids[k] == i;
        assert View(frames)[k] == FramesOf(more, ids)[k];
      }
    }
  }

  lemma PooledMore(pool: seq<ScopeFrame>, f: ScopeFrame)
    requires Pooled(pool) && f.record.Valid() && f.record !in RecordsOf(pool)
    ensures Pooled(pool + [f])
    ensures View(pool + [f]) == View(pool) + [Frame(f.kind, f.record.bindings, f.record.Slots())]
  {
    hide EnvironmentRecord.Valid, EnvironmentRecord.Slots, View;
  }

  /** An environment that was not touched matches as before. */
  lemma StillMatches(env: LexicalEnv, pool: seq<ScopeFrame>, more: seq<ScopeFrame>, h: Holder)
    requires Stacks(env.frames, pool, h.ids) && pool <= more && Pooled(more)
    requires env.frames != [] && Stacked(env.frames) && |env.slotCache| <= FAST_SLOT_LIMIT
    requires env.nameCache == h.names && env.slotCache == h.slots
    ensures Matches(env, more, h)
  {
    hide EnvironmentRecord.Valid, Stacked;
    forall k | 0 <= k < |h.ids| ensures env.frames[k] == more[h.ids[k]] && env.frames[k].record.Valid() {
      assert env.frames[k] == pool[h.ids[k]] == more[h.ids[k]];
    }
  }

  /** What follows in the heap once one environment has done its operation. */
  lemma Stepped(envs: seq<LexicalEnv>, e: nat, op: EnvOp, pool: seq<ScopeFrame>, more: seq<ScopeFrame>, s: System,
                before: seq<ScopeFrame>)
    requires Sane(s) && e < |envs| == |s.holders| && Fits(op) && |pool| == |s.records|
    requires (forall i, j :: 0 <= i < j < |envs| ==> envs[i] != envs[j]) && Pooled(more)
    requires var w := WriteOf(FramesOf(s.records, s.holders[e].ids), s.holders[e].slots, op);
             View(more) == if op.Push? then s.records + [Frame(op.kind, map[], map[])]
                           else PutVia(s.records, s.holders[e].ids, w)
    requires Stacks(before, pool, s.holders[e].ids) && envs[e].Valid()
    requires var g := Turn(Held(s.records, s.holders[e]), op).0;
             envs[e].nameCache == g.names && envs[e].slotCache == g.slots
    requires if op.Push? then envs[e].frames[..|envs[e].frames| - 1] == before
                              && more == pool + [envs[e].frames[|envs[e].frames| - 1]]
             else envs[e].frames == Cut(before, Remaining(|before|, op)) && more == pool
    requires forall b :: 0 <= b < |envs| && b != e ==> Matches(envs[b], more, s.holders[b])
    ensures Represents(envs, more, Act(s, On(e, op)).0)
  {
    hide EnvironmentRecord.Valid, EnvironmentRecord.Slots, View, Stacked, WriteOf, Put, NamesAfter, SlotsAfter, Answer,
         Fits, Rooted;
    var t := Act(s, On(e, op)).0;
    assert Stacks(envs[e].frames, more, t.holders[e].ids);
    assert t.records == View(more);
  }

  /** One environment at work, and what all records then hold. */
  method Work(env: LexicalEnv, op: EnvOp, ghost pool: seq<ScopeFrame>, ghost h: Holder)
    returns (r: Option<Value>)
    requires Pooled(pool) && Matches(env, pool, h) && Fits(op) && SaneOne(View(pool), h)
    requires Held(View(pool), h) == env.Held()
    modifies env, env.Records()
    ensures env.Valid() && Pooled(pool)
    ensures (env.Held(), r) == Turn(old(env.Held()), op)
    ensures if op.Push? then env.frames[..|env.frames| - 1] == old(env.frames)
                             && fresh(env.frames[|env.frames| - 1].record)
            else env.frames == Cut(old(env.frames), Remaining(|old(env.frames)|, op))
    ensures var w := WriteOf(FramesOf(old(View(pool)), h.ids), h.slots, op);
            View(pool) == PutVia(old(View(pool)), h.ids, w)
  {
    hide View, EnvironmentRecord.Slots, EnvironmentRecord.Valid, PutName, PutSlot, WriteOf, Turn, Rooted, Fits, Stacked,
         Put;
    ghost var before, records := env.frames, View(pool);
    r := Do(env, op);
    forall i | 0 <= i < |pool| && i !in h.ids ensures View(pool)[i] == records[i] && pool[i].record.Valid() {
      assert pool[i].record !in old(env.Records());
    }
    forall i | 0 <= i < |pool| && i in h.ids ensures pool[i].record.Valid() {
      var k :| 0 <= k < |h.ids| && h.ids[k] == i;
      assert before[k] == pool[i];
    }
    PoolAfter(pool, before, records, h.ids, WriteOf(FramesOf(records, h.ids), h.slots, op));
  }

  lemma Pushed(h: Holding, op: EnvOp)
    requires Rooted(h.frames) && Fits(op) && op.Push?
    ensures Turn(h, op).0.frames == h.frames + [Frame(op.kind, map[], map[])]
  {
  }

  /** One operation by one environment changes the heap as the system's step says. */
  method Serve(envs: seq<LexicalEnv>, e: nat, op: EnvOp, ghost pool: seq<ScopeFrame>, ghost s: System)
    returns (r: Option<Value>, ghost pool': seq<ScopeFrame>)
    requires Represents(envs, pool, s) && Sane(s) && e < |envs| && Fits(op)
    modifies envs[e], envs[e].Records()
    ensures Represents(envs, pool', Act(s, On(e, op)).0) && r == Act(s, On(e, op)).1
    ensures fresh(RecordsOf(pool') - RecordsOf(pool))
  {
    hide View, EnvironmentRecord.Slots, EnvironmentRecord.Valid, WriteOf, Turn, Rooted, Fits, Stacked, Put;
    var env := envs[e];
    HeldSame(envs, pool, s, e);
    ghost var before, h := env.frames, s.holders[e];
    assert Matches(env, pool, h);
    r := Work(env, op, pool, h);
    pool' := pool;
    if op.Push? {
      ghost var f := env.frames[|env.frames| - 1];
      Pushed(old(env.Held()), op);
      PooledMore(pool, f);
      pool' := pool + [f];
    }
    forall b | 0 <= b < |envs| && b != e ensures Matches(envs[b], pool', s.holders[b]) {
      assert old(Matches(envs[b], pool, s.holders[b]));
      StillMatches(envs[b], pool, pool', s.holders[b]);
    }
    Stepped(envs, e, op, pool, pool', s, before);
  }

  /** A program starts with one environment, which has nothing cached. */
  method Start(host: Value) returns (env: LexicalEnv, ghost pool: seq<ScopeFrame>, ghost s: System)
    ensures Represents([env], pool, s) && Sane(s) && AllAgree(s) && fresh(env) && fresh(RecordsOf(pool))
    ensures s == System([Frame(Global, map["this" := host], map[])], [Holder([0], map[], [])])
  {
    hide View, EnvironmentRecord.Slots, EnvironmentRecord.Valid;
    env := new LexicalEnv(host);
    pool := env.frames;
    s := System(View(pool), [Holder([0], map[], [])]);
    assert Matches(env, pool, s.holders[0]);
    assert SaneOne(s.records, s.holders[0]) && FramesOf(s.records, [0]) == env.Frames();
  }

  /** A clone joins the environments. */
  method Join(envs: seq<LexicalEnv>, e: nat, ghost pool: seq<ScopeFrame>, ghost s: System)
    returns (envs': seq<LexicalEnv>)
    requires Represents(envs, pool, s) && Sane(s) && e < |envs|
    ensures Represents(envs', pool, Act(s, Share(e)).0) && fresh(set x | x in envs' && x !in envs)
  {
    hide View, EnvironmentRecord.Valid, Stacked;
    assert Matches(envs[e], pool, s.holders[e]);
    var clone := new LexicalEnv.Clone(envs[e]);
    envs' := envs + [clone];
    ghost var t := Act(s, Share(e)).0;
    forall b | 0 <= b < |envs| ensures Matches(envs'[b], pool, t.holders[b]) {
      assert old(Matches(envs[b], pool, s.holders[b]));
    }
  }

  method Step(envs: seq<LexicalEnv>, op: SharedOp, ghost pool: seq<ScopeFrame>, ghost s: System)
    returns (envs': seq<LexicalEnv>, r: Option<Value>, ghost pool': seq<ScopeFrame>)
    requires Represents(envs, pool, s) && Sane(s) && Possible(s, op)
    modifies envs, RecordsOf(pool)
    ensures Represents(envs', pool', Act(s, op).0) && r == Act(s, op).1
    ensures fresh(set x | x in envs' && x !in envs) && fresh(RecordsOf(pool') - RecordsOf(pool))
  {
    hide Pooled, View, Turn, EnvironmentRecord.Valid;
    pool' := pool;
    match op
    case Share(e) =>
      envs' := Join(envs, e, pool, s);
      r := None;
    case On(e, op) =>
      assert Stacks(envs[e].frames, pool, s.holders[e].ids);
      assert envs[e].Records() <= RecordsOf(pool);
      r, pool' := Serve(envs, e, op, pool, s);
      envs' := envs;
  }

  /** Any interleaving of operations by environments on the heap, and by the clones they
      make, is the run of the system; if that is guarded, every answer is the one without
      caches. */
  method Interleave(envs: seq<LexicalEnv>, ops: seq<SharedOp>, ghost pool: seq<ScopeFrame>, ghost s: System)
    returns (envs': seq<LexicalEnv>, answers: seq<Option<Value>>, ghost pool': seq<ScopeFrame>)
    requires Represents(envs, pool, s) && Sane(s) && PossibleRun(s, ops)
    modifies envs, RecordsOf(pool)
    ensures Represents(envs', pool', After(s, ops).0) && answers == After(s, ops).1
    ensures AllAgree(s) && GuardedRun(s, ops)
            ==> Sane(Bare(s)) && PossiblePlain(Bare(s), ops) && answers == Plain(Bare(s), ops).1
  {
    hide Represents, Sane, Act, Possible, Bare, Guarded, AllAgree;
    envs', answers, pool' := envs, [], pool;
    ghost var t := s;
    var i := 0;
    while i < |ops|
      invariant 0 <= i <= |ops| && |answers| == i
      invariant Represents(envs', pool', t) && Sane(t) && PossibleRun(t, ops[i..])
      invariant fresh(set x | x in envs' && x !in envs) && fresh(RecordsOf(pool') - RecordsOf(pool))
      invariant After(s, ops).0 == After(t, ops[i..]).0
      invariant After(s, ops).1 == answers + After(t, ops[i..]).1
    {
      var a;
      assert ops[i..][1..] == ops[i + 1..];
      ActSane(t, ops[i]);
      envs', a, pool' := Step(envs', ops[i], pool', t);
      assert answers + After(t, ops[i..]).1 == (answers + [a]) + After(Act(t, ops[i]).0, ops[i + 1..]).1;
      t := Act(t, ops[i]).0;
      answers := answers + [a];
      i := i + 1;
    }
    assert answers + [] == answers;
    if AllAgree(s) { RunsAgree(s, ops); }
  }
}
