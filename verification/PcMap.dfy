/** The table that leads a running instruction back to its source: how the compiler packs it
    into runs, and how the wrapper looks an instruction up in it. */
module PcMap {
  import opened Syntax

  datatype Span = Span(start: nat, end: nat, line: nat, column: nat, endLine: nat, endColumn: nat)

  /** The stretch of instructions that makes up a function. */
  datatype Body = Body(start: nat, end: nat)

  /** What the compiler knows of a module when it writes the table. `limit` is the largest
      number a machine word holds. */
  datatype Module = Module(mnemonics: seq<string>, bytes: seq<(nat, nat)>, bodies: seq<Body>, spans: seq<Span>,
      limit: nat)

  /** The bytes an instruction takes, if they are known. */
  function BytesAt(m: Module, pc: nat): (nat, nat) {
    if pc < |m.bytes| then m.bytes[pc] else (0, 0)
  }

  /** The first function from `from` on that holds an instruction. */
  function FunctionFrom(bodies: seq<Body>, pc: nat, from: nat): (r: Option<nat>)
    requires from <= |bodies|
    ensures r.Some? <==> exists k :: from <= k < |bodies| && bodies[k].start <= pc < bodies[k].end
    ensures r.Some? ==> from <= r.value < |bodies| && bodies[r.value].start <= pc < bodies[r.value].end
    ensures r.Some? ==> forall k :: from <= k < r.value ==> !(bodies[k].start <= pc < bodies[k].end)
    decreases |bodies| - from
  {
    if from == |bodies| then None
    else if bodies[from].start <= pc < bodies[from].end then Some(from)
    else FunctionFrom(bodies, pc, from + 1)
  }

  function FunctionAt(m: Module, pc: nat): Option<nat> { FunctionFrom(m.bodies, pc, 0) }

  function Min(a: nat, b: nat): nat { if a < b then a else b }

  /** Source spans are shared out evenly over the instructions. */
  function SpanIndex(m: Module, pc: nat): (k: nat)
    requires m.spans != []
    ensures k < |m.spans|
  {
    var n := |m.mnemonics|;
    if n <= 1 then 0 else Min(Min(pc * |m.spans|, m.limit) / n, |m.spans| - 1)
  }

  function SpanAt(m: Module, pc: nat): Option<Span> {
    if |m.spans| == 0 then None else Some(m.spans[SpanIndex(m, pc)])
  }

  // ---- runs ----------------------------------------------------------------------------------

  datatype PcRange = PcRange(startPc: nat, endPc: nat, byteStart: nat, byteEnd: nat, functionId: Option<nat>,
      spanId: Option<nat>)
  datatype OpRange = OpRange(startPc: nat, endPc: nat, opId: nat)

  /** One instruction's entry, before packing. */
  datatype Entry = Entry(byteStart: nat, byteEnd: nat, functionId: Option<nat>, spanId: Option<nat>)

  /** May `next` follow `entry` in one run? */
  predicate Joins(entry: Entry, next: Entry) {
    entry.byteEnd == next.byteStart && entry.functionId == next.functionId && entry.spanId == next.spanId
  }

  /** `r` packs the entries it covers: their common function and span, and bytes without a gap. */
  predicate Packs(r: PcRange, entries: seq<Entry>) {
    && r.startPc < r.endPc <= |entries|
    && entries[r.startPc].byteStart == r.byteStart
    && entries[r.endPc - 1].byteEnd == r.byteEnd
    && entries[r.startPc].functionId == r.functionId
    && entries[r.startPc].spanId == r.spanId
    && forall pc :: r.startPc < pc < r.endPc ==> Joins(entries[pc - 1], entries[pc])
  }

  /** Run `b` follows run `a` and could not have been part of it. */
  predicate Abut(a: PcRange, b: PcRange, entries: seq<Entry>) {
    a.endPc == b.startPc && 0 < b.startPc < |entries| && !Joins(entries[b.startPc - 1], entries[b.startPc])
  }

  lemma AbutMore(a: PcRange, b: PcRange, entries: seq<Entry>, entry: Entry)
    requires Abut(a, b, entries)
    ensures Abut(a, b, entries + [entry])
  {
  }

  /** The runs follow one another from 0 to the end, and no two neighbours could be one. */
  predicate Packed(ranges: seq<PcRange>, entries: seq<Entry>) {
    && (forall k :: 0 <= k < |ranges| ==> Packs(ranges[k], entries))
    && (ranges == [] ==> entries == [])
    && (ranges != [] ==> ranges[0].startPc == 0 && ranges[|ranges| - 1].endPc == |entries|)
    && (forall k :: 0 < k < |ranges| ==> Abut(ranges[k - 1], ranges[k], entries))
  }

  method PushPcRange(ranges: seq<PcRange>, pc: nat, byteStart: nat, byteEnd: nat, functionId: Option<nat>,
                     spanId: Option<nat>,
                     ghost entries: seq<Entry>)
    returns (out: seq<PcRange>)
    requires Packed(ranges, entries) && pc == |entries|
    ensures Packed(out, entries + [Entry(byteStart, byteEnd, functionId, spanId)])
  {
    hide Packed;
    ghost var entry := Entry(byteStart, byteEnd, functionId, spanId);
    LastRun(ranges, entries, entry);
    if |ranges| > 0 {
      var last := ranges[|ranges| - 1];
      if last.endPc == pc && last.byteEnd == byteStart && last.functionId == functionId && last.spanId == spanId {
        LongerRun(ranges, entries, entry);
        return ranges[|ranges| - 1 := last.(endPc := pc + 1, byteEnd := byteEnd)];
      }
    }
    NewRun(ranges, entries, entry);
    out := ranges + [PcRange(pc, pc + 1, byteStart, byteEnd, functionId, spanId)];
  }

  /** The last run ends at the last entry, and tells whether the next one joins it. */
  lemma LastRun(ranges: seq<PcRange>, entries: seq<Entry>, entry: Entry)
    requires Packed(ranges, entries)
    ensures ranges == [] <==> entries == []
    ensures ranges != [] ==> var last := ranges[|ranges| - 1];
              && last.endPc == |entries|
              && (Joins(entries[|entries| - 1], entry)
                  <==> last.byteEnd == entry.byteStart && last.functionId == entry.functionId
                       && last.spanId == entry.spanId)
  {
    if ranges != [] {
      var last := ranges[|ranges| - 1];
      assert Packs(last, entries);
      JoinedRun(last, entries, |entries| - 1);
    }
  }

  lemma PacksMore(r: PcRange, entries: seq<Entry>, entry: Entry)
    requires Packs(r, entries)
    ensures Packs(r, entries + [entry])
  {
  }

  lemma LongerRun(ranges: seq<PcRange>, entries: seq<Entry>, entry: Entry)
    requires Packed(ranges, entries) && ranges != [] && Joins(entries[|entries| - 1], entry)
    ensures var last := ranges[|ranges| - 1];
            Packed(ranges[|ranges| - 1 := last.(endPc := |entries| + 1, byteEnd := entry.byteEnd)], entries + [entry])
  {
    var n, more := |ranges| - 1, entries + [entry];
    var last := ranges[n];
    var longer := last.(endPc := |entries| + 1, byteEnd := entry.byteEnd);
    var out := ranges[n := longer];
    assert Packs(last, entries) && Packs(longer, more);
    hide Packs, Abut, Joins;
    forall k | 0 <= k < n ensures Packs(out[k], more) { PacksMore(ranges[k], entries, entry); }
    forall k | 0 < k < |out| ensures Abut(out[k - 1], out[k], more) {
      assert Abut(ranges[k - 1], ranges[k], entries);
      AbutMore(ranges[k - 1], ranges[k], entries, entry);
      AbutLonger(ranges[k - 1], ranges[k], longer, more);
    }
  }

  lemma AbutLonger(a: PcRange, b: PcRange, longer: PcRange, entries: seq<Entry>)
    requires Abut(a, b, entries)
    ensures longer.startPc == b.startPc ==> Abut(a, longer, entries)
  {
  }

  lemma NewRun(ranges: seq<PcRange>, entries: seq<Entry>, entry: Entry)
    requires Packed(ranges, entries) && (entries == [] || !Joins(entries[|entries| - 1], entry))
    ensures Packed(ranges + [PcRange(|entries|, |entries| + 1, entry.byteStart, entry.byteEnd, entry.functionId,
            entry.spanId)], entries + [entry])
  {
    var n, more := |ranges|, entries + [entry];
    var next := PcRange(|entries|, |entries| + 1, entry.byteStart, entry.byteEnd, entry.functionId, entry.spanId);
    var out := ranges + [next];
    assert Packs(next, more);
    LastRun(ranges, entries, entry);
    assert n > 0 ==> Abut(ranges[n - 1], next, more);
    hide Packs, Abut, Joins;
    forall k | 0 <= k < n ensures Packs(out[k], more) { PacksMore(ranges[k], entries, entry); }
    forall k | 0 < k < |out| ensures Abut(out[k - 1], out[k], more) {
      if k < n { AbutMore(ranges[k - 1], ranges[k], entries, entry); }
    }
  }

  /** Every entry of a run shares the run's function and span. */
  lemma {:induction false} JoinedRun(r: PcRange, entries: seq<Entry>, pc: nat)
    requires Packs(r, entries) && r.startPc <= pc < r.endPc
    ensures entries[pc].functionId == r.functionId && entries[pc].spanId == r.spanId
    decreases pc
  {
    if pc > r.startPc {
      JoinedRun(r, entries, pc - 1);
      assert Joins(entries[pc - 1], entries[pc]);
    }
  }

  /** `ids[pc]` for each instruction, packed likewise. */
  predicate OpsPack(r: OpRange, ids: seq<nat>) {
    r.startPc < r.endPc <= |ids| && forall pc :: r.startPc <= pc < r.endPc ==> ids[pc] == r.opId
  }

  predicate OpsPacked(ranges: seq<OpRange>, ids: seq<nat>) {
    && (forall k :: 0 <= k < |ranges| ==> OpsPack(ranges[k], ids))
    && (ranges == [] ==> ids == [])
    && (ranges != [] ==> ranges[0].startPc == 0 && ranges[|ranges| - 1].endPc == |ids|)
    && (forall k :: 0 < k < |ranges| ==> ranges[k - 1].endPc == ranges[k].startPc
                                         && ranges[k - 1].opId != ranges[k].opId)
  }

  method PushOpRange(ranges: seq<OpRange>, pc: nat, opId: nat, ghost ids: seq<nat>) returns (out: seq<OpRange>)
    requires OpsPacked(ranges, ids) && pc == |ids|
    ensures OpsPacked(out, ids + [opId])
  {
    ghost var more := ids + [opId];
    assert forall r :: OpsPack(r, ids) ==> OpsPack(r, more);
    var n := |ranges|;
    if n > 0 && ranges[n - 1].endPc == pc && ranges[n - 1].opId == opId {
      out := ranges[n - 1 := ranges[n - 1].(endPc := pc + 1)];
      assert OpsPack(ranges[n - 1], ids) && OpsPack(out[n - 1], more);
      return;
    }
    out := ranges + [OpRange(pc, pc + 1, opId)];
    assert OpsPack(out[n], more);
  }

  // ---- tables of distinct values ---------------------------------------------------------------

  predicate Interned<T>(table: seq<T>, ids: map<T, nat>) {
    && (forall k :: 0 <= k < |table| ==> table[k] in ids && ids[table[k]] == k)
    && (forall x :: x in ids ==> ids[x] < |table| && table[ids[x]] == x)
  }

  method Intern<T(==)>(table: seq<T>, ids: map<T, nat>, x: T) returns (table': seq<T>, ids': map<T, nat>, id: nat)
    requires Interned(table, ids)
    ensures Interned(table', ids')
    ensures table' == if x in table then table else table + [x]
    ensures id < |table'| && table'[id] == x
  {
    if x in ids {
      assert table[ids[x]] == x;
      return table, ids, ids[x];
    }
    id := |table|;
    return table + [x], ids[x := id], id;
  }

  // ---- the table ---------------------------------------------------------------------------------

  datatype Table = Table(spans: seq<Span>, opcodes: seq<string>, pcRanges: seq<PcRange>, pcOps: seq<OpRange>)

  predicate Distinct<T(==)>(s: seq<T>) { forall i, j :: 0 <= i < j < |s| ==> s[i] != s[j] }

  /** `id` names `x` in a table of values. */
  predicate Names<T(==)>(table: seq<T>, id: Option<nat>, x: Option<T>) {
    match id
    case None => x.None?
    case Some(i) => i < |table| && x == Some(table[i])
  }

  /** An entry tells the truth about an instruction. */
  predicate Tells(m: Module, spans: seq<Span>, entry: Entry, pc: nat) {
    (entry.byteStart, entry.byteEnd) == BytesAt(m, pc) && entry.functionId == FunctionAt(m, pc)
        && Names(spans, entry.spanId, SpanAt(m, pc))
  }

  /** So do all entries so far, and the numbers of the mnemonics. */
  predicate Told(m: Module, spans: seq<Span>, opcodes: seq<string>, entries: seq<Entry>, ids: seq<nat>) {
    && |entries| == |ids| <= |m.mnemonics|
    && (forall pc :: 0 <= pc < |entries| ==> Tells(m, spans, entries[pc], pc))
    && (forall pc :: 0 <= pc < |ids| ==> ids[pc] < |opcodes| && opcodes[ids[pc]] == m.mnemonics[pc])
  }

  ghost predicate TellsAll(m: Module, t: Table, entries: seq<Entry>, ids: seq<nat>) {
    Packed(t.pcRanges, entries) && OpsPacked(t.pcOps, ids) && Told(m, t.spans, t.opcodes, entries, ids)
  }

  /** The table packs true entries, one for each instruction. */
  ghost predicate Faithful(m: Module, t: Table) {
    && Distinct(t.spans) && Distinct(t.opcodes)
    && exists entries, ids :: |entries| == |m.mnemonics| && TellsAll(m, t, entries, ids)
  }

  lemma TellsMore(m: Module, spans: seq<Span>, more: seq<Span>, entry: Entry, pc: nat)
    requires spans <= more && Tells(m, spans, entry, pc)
    ensures Tells(m, more, entry, pc)
  {
  }

  lemma ToldMore(m: Module, spans: seq<Span>, spans': seq<Span>, opcodes: seq<string>, opcodes': seq<string>,
                 entries: seq<Entry>, ids: seq<nat>, entry: Entry, opId: nat)
    requires Told(m, spans, opcodes, entries, ids) && spans <= spans' && opcodes <= opcodes'
             && |entries| < |m.mnemonics|
    requires Tells(m, spans', entry, |entries|) && opId < |opcodes'| && opcodes'[opId] == m.mnemonics[|ids|]
    ensures Told(m, spans', opcodes', entries + [entry], ids + [opId])
  {
    forall pc | 0 <= pc < |entries|
      ensures Tells(m, spans', entries[pc], pc) { TellsMore(m, spans, spans', entries[pc], pc); }
  }

  lemma InternedDistinct<T>(table: seq<T>, ids: map<T, nat>)
    requires Interned(table, ids)
    ensures Distinct(table)
  {
  }

  method BuildTable(m: Module) returns (t: Table)
    ensures Faithful(m, t)
  {
    hide Packed, OpsPacked, Told, Tells, Distinct, Interned;
    var spans, spanIds := [], map[];
    var opcodes, opcodeIds := [], map[];
    var pcRanges, pcOps := [], [];
    ghost var entries: seq<Entry>, ids: seq<nat> := [], [];
    NothingPacked();
    NothingInterned<Span>();
    NothingInterned<string>();
    NothingTold(m);
    for pc := 0 to |m.mnemonics|
      invariant Interned(spans, spanIds) && Interned(opcodes, opcodeIds)
      invariant |entries| == |ids| == pc && Told(m, spans, opcodes, entries, ids)
      invariant Packed(pcRanges, entries) && OpsPacked(pcOps, ids)
    {
      ghost var spans0, opcodes0 := spans, opcodes;
      var (byteStart, byteEnd) := BytesAt(m, pc);
      var spanId;
      spans, spanIds, spanId := InternSpan(m, pc, spans, spanIds);
      var functionId := FunctionAt(m, pc);
      pcRanges := PushPcRange(pcRanges, pc, byteStart, byteEnd, functionId, spanId, entries);
      ghost var entry := Entry(byteStart, byteEnd, functionId, spanId);
      var opId;
      opcodes, opcodeIds, opId := Intern(opcodes, opcodeIds, m.mnemonics[pc]);
      pcOps := PushOpRange(pcOps, pc, opId, ids);
      TellsIs(m, spans, entry, pc);
      ToldMore(m, spans0, spans, opcodes0, opcodes, entries, ids, entry, opId);
      entries := entries + [entry];
      ids := ids + [opId];
    }
    InternedDistinct(spans, spanIds);
    InternedDistinct(opcodes, opcodeIds);
    t := Table(spans, opcodes, pcRanges, pcOps);
    assert TellsAll(m, t, entries, ids);
  }

  lemma TellsIs(m: Module, spans: seq<Span>, entry: Entry, pc: nat)
    ensures Tells(m, spans, entry, pc)
       <==> (entry.byteStart, entry.byteEnd) == BytesAt(m, pc) && entry.functionId == FunctionAt(m, pc)
            && Names(spans, entry.spanId, SpanAt(m, pc))
  {
  }

  method InternSpan(m: Module, pc: nat, spans: seq<Span>, spanIds: map<Span, nat>)
    returns (spans': seq<Span>, spanIds': map<Span, nat>, spanId: Option<nat>)
    requires Interned(spans, spanIds)
    ensures Interned(spans', spanIds') && spans <= spans' && Names(spans', spanId, SpanAt(m, pc))
  {
    hide SpanAt, Interned;
    spans', spanIds', spanId := spans, spanIds, None;
    var span := SpanAt(m, pc);
    if span.Some? {
      var id;
      spans', spanIds', id := Intern(spans, spanIds, span.value);
      spanId := Some(id);
    }
  }

  lemma NothingInterned<T>()
    ensures Interned<T>([], map[])
  {
  }

  lemma NothingTold(m: Module)
    ensures Told(m, [], [], [], [])
  {
  }

  lemma NothingPacked()
    ensures Packed([], []) && OpsPacked([], [])
  {
  }

  // ---- looking up ----------------------------------------------------------------------------------

  /** A missing number is printed as -1. */
  function Printed(id: Option<nat>): int { if id.Some? then id.value else -1 }

  /** The first element that passes a test. */
  function Find<R(!new)>(s: seq<R>, test: R -> bool): (r: Option<R>)
    ensures r.Some? ==> exists k :: 0 <= k < |s| && r.value == s[k] && test(s[k])
                                    && forall i :: 0 <= i < k ==> !test(s[i])
    ensures r.None? ==> forall k :: 0 <= k < |s| ==> !test(s[k])
  {
    if s == [] then None
    else if test(s[0]) then Some(s[0])
    else
      var r := Find(s[1..], test);
      assert forall k :: 0 <= k < |s| - 1 ==> s[k + 1] == s[1..][k];
      assert r.Some? ==> exists k :: 0 < k < |s| && r.value == s[k] && test(s[k])
                                     && forall i :: 0 <= i < k ==> !test(s[i]) by {
        if r.Some? {
          var k :| 0 <= k < |s[1..]| && r.value == s[1..][k] && test(s[1..][k])
              && forall i :: 0 <= i < k ==> !test(s[1..][i]);
          forall i | 0 <= i < k + 1 ensures !test(s[i]) { if i > 0 { assert s[i] == s[1..][i - 1]; } }
          assert r.value == s[k + 1];
        }
      }
      assert r.None? ==> forall k :: 0 <= k < |s| ==> !test(s[k]) by {
        forall k | r.None? && 0 <= k < |s| ensures !test(s[k]) { if k > 0 { assert s[k] == s[1..][k - 1]; } }
      }
      r
  }

  function PcAt(ranges: seq<PcRange>, pc: nat): Option<PcRange> {
    Find(ranges, (r: PcRange) => r.startPc <= pc < r.endPc)
  }

  function OpAt(ranges: seq<OpRange>, pc: nat): Option<OpRange> {
    Find(ranges, (r: OpRange) => r.startPc <= pc < r.endPc)
  }

  datatype Frame = Frame(pcStart: nat, pcEnd: nat, op: Option<string>, byteStart: nat, byteEnd: nat, fn: Option<nat>,
      source: Option<Span>)

  function Element<T>(s: seq<T>, k: int): Option<T> {
    if 0 <= k < |s| then Some(s[k]) else None
  }

  /** What a debugger is told about an instruction. */
  function SourceFrame(t: Table, pc: nat): Option<Frame> {
    match PcAt(t.pcRanges, pc)
    case None => None
    case Some(r) =>
      var op := OpAt(t.pcOps, pc);
      var fn := Printed(r.functionId);
      var span := Printed(r.spanId);
      Some(Frame(r.startPc, r.endPc, if op.Some? then Element(t.opcodes, op.value.opId)
                                                      else None, r.byteStart, r.byteEnd,
                 if fn >= 0 then Some(fn) else None, if span >= 0 then Element(t.spans, span) else None))
  }

  lemma {:induction false} PcRangeFrom(ranges: seq<PcRange>, entries: seq<Entry>, pc: nat, k: nat) returns (c: nat)
    requires Packed(ranges, entries) && k < |ranges| && ranges[k].startPc <= pc < |entries|
    ensures c < |ranges| && ranges[c].startPc <= pc < ranges[c].endPc
    decreases |ranges| - k
  {
    if pc < ranges[k].endPc {
      return k;
    }
    assert k + 1 < |ranges| ==> Abut(ranges[(k + 1) - 1], ranges[k + 1], entries);
    c := PcRangeFrom(ranges, entries, pc, k + 1);
  }

  lemma {:induction false} OpRangeFrom(ranges: seq<OpRange>, ids: seq<nat>, pc: nat, k: nat) returns (c: nat)
    requires OpsPacked(ranges, ids) && k < |ranges| && ranges[k].startPc <= pc < |ids|
    ensures c < |ranges| && ranges[c].startPc <= pc < ranges[c].endPc
    decreases |ranges| - k
  {
    if pc < ranges[k].endPc {
      return k;
    }
    assert ranges[(k + 1) - 1].endPc == ranges[k + 1].startPc;
    c := OpRangeFrom(ranges, ids, pc, k + 1);
  }

  lemma PcFound(ranges: seq<PcRange>, entries: seq<Entry>, pc: nat)
    requires Packed(ranges, entries)
    ensures var r := PcAt(ranges, pc);
            if pc < |entries| then r.Some? && Packs(r.value, entries) && r.value.startPc <= pc < r.value.endPc
                                   else r.None?
  {
    if pc < |entries| {
      var c := PcRangeFrom(ranges, entries, pc, 0);
    }
  }

  lemma OpFound(ranges: seq<OpRange>, ids: seq<nat>, pc: nat)
    requires OpsPacked(ranges, ids) && pc < |ids|
    ensures OpAt(ranges, pc).Some? && OpAt(ranges, pc).value.opId == ids[pc]
  {
    var c := OpRangeFrom(ranges, ids, pc, 0);
    assert OpsPack(OpAt(ranges, pc).value, ids);
  }

  /** The bytes of a run have no gap between its first and its last instruction. */
  ghost predicate Gapless(m: Module, from: nat, to: nat) {
    forall pc :: from < pc < to ==> BytesAt(m, pc - 1).1 == BytesAt(m, pc).0
  }

  /** Packing loses nothing: every instruction gets back its own function, span and
      mnemonic, and the bytes of its run; and there is nothing beyond the last one. */
  lemma FrameOfInstruction(m: Module, t: Table, pc: nat)
    requires Faithful(m, t)
    ensures pc >= |m.mnemonics| ==> SourceFrame(t, pc) == None
    ensures pc < |m.mnemonics| ==>
              var f := SourceFrame(t, pc);
              && f.Some? && f.value.pcStart <= pc < f.value.pcEnd <= |m.mnemonics|
              && f.value.op == Some(m.mnemonics[pc]) && f.value.fn == FunctionAt(m, pc)
                 && f.value.source == SpanAt(m, pc)
              && f.value.byteStart == BytesAt(m, f.value.pcStart).0
                 && f.value.byteEnd == BytesAt(m, f.value.pcEnd - 1).1
              && Gapless(m, f.value.pcStart, f.value.pcEnd)
  {
    hide Packed, OpsPacked, BytesAt, FunctionAt, SpanAt, PcAt, OpAt, Distinct;
    var entries, ids :| |entries| == |m.mnemonics| && TellsAll(m, t, entries, ids);
    PcFound(t.pcRanges, entries, pc);
    if pc < |m.mnemonics| {
      OpFound(t.pcOps, ids, pc);
      var r := PcAt(t.pcRanges, pc).value;
      JoinedRun(r, entries, pc);
      assert Tells(m, t.spans, entries[pc], pc) && Tells(m, t.spans, entries[r.startPc], r.startPc);
      assert Tells(m, t.spans, entries[r.endPc - 1], r.endPc - 1);
      forall k | r.startPc < k < r.endPc ensures BytesAt(m, k - 1).1 == BytesAt(m, k).0 {
        assert Joins(entries[k - 1], entries[k]) && Tells(m, t.spans, entries[k], k)
               && Tells(m, t.spans, entries[k - 1], k - 1);
      }
    }
  }

  // ---- there is only one way to pack -------------------------------------------------------------

  /** The packing is as short as any and the only one: two lists of runs that both pack
      the same entries are equal. */
  lemma {:induction false} PackingIsUnique(a: seq<PcRange>, b: seq<PcRange>, entries: seq<Entry>, k: nat)
    requires Packed(a, entries) && Packed(b, entries)
    requires k <= |a| && k <= |b| && a[..k] == b[..k]
    ensures a == b
    decreases |a| - k
  {
    if k == |a| {
      NoMoreRuns(a, b, entries);
    } else if k == |b| {
      NoMoreRuns(b, a, entries);
    } else {
      SameRun(a, b, entries, k);
      assert a[..k + 1] == a[..k] + [a[k]] && b[..k + 1] == b[..k] + [b[k]];
      PackingIsUnique(a, b, entries, k + 1);
    }
  }

  lemma NoMoreRuns(a: seq<PcRange>, b: seq<PcRange>, entries: seq<Entry>)
    requires Packed(a, entries) && Packed(b, entries) && |a| <= |b| && a == b[..|a|]
    ensures a == b
  {
    var n := |a|;
    if n < |b| {
      Ahead(b, entries, n);
    } else {
      assert b[..n] == b;
    }
  }

  /** A run that is not the last ends before the last entry does. */
  lemma Ahead(ranges: seq<PcRange>, entries: seq<Entry>, k: nat)
    requires Packed(ranges, entries) && k < |ranges|
    ensures k > 0 ==> Abut(ranges[k - 1], ranges[k], entries)
    ensures Packs(ranges[k], entries) && (ranges[k].endPc < |entries| ==> k + 1 < |ranges|)
  {
  }

  lemma SameRun(a: seq<PcRange>, b: seq<PcRange>, entries: seq<Entry>, k: nat)
    requires Packed(a, entries) && Packed(b, entries)
    requires k < |a| && k < |b| && a[..k] == b[..k]
    ensures a[k] == b[k]
  {
    hide Packed;
    assert k > 0 ==> a[k - 1] == a[..k][k - 1] == b[..k][k - 1] == b[k - 1];
    Ahead(a, entries, k);
    Ahead(b, entries, k);
    if k == 0 { FirstRun(a, entries); FirstRun(b, entries); }
    RunEnds(a, b, entries, k);
    RunEnds(b, a, entries, k);
  }

  lemma FirstRun(ranges: seq<PcRange>, entries: seq<Entry>)
    requires Packed(ranges, entries) && ranges != []
    ensures ranges[0].startPc == 0
  {
  }

  /** No run of a packing ends before the other packing's run does. */
  lemma RunEnds(a: seq<PcRange>, b: seq<PcRange>, entries: seq<Entry>, k: nat)
    requires Packed(a, entries) && Packed(b, entries)
    requires k < |a| && k < |b| && a[k].startPc == b[k].startPc
    ensures a[k].endPc >= b[k].endPc
  {
    hide Packed, Joins;
    Ahead(a, entries, k);
    Ahead(b, entries, k);
    if a[k].endPc < b[k].endPc {
      Ahead(a, entries, k + 1);
    }
  }

  /** The same in terms of the bytes themselves, when all are known. */
  lemma FrameBytes(m: Module, t: Table, pc: nat)
    requires Faithful(m, t) && |m.bytes| == |m.mnemonics| && pc < |m.mnemonics|
    ensures var f := SourceFrame(t, pc);
            && f.Some? && f.value.pcStart <= pc < f.value.pcEnd <= |m.bytes|
            && f.value.byteStart == m.bytes[f.value.pcStart].0 && f.value.byteEnd == m.bytes[f.value.pcEnd - 1].1
            && forall k :: f.value.pcStart < k < f.value.pcEnd ==> m.bytes[k - 1].1 == m.bytes[k].0
  {
    hide Faithful, SourceFrame;
    FrameOfInstruction(m, t, pc);
    var f := SourceFrame(t, pc);
    forall k | f.value.pcStart < k < f.value.pcEnd ensures m.bytes[k - 1].1 == m.bytes[k].0 {
      assert BytesAt(m, k - 1).1 == BytesAt(m, k).0;
    }
  }

  // ---- how spans are shared out ------------------------------------------------------------------

  lemma Quotient(a: nat, n: nat)
    requires n > 0
    ensures a / n * n <= a < a / n * n + n
  {
  }

  lemma Times(a: nat, b: nat, n: nat)
    requires a <= b
    ensures a * n <= b * n
  {
  }

  lemma OneMoreTimes(a: nat, n: nat)
    ensures (a + 1) * n == a * n + n
  {
  }

  lemma BelowFactor(a: nat, b: nat, k: nat)
    requires k > 0 && a * k < b * k
    ensures a < b
  {
  }

  lemma QuotientAtLeast(a: nat, n: nat, q: nat)
    requires n > 0 && a >= q * n
    ensures a / n >= q
  {
    var r := a / n;
    Quotient(a, n);
    OneMoreTimes(r, n);
    BelowFactor(q, r + 1, n);
  }

  lemma QuotientBelow(a: nat, n: nat, q: nat)
    requires n > 0 && a < q * n
    ensures a / n < q
  {
  }

  lemma QuotientMonotone(a: nat, b: nat, n: nat)
    requires n > 0 && a <= b
    ensures a / n <= b / n
  {
    Quotient(a, n);
    QuotientAtLeast(b, n, a / n);
  }

  /** The first instruction gets the first span, and later ones never get earlier spans. */
  lemma SpansInOrder(m: Module, a: nat, b: nat)
    requires m.spans != [] && a <= b
    ensures SpanIndex(m, 0) == 0 && SpanIndex(m, a) <= SpanIndex(m, b)
  {
    var n, k := |m.mnemonics|, |m.spans|;
    if n > 1 {
      Times(a, b, k);
      QuotientMonotone(Min(a * k, m.limit), Min(b * k, m.limit), n);
      QuotientBelow(0, n, 1);
    }
  }

  /** The product of a program counter and the number of spans fits in a machine word. */
  predicate Fits(m: Module) { |m.mnemonics| * |m.spans| <= m.limit }

  lemma IndexPlain(m: Module, pc: nat)
    requires m.spans != [] && Fits(m) && 1 < |m.mnemonics| && pc < |m.mnemonics|
    ensures SpanIndex(m, pc) == pc * |m.spans| / |m.mnemonics|
  {
    var n, k := |m.mnemonics|, |m.spans|;
    Times(pc + 1, n, k);
    OneMoreTimes(pc, k);
    assert n * k == k * n;
    QuotientBelow(pc * k, n, k);
  }

  /** The least multiple of `k` from `a` on is less than `k` away. */
  lemma RoundUp(a: nat, k: nat) returns (q: nat)
    requires k > 0
    ensures a <= q * k < a + k
  {
    q := (a + k - 1) / k;
    Quotient(a + k - 1, k);
  }

  lemma Placed(n: nat, k: nat, j: nat, pc: nat)
    requires j < k <= n && j * n <= pc * k < j * n + k
    ensures pc < n && pc * k / n == j
  {
    OneMoreTimes(j, n);
    Times(j + 1, k, n);
    assert k * n == n * k;
    BelowFactor(pc, n, k);
    QuotientAtLeast(pc * k, n, j);
    QuotientBelow(pc * k, n, j + 1);
  }

  /** With as many instructions as spans, or more, every span is some instruction's. */
  lemma EverySpanUsed(m: Module, j: nat) returns (pc: nat)
    requires m.spans != [] && Fits(m) && j < |m.spans| <= |m.mnemonics|
    ensures pc < |m.mnemonics| && SpanIndex(m, pc) == j
  {
    hide SpanIndex, Fits;
    if |m.mnemonics| == 1 {
      OnlySpan(m);
      return 0;
    }
    pc := RoundUp(j * |m.mnemonics|, |m.spans|);
    Placed(|m.mnemonics|, |m.spans|, j, pc);
    IndexPlain(m, pc);
  }

  lemma OnlySpan(m: Module)
    requires m.spans != [] && |m.mnemonics| == 1
    ensures SpanIndex(m, 0) == 0
  {
  }

  lemma Apart(n: nat, k: nat, a: nat, b: nat)
    requires 0 < n <= k && a < b
    ensures a * k / n < b * k / n
  {
    var q := a * k / n;
    Quotient(a * k, n);
    Times(a + 1, b, k);
    OneMoreTimes(a, k);
    OneMoreTimes(q, n);
    QuotientAtLeast(b * k, n, q + 1);
  }

  /** With as many spans as instructions, or more, no two instructions share one. */
  lemma SpansDiffer(m: Module, a: nat, b: nat)
    requires Fits(m) && a < b < |m.mnemonics| <= |m.spans|
    ensures SpanIndex(m, a) < SpanIndex(m, b)
  {
    hide SpanIndex, Fits;
    IndexPlain(m, a);
    IndexPlain(m, b);
    Apart(|m.mnemonics|, |m.spans|, a, b);
  }
}
