/**
 The LLM response cache (internal/llmcache/cache.go): a table of rows that survives
 restarts, an in-memory map in front of it, and a bounded queue of hits that a
 background goroutine drains into the table.

 Calls are atomic; only the drain interleaves with them. Whether a SQL statement
 succeeds, the clock, and the order in which SQL returns rows are given with the call.
 */
module CacheModel {

  /** The part of a response that a lookup hands out. */
  datatype Payload = Payload(content: string, toolCalls: string, finishReason: string, model: string)

  datatype Row = Row(payload: Payload, hits: nat, createdAt: int, lastHitAt: int, live: bool)

  datatype Entry = Entry(payload: Payload, hits: nat, createdAt: int, lastHitAt: int)

  type Table = map<string, Row>
  type Memory = map<string, Entry>

  const MAX_LOAD_ENTRIES: nat := 50000
  const HIT_QUEUE_SIZE: nat := 256
  const CLEANUP_MAX_AGE_SECONDS: int := 90 * 24 * 3600

  /** Book-keeping about hits that the program itself does not store. */
  datatype Tally = Tally(
    opening: map<string, nat>,  // hit counts when the cache was opened
    found: multiset<string>,    // successful lookups
    dropped: multiset<string>,  // ... whose hit met a full queue
    drained: multiset<string>,  // hits written to the table
    lost: multiset<string>)     // hits whose write failed

  datatype State = State(table: Table, memory: Memory, queue: seq<string>, open: bool, tally: Tally)

  /** A `SELECT ... ORDER BY created_at DESC`, and how reading its rows went. */
  datatype Load = Load(order: seq<string>, queryOk: bool, scanned: set<string>)

  /** A hit update by the drain: its clock value and whether the statement succeeded. */
  datatype Write = Write(now: int, ok: bool)

  datatype Op =
    | Lookup(key: string)
    | Store(key: string, payload: Payload, now: int, ok: bool)
    | Invalidate(key: string, ok: bool)
    | InvalidateRecent(n: int, order: seq<string>, ok: bool, load: Load)
    | InvalidateAll(ok: bool)
    | Drain(write: Write)
    | Close(writes: seq<Write>)
    | Reopen(now: int, cleanupOk: bool, load: Load)

  function Live(t: Table): set<string> {
    set k | k in t && t[k].live
  }

  /** These rows, newest first. */
  ghost predicate NewestFirst(t: Table, keys: set<string>, order: seq<string>) {
    && (forall i, j :: 0 <= i < j < |order| ==> order[i] != order[j])
    && (forall k :: k in order <==> k in keys)
    && (forall i, j :: 0 <= i <= j < |order| ==>
          order[i] in t && order[j] in t && t[order[i]].createdAt >= t[order[j]].createdAt)
  }

  /** What SQL promises about `ORDER BY created_at DESC` over the live rows; ties come in any order. */
  ghost predicate RecencyOrder(t: Table, order: seq<string>) {
    NewestFirst(t, Live(t), order)
  }

  function Limit(order: seq<string>, n: nat): seq<string> {
    if |order| <= n then order else order[..n]
  }

  function EntryOf(r: Row): Entry {
    Entry(r.payload, r.hits, r.createdAt, r.lastHitAt)
  }

  function Entries(t: Table, rows: seq<string>, scanned: set<string>): Memory {
    map k | k in rows && k in scanned && k in t :: EntryOf(t[k])
  }

  function Loaded(t: Table, m: Memory, load: Load): Memory {
    if !load.queryOk then m else m + Entries(t, Limit(load.order, MAX_LOAD_ENTRIES), load.scanned)
  }

  function Upsert(t: Table, key: string, payload: Payload, now: int): Table {
    if key in t then t[key := t[key].(payload := payload, live := true)]
    else t[key := Row(payload, 0, now, 0, true)]
  }

  function MarkDead(t: Table, keys: set<string>): Table {
    map k | k in t :: if k in keys then t[k].(live := false) else t[k]
  }

  function CountHit(t: Table, key: string, now: int): Table {
    if key in t then t[key := t[key].(hits := t[key].hits + 1, lastHitAt := now)] else t
  }

  function Recent(order: seq<string>, n: int): set<string> {
    if n <= 0 then {} else set k | k in Limit(order, n)
  }

  function DrainOne(s: State, w: Write): State {
    if s.queue == [] then s else
      var key := s.queue[0];
      if w.ok then
        s.(table := CountHit(s.table, key, w.now), queue := s.queue[1..],
           tally := s.tally.(drained := s.tally.drained + multiset{key}))
      else
        s.(queue := s.queue[1..], tally := s.tally.(lost := s.tally.lost + multiset{key}))
  }

  function DrainMany(s: State, ws: seq<Write>, n: nat): State
    requires n <= |ws|
  {
    if n == 0 then s else DrainOne(DrainMany(s, ws, n - 1), ws[n - 1])
  }

  function Hit(s: State, key: string): State {
    if key !in s.memory then s
    else
      var tally := s.tally.(found := s.tally.found + multiset{key});
      if |s.queue| < HIT_QUEUE_SIZE then s.(queue := s.queue + [key], tally := tally)
      else s.(tally := tally.(dropped := tally.dropped + multiset{key}))
  }

  function Cleaned(t: Table, now: int): Table {
    map k | k in t && !(t[k].createdAt < now - CLEANUP_MAX_AGE_SECONDS) :: t[k]
  }

  /** A database file that no cache has open. */
  function Closed(t: Table): State {
    State(t, map[], [], false, EmptyTally(t))
  }

  function EmptyTally(t: Table): Tally {
    Tally(map k | k in t :: t[k].hits, multiset{}, multiset{}, multiset{}, multiset{})
  }

  function Opened(t: Table, now: int, cleanupOk: bool, load: Load): State {
    var kept := if cleanupOk then Cleaned(t, now) else t;
    State(kept, Loaded(kept, map[], load), [], load.queryOk, EmptyTally(kept))
  }

  function Step(s: State, op: Op): State {
    match op
    case Lookup(key) => Hit(s, key)
    case Store(key, payload, now, ok) =>
      if !ok then s
      else s.(table := Upsert(s.table, key, payload, now),
              memory := s.memory[key := Entry(payload, 0, now, 0)])
    case Invalidate(key, ok) =>
      s.(memory := s.memory - {key}, table := if ok then MarkDead(s.table, {key}) else s.table)
    case InvalidateRecent(n, order, ok, load) =>
      if n <= 0 || !ok || order == [] then s
      else
        var table := MarkDead(s.table, Recent(order, n));
        s.(table := table, memory := Loaded(table, map[], load))
    case InvalidateAll(ok) =>
      s.(memory := map[], table := if ok then MarkDead(s.table, Live(s.table)) else s.table)
    case Drain(write) => DrainOne(s, write)
    case Close(writes) => DrainMany(s, writes, |writes|).(open := false)
    case Reopen(now, cleanupOk, load) => Opened(s.table, now, cleanupOk, load)
  }

  /** A reload reads the rows of this table in the order that the query asks for. */
  ghost predicate HonestSelect(t: Table, load: Load) {
    RecencyOrder(t, load.order)
  }

  /** The callers and the database keep to their side: no call on a closed cache, honest SQL. */
  ghost predicate Allowed(s: State, op: Op) {
    match op
    case InvalidateRecent(n, order, _, load) =>
      s.open && RecencyOrder(s.table, order) && HonestSelect(MarkDead(s.table, Recent(order, n)), load)
    case Close(writes) => s.open && |writes| == |s.queue|
    case Reopen(now, cleanupOk, load) =>
      !s.open && HonestSelect(if cleanupOk then Cleaned(s.table, now) else s.table, load)
    case _ => s.open
  }

  /** A run over any table found on disk: each state is one call or one drain after the previous one. */
  ghost predicate Run(states: seq<State>, ops: seq<Op>) {
    && |states| == |ops| + 1
    && states[0] == Closed(states[0].table)
    && (forall i :: 0 <= i < |ops| ==> Allowed(states[i], ops[i]) && states[i + 1] == Step(states[i], ops[i]))
  }

  // ----- agreement of memory and table -----

  ghost predicate Agree(s: State) {
    forall k :: k in s.memory ==> k in s.table && s.table[k].live && s.memory[k].payload == s.table[k].payload
  }

  /** Same rows, up to their hit counters. */
  ghost predicate SameRows(t: Table, u: Table) {
    && u.Keys == t.Keys
    && (forall k :: k in t ==> u[k].payload == t[k].payload && u[k].live == t[k].live && u[k].createdAt == t[k].createdAt)
  }

  lemma DrainOneKeepsRows(s: State, w: Write)
    ensures var d := DrainOne(s, w);
            d.memory == s.memory && d.open == s.open && SameRows(s.table, d.table)
  {
  }

  lemma {:induction false} DrainKeepsRows(s: State, ws: seq<Write>, n: nat)
    requires n <= |ws|
    ensures var d := DrainMany(s, ws, n);
            d.memory == s.memory && d.open == s.open && SameRows(s.table, d.table)
  {
    if n > 0 {
      DrainKeepsRows(s, ws, n - 1);
      DrainOneKeepsRows(DrainMany(s, ws, n - 1), ws[n - 1]);
    }
  }

  lemma LoadedRowsAreLive(t: Table, load: Load)
    requires HonestSelect(t, load)
    ensures forall k :: k in Loaded(t, map[], load) ==> k in Live(t) && Loaded(t, map[], load)[k] == EntryOf(t[k])
  {
    forall k | k in Limit(load.order, MAX_LOAD_ENTRIES)
      ensures k in load.order
    {
    }
  }

  lemma OneMoreRow(t: Table, m: Memory, rows: seq<string>, scanned: set<string>, i: nat)
    requires i < |rows| && rows[i] in t
    ensures var m' := m + Entries(t, rows[..i], scanned);
            m + Entries(t, rows[..i + 1], scanned) ==
            (if rows[i] in scanned then m'[rows[i] := EntryOf(t[rows[i]])] else m')
  {
    assert rows[..i + 1] == rows[..i] + [rows[i]];
  }

  lemma StepKeepsAgreement(s: State, op: Op)
    requires Agree(s) && Allowed(s, op)
    ensures Agree(Step(s, op))
  {
    match op
    case Close(writes) => DrainKeepsRows(s, writes, |writes|);
    case InvalidateRecent(n, order, _, load) => LoadedRowsAreLive(MarkDead(s.table, Recent(order, n)), load);
    case Reopen(now, cleanupOk, load) =>
      LoadedRowsAreLive(if cleanupOk then Cleaned(s.table, now) else s.table, load);
    case _ =>
  }

  /**
   In every run, with any statement failing at any point, whatever memory would answer is
   the content of a live row.
   */
  lemma {:induction false} MemoryOnlyHoldsLiveRows(states: seq<State>, ops: seq<Op>, i: nat)
    requires Run(states, ops) && i < |states|
    ensures Agree(states[i])
  {
    if i > 0 {
      MemoryOnlyHoldsLiveRows(states, ops, i - 1);
      StepKeepsAgreement(states[i - 1], ops[i - 1]);
    }
  }

  ghost predicate HealthyLoad(t: Table, load: Load) {
    load.queryOk && Live(t) <= load.scanned && |Live(t)| <= MAX_LOAD_ENTRIES
  }

  /** No statement fails, and loads see no more live rows than they may read. */
  ghost predicate Healthy(s: State, op: Op) {
    match op
    case Store(_, _, _, ok) => ok
    case Invalidate(_, ok) => ok
    case InvalidateAll(ok) => ok
    case InvalidateRecent(n, order, ok, load) => ok && HealthyLoad(MarkDead(s.table, Recent(order, n)), load)
    case Reopen(now, cleanupOk, load) => HealthyLoad(if cleanupOk then Cleaned(s.table, now) else s.table, load)
    case _ => true
  }

  ghost predicate Exact(s: State) {
    Agree(s) && (s.open ==> s.memory.Keys == Live(s.table))
  }

  /** Distinct elements: a sequence has as many keys as entries. */
  lemma {:induction false} DistinctSize(order: seq<string>)
    requires forall i, j :: 0 <= i < j < |order| ==> order[i] != order[j]
    ensures |set k | k in order| == |order|
    decreases |order|
  {
    if order != [] {
      var init, last := order[..|order| - 1], order[|order| - 1];
      DistinctSize(init);
      assert (set k | k in order) == (set k | k in init) + {last};
      assert last !in init;
    }
  }

  lemma LimitKeepsDistinct(order: seq<string>, n: nat)
    requires forall i, j :: 0 <= i < j < |order| ==> order[i] != order[j]
    ensures var taken := Limit(order, n);
            && |set k | k in taken| == |taken| == (if |order| <= n then |order| else n)
            && (forall k :: k in taken ==> k in order)
  {
    DistinctSize(Limit(order, n));
  }

  /** What a LIMIT over the order takes is at least as new as what it leaves. */
  lemma LimitTakesTheNewest(t: Table, order: seq<string>, n: nat, k: string, l: string)
    requires RecencyOrder(t, order) && k in Limit(order, n) && l in Live(t) && l !in Limit(order, n)
    ensures k in t && t[k].createdAt >= t[l].createdAt
  {
    var taken := Limit(order, n);
    var i :| 0 <= i < |taken| && taken[i] == k;
    var j :| 0 <= j < |order| && order[j] == l;
    assert order[i] == k;
    assert forall p :: 0 <= p < |taken| ==> order[p] == taken[p];
    assert i <= j;
  }

  lemma OrderSize(t: Table, order: seq<string>)
    requires RecencyOrder(t, order)
    ensures |order| == |Live(t)|
  {
    DistinctSize(order);
    assert (set k | k in order) == Live(t);
  }

  lemma LoadIsExact(t: Table, load: Load)
    requires HonestSelect(t, load) && HealthyLoad(t, load)
    ensures Loaded(t, map[], load).Keys == Live(t)
  {
    OrderSize(t, load.order);
  }

  lemma LiveAfterUpsert(t: Table, key: string, payload: Payload, now: int)
    ensures Live(Upsert(t, key, payload, now)) == Live(t) + {key}
  {
  }

  lemma LiveAfterMarkDead(t: Table, keys: set<string>)
    ensures Live(MarkDead(t, keys)) == Live(t) - keys
  {
  }

  lemma LiveAfterDrain(s: State, ws: seq<Write>, n: nat)
    requires n <= |ws|
    ensures Live(DrainMany(s, ws, n).table) == Live(s.table)
  {
    DrainKeepsRows(s, ws, n);
  }

  lemma StepKeepsExact(s: State, op: Op)
    requires Exact(s) && Allowed(s, op) && Healthy(s, op)
    ensures Exact(Step(s, op))
  {
    StepKeepsAgreement(s, op);
    match op
    case InvalidateRecent(n, order, ok, load) =>
      LoadIsExact(MarkDead(s.table, Recent(order, n)), load);
    case Reopen(now, cleanupOk, load) =>
      LoadIsExact(if cleanupOk then Cleaned(s.table, now) else s.table, load);
    case Close(_) =>
    case Drain(w) =>
      LiveAfterDrain(s, [w], 1);
      assert DrainMany(s, [w], 1) == DrainOne(DrainMany(s, [w], 0), w);
    case Store(key, payload, now, ok) => LiveAfterUpsert(s.table, key, payload, now);
    case Invalidate(key, ok) => LiveAfterMarkDead(s.table, {key});
    case InvalidateAll(ok) => LiveAfterMarkDead(s.table, Live(s.table));
    case Lookup(_) =>
  }

  /** In a run without failures or truncated loads, memory answers for exactly the live rows. */
  lemma {:induction false} HealthyRunsAreExact(states: seq<State>, ops: seq<Op>, i: nat)
    requires Run(states, ops) && i < |states|
    requires forall j :: 0 <= j < |ops| ==> Healthy(states[j], ops[j])
    ensures Exact(states[i])
  {
    if i > 0 {
      HealthyRunsAreExact(states, ops, i - 1);
      StepKeepsExact(states[i - 1], ops[i - 1]);
    }
  }

  /**
   A load without failures holds min(live, limit) rows, and none that it left out is newer than
   one it took; in particular it is complete exactly when the live rows fit the limit.
   */
  lemma LoadTakesTheNewest(t: Table, load: Load)
    requires HonestSelect(t, load) && load.queryOk && Live(t) <= load.scanned
    ensures var m := Loaded(t, map[], load);
            && |m| == (if |Live(t)| <= 50000 then |Live(t)| else 50000)
            && m.Keys <= Live(t)
            && (m.Keys == Live(t) <==> |Live(t)| <= 50000)
            && (forall k, l :: k in m && l in Live(t) && l !in m ==> t[k].createdAt >= t[l].createdAt)
  {
    LoadedKeys(t, load);
    LimitedIsNewest(t, load.order);
    assert |Loaded(t, map[], load)| == |Loaded(t, map[], load).Keys|;
  }

  lemma LimitedIsNewest(t: Table, order: seq<string>)
    requires RecencyOrder(t, order)
    ensures var taken := Recent(order, MAX_LOAD_ENTRIES);
            && |taken| == (if |Live(t)| <= MAX_LOAD_ENTRIES then |Live(t)| else MAX_LOAD_ENTRIES)
            && taken <= Live(t) && (taken == Live(t) <==> |Live(t)| <= MAX_LOAD_ENTRIES)
            && (forall k, l :: k in taken && l in Live(t) && l !in taken ==> t[k].createdAt >= t[l].createdAt)
  {
    var taken := Recent(order, MAX_LOAD_ENTRIES);
    RecentIsNewest(t, order, MAX_LOAD_ENTRIES);
    if taken < Live(t) {
      Smaller(taken, Live(t));
    }
  }

  lemma LoadedKeys(t: Table, load: Load)
    requires HonestSelect(t, load) && load.queryOk && Live(t) <= load.scanned
    ensures Loaded(t, map[], load).Keys == Recent(load.order, MAX_LOAD_ENTRIES)
  {
    var m, rows := Loaded(t, map[], load), Limit(load.order, MAX_LOAD_ENTRIES);
    forall k
      ensures k in m <==> k in rows
    {
      assert k in rows ==> k in load.order;
    }
  }

  lemma Smaller(a: set<string>, b: set<string>)
    requires a < b
    ensures |a| < |b|
  {
    assert b == a + (b - a);
    assert |b| == |a| + |b - a|;
  }

  // ----- invalidation -----

  lemma RecentIsNewest(t: Table, order: seq<string>, n: int)
    requires RecencyOrder(t, order)
    ensures var taken := Recent(order, n);
            && taken <= Live(t)
            && |taken| == (if n <= 0 then 0 else if n <= |Live(t)| then n else |Live(t)|)
            && (forall k, l :: k in taken && l in Live(t) - taken ==> t[k].createdAt >= t[l].createdAt)
  {
    OrderSize(t, order);
    if n > 0 {
      LimitKeepsDistinct(order, n);
      forall k, l | k in Recent(order, n) && l in Live(t) - Recent(order, n)
        ensures t[k].createdAt >= t[l].createdAt
      {
        LimitTakesTheNewest(t, order, n, k, l);
      }
    }
  }

  lemma RecentStepMarksDead(s: State, n: int, order: seq<string>, load: Load)
    ensures Step(s, InvalidateRecent(n, order, true, load)).table == MarkDead(s.table, Recent(order, n))
  {
    if n <= 0 || order == [] {
      assert MarkDead(s.table, {}) == s.table;
    }
  }

  lemma MarkDeadTouchesOnlyLive(t: Table, keys: set<string>)
    ensures MarkDead(t, keys).Keys == t.Keys
    ensures forall k :: k in t ==> MarkDead(t, keys)[k] == t[k].(live := MarkDead(t, keys)[k].live)
  {
  }

  lemma RecentMarkedDead(table: Table, order: seq<string>, n: int)
    requires RecencyOrder(table, order)
    ensures var t := MarkDead(table, Recent(order, n));
            var taken := Live(table) - Live(t);
            && Live(t) <= Live(table)
            && |taken| == (if n <= 0 then 0 else if n <= |Live(table)| then n else |Live(table)|)
            && (forall k, l :: k in taken && l in Live(t) ==> table[k].createdAt >= table[l].createdAt)
  {
    var taken := Recent(order, n);
    RecentIsNewest(table, order, n);
    LiveAfterMarkDead(table, taken);
    assert Live(table) - (Live(table) - taken) == taken;
  }

  /**
   InvalidateRecent(n) takes exactly min(n, live) rows out of the live set, none of them older
   than a live row it spares, and changes nothing else in the table.
   */
  lemma InvalidateRecentTakesTheNewest(s: State, n: int, order: seq<string>, load: Load)
    requires Allowed(s, InvalidateRecent(n, order, true, load))
    ensures var t := Step(s, InvalidateRecent(n, order, true, load)).table;
            var taken := Live(s.table) - Live(t);
            && Live(t) <= Live(s.table)
            && |taken| == (if n <= 0 then 0 else if n <= |Live(s.table)| then n else |Live(s.table)|)
            && (forall k, l :: k in taken && l in Live(t) ==> s.table[k].createdAt >= s.table[l].createdAt)
            && t.Keys == s.table.Keys
            && (forall k :: k in s.table ==> t[k] == s.table[k].(live := t[k].live))
  {
    RecentStepMarksDead(s, n, order, load);
    RecentMarkedDead(s.table, order, n);
    MarkDeadTouchesOnlyLive(s.table, Recent(order, n));
  }

  predicate Revives(op: Op, key: string) {
    op.Store? && op.key == key && op.ok
  }

  /**
   Once a key's row is dead (or gone), no call except a successful Store of that very key brings the
   key back into memory, whatever fails in between.
   */
  lemma {:induction false} InvalidationSticks(states: seq<State>, ops: seq<Op>, i: nat, j: nat, key: string)
    requires Run(states, ops) && i <= j < |states|
    requires key !in Live(states[i].table)
    requires forall m :: i <= m < j ==> !Revives(ops[m], key)
    ensures key !in Live(states[j].table) && key !in states[j].memory
  {
    MemoryOnlyHoldsLiveRows(states, ops, j);
    if i < j {
      InvalidationSticks(states, ops, i, j - 1, key);
      var s, op := states[j - 1], ops[j - 1];
      if op.Close? {
        DrainKeepsRows(s, op.writes, |op.writes|);
      }
      assert !Revives(op, key);
    }
  }

  /**
   The row is what counts: an Invalidate whose statement failed is undone by the next reload that
   reads the row, although nobody stored the key again.
   */
  lemma FailedInvalidateComesBack(s: State, key: string, n: int, order: seq<string>, load: Load)
    requires Agree(s) && s.open && key in s.memory && n > 0 && key !in Recent(order, n)
    requires RecencyOrder(s.table, order)
    requires var t := MarkDead(s.table, Recent(order, n));
             HonestSelect(t, load) && HealthyLoad(t, load)
    ensures var failed := Step(s, Invalidate(key, false));
            && key !in failed.memory
            && Allowed(failed, InvalidateRecent(n, order, true, load))
            && key in Step(failed, InvalidateRecent(n, order, true, load)).memory
  {
    var failed := s.(memory := s.memory - {key});
    assert Step(s, Invalidate(key, false)) == failed;
    assert key in Live(s.table) && order != [];
    ReloadBringsBack(failed, key, n, order, load);
  }

  lemma ReloadBringsBack(s: State, key: string, n: int, order: seq<string>, load: Load)
    requires n > 0 && order != [] && key in Live(s.table) && key !in Recent(order, n)
    requires HonestSelect(MarkDead(s.table, Recent(order, n)), load)
    requires HealthyLoad(MarkDead(s.table, Recent(order, n)), load)
    ensures key in Step(s, InvalidateRecent(n, order, true, load)).memory
  {
    LiveAfterMarkDead(s.table, Recent(order, n));
    LoadIsExact(MarkDead(s.table, Recent(order, n)), load);
    RecentStepReloads(s, n, order, load);
  }

  lemma RecentStepReloads(s: State, n: int, order: seq<string>, load: Load)
    requires n > 0 && order != []
    ensures Step(s, InvalidateRecent(n, order, true, load)).memory ==
            Loaded(MarkDead(s.table, Recent(order, n)), map[], load)
  {
  }

  // ----- when a key can come back without being stored again -----

  /** Calls and drains from s on. */
  ghost predicate Continues(s: State, states: seq<State>, ops: seq<Op>) {
    && |states| == |ops| + 1 && states[0] == s
    && (forall i :: 0 <= i < |ops| ==> Allowed(states[i], ops[i]) && states[i + 1] == Step(states[i], ops[i]))
  }

  ghost predicate Unstored(ops: seq<Op>, key: string) {
    forall i :: 0 <= i < |ops| ==> !Revives(ops[i], key)
  }

  ghost predicate Returns(s: State, states: seq<State>, ops: seq<Op>, key: string) {
    Continues(s, states, ops) && Unstored(ops, key) && key in states[|ops|].memory
  }

  ghost predicate CanComeBack(s: State, key: string) {
    exists states, ops :: Returns(s, states, ops, key)
  }

  lemma {:induction false} NewestOf(t: Table, keys: set<string>) returns (newest: string)
    requires keys != {} && keys <= t.Keys
    ensures newest in keys && forall k :: k in keys ==> t[newest].createdAt >= t[k].createdAt
    decreases |keys|
  {
    newest :| newest in keys;
    if keys != {newest} {
      assert keys == (keys - {newest}) + {newest};
      var other := NewestOf(t, keys - {newest});
      if t[other].createdAt > t[newest].createdAt {
        newest := other;
      }
    }
  }

  lemma {:induction false} NewestFirstExists(t: Table, keys: set<string>) returns (order: seq<string>)
    requires keys <= t.Keys
    ensures NewestFirst(t, keys, order)
    decreases |keys|
  {
    if keys == {} {
      order := [];
    } else {
      var newest := NewestOf(t, keys);
      var rest := NewestFirstExists(t, keys - {newest});
      order := [newest] + rest;
      NewestInFront(t, keys, newest, rest);
    }
  }

  lemma NewestInFront(t: Table, keys: set<string>, newest: string, rest: seq<string>)
    requires keys <= t.Keys && newest in keys && NewestFirst(t, keys - {newest}, rest)
    requires forall k :: k in keys ==> t[newest].createdAt >= t[k].createdAt
    ensures NewestFirst(t, keys, [newest] + rest)
  {
    var order := [newest] + rest;
    assert forall i :: 0 < i < |order| ==> order[i] == rest[i - 1] && rest[i - 1] in rest;
  }

  lemma RestHasOthers(order: seq<string>, p: nat)
    requires p <= |order| && forall i, j :: 0 <= i < j < |order| ==> order[i] != order[j]
    ensures forall k :: k in order[p..] <==> k in order && k !in order[..p]
  {
    forall k
      ensures k in order[p..] <==> k in order && k !in order[..p]
    {
      assert order == order[..p] + order[p..];
      if k in order[..p] {
        var i :| 0 <= i < p && order[i] == k;
        assert forall j :: 0 <= j < |order[p..]| ==> order[p..][j] == order[p + j] && order[p + j] != order[i];
      }
    }
  }

  lemma RestIsNewestFirst(t: Table, keys: set<string>, order: seq<string>, p: nat)
    requires NewestFirst(t, keys, order) && p <= |order|
    ensures NewestFirst(t, keys - (set k | k in order[..p]), order[p..])
  {
    RestHasOthers(order, p);
    var rest := order[p..];
    assert forall i :: 0 <= i < |rest| ==> rest[i] == order[p + i];
  }

  lemma SameDatesSameOrder(t: Table, u: Table, keys: set<string>, order: seq<string>)
    requires NewestFirst(t, keys, order) && keys <= u.Keys
    requires forall k :: k in keys ==> k in t && u[k].createdAt == t[k].createdAt
    ensures NewestFirst(u, keys, order)
  {
    assert forall i :: 0 <= i < |order| ==> order[i] in order;
  }

  lemma RecentIsPrefix(order: seq<string>, p: nat)
    requires p <= |order|
    ensures Recent(order, p) == set k | k in order[..p]
  {
    assert order[..|order|] == order;
  }

  /** What an InvalidateRecent of the p newest rows leaves, newest first. */
  lemma RestOfOrder(t: Table, order: seq<string>, p: nat)
    requires RecencyOrder(t, order) && p <= |order|
    ensures RecencyOrder(MarkDead(t, Recent(order, p)), order[p..])
  {
    var dead := Recent(order, p);
    LiveAfterMarkDead(t, dead);
    RecentIsPrefix(order, p);
    RestIsNewestFirst(t, Live(t), order, p);
    SameDatesSameOrder(t, MarkDead(t, dead), Live(t) - dead, order[p..]);
  }

  function FullLoad(t: Table, order: seq<string>): Load {
    Load(order, true, Live(t))
  }

  /** A row in front of the order is loaded however many there are. */
  lemma FrontIsLoaded(t: Table, order: seq<string>)
    requires RecencyOrder(t, order) && order != []
    ensures order[0] in Loaded(t, map[], FullLoad(t, order))
  {
    assert order[0] in Limit(order, MAX_LOAD_ENTRIES);
  }

  lemma SameRowsSameOrder(t: Table, u: Table, order: seq<string>)
    requires RecencyOrder(t, order) && SameRows(t, u)
    ensures RecencyOrder(u, order)
  {
    assert Live(u) == Live(t);
  }

  lemma CloseKeepsOrder(s: State, order: seq<string>) returns (op: Op)
    requires s.open && RecencyOrder(s.table, order)
    ensures op.Close? && Allowed(s, op) && !Step(s, op).open && RecencyOrder(Step(s, op).table, order)
  {
    var writes := seq(|s.queue|, i => Write(0, true));
    op := Close(writes);
    DrainKeepsRows(s, writes, |writes|);
    SameRowsSameOrder(s.table, Step(s, op).table, order);
  }

  lemma ReopenLoads(s: State, order: seq<string>) returns (op: Op)
    requires !s.open && RecencyOrder(s.table, order) && order != []
    ensures op.Reopen? && Allowed(s, op) && order[0] in Step(s, op).memory
  {
    op := Reopen(0, false, FullLoad(s.table, order));
    FrontIsLoaded(s.table, order);
  }

  /** The newer rows are invalidated, and the reload then reads the row first. */
  lemma DiggingLoads(s: State, order: seq<string>, p: nat) returns (op: Op)
    requires s.open && RecencyOrder(s.table, order) && 0 < p < |order|
    ensures op.InvalidateRecent? && Allowed(s, op) && order[p] in Step(s, op).memory
  {
    var t := MarkDead(s.table, Recent(order, p));
    var load := FullLoad(t, order[p..]);
    RestOfOrder(s.table, order, p);
    op := InvalidateRecent(p, order, true, load);
    assert Step(s, op).memory == Loaded(t, map[], load);
    FrontIsLoaded(t, order[p..]);
  }

  lemma ComesBackInOne(s: State, op: Op, key: string)
    requires Allowed(s, op) && !op.Store? && key in Step(s, op).memory
    ensures CanComeBack(s, key)
  {
    assert Returns(s, [s, Step(s, op)], [op], key);
  }

  lemma ComesBackInTwo(s: State, first: Op, second: Op, key: string)
    requires Allowed(s, first) && Allowed(Step(s, first), second) && !first.Store? && !second.Store?
    requires key in Step(Step(s, first), second).memory
    ensures CanComeBack(s, key)
  {
    assert Returns(s, [s, Step(s, first), Step(Step(s, first), second)], [first, second], key);
  }

  lemma OpenRowComesBack(s: State, key: string)
    requires s.open && key in Live(s.table)
    ensures CanComeBack(s, key)
  {
    var order := NewestFirstExists(s.table, Live(s.table));
    assert RecencyOrder(s.table, order);
    var p :| 0 <= p < |order| && order[p] == key;
    if p == 0 {
      var close := CloseKeepsOrder(s, order);
      var reopen := ReopenLoads(Step(s, close), order);
      ComesBackInTwo(s, close, reopen, key);
    } else {
      var op := DiggingLoads(s, order, p);
      ComesBackInOne(s, op, key);
    }
  }

  lemma RunGoesOn(states: seq<State>, ops: seq<Op>, more: seq<State>, moreOps: seq<Op>)
    requires Run(states, ops) && Continues(states[|ops|], more, moreOps)
    ensures Run(states + more[1..], ops + moreOps)
    ensures forall i :: 0 <= i <= |moreOps| ==> (states + more[1..])[|ops| + i] == more[i]
  {
    var all, allOps := states + more[1..], ops + moreOps;
    forall i | 0 <= i <= |moreOps|
      ensures all[|ops| + i] == more[i]
    {
    }
    forall i | 0 <= i < |allOps|
      ensures Allowed(all[i], allOps[i]) && all[i + 1] == Step(all[i], allOps[i])
    {
      if i < |ops| {
        assert all[i] == states[i] && all[i + 1] == states[i + 1];
      } else {
        assert all[i] == more[i - |ops|] && all[i + 1] == more[i - |ops| + 1];
      }
    }
  }

  lemma DeadRowStaysOut(states: seq<State>, ops: seq<Op>, key: string)
    requires Run(states, ops) && CanComeBack(states[|ops|], key)
    ensures key in Live(states[|ops|].table)
  {
    var s := states[|ops|];
    var more, moreOps :| Returns(s, more, moreOps, key);
    RunGoesOn(states, ops, more, moreOps);
    if key !in Live(s.table) {
      InvalidationSticks(states + more[1..], ops + moreOps, |ops|, |ops| + |moreOps|, key);
    }
  }

  /**
   The row is what counts: in every reachable state of an open cache a key can be answered from memory again,
   without being stored again, exactly when it has a live row.
   */
  lemma ComesBackIff(states: seq<State>, ops: seq<Op>, key: string)
    requires Run(states, ops) && states[|ops|].open
    ensures CanComeBack(states[|ops|], key) <==> key in Live(states[|ops|].table)
  {
    if key in Live(states[|ops|].table) {
      OpenRowComesBack(states[|ops|], key);
    }
    if CanComeBack(states[|ops|], key) {
      DeadRowStaysOut(states, ops, key);
    }
  }

  /** So an Invalidate can be undone by later calls exactly when its statement failed and the row was live. */
  lemma InvalidateIsUndoneIff(states: seq<State>, ops: seq<Op>, key: string, ok: bool)
    requires Run(states, ops) && states[|ops|].open
    ensures var after := Step(states[|ops|], Invalidate(key, ok));
            && key !in after.memory
            && (CanComeBack(after, key) <==> !ok && key in Live(states[|ops|].table))
  {
    var s, op := states[|ops|], Invalidate(key, ok);
    var after := Step(s, op);
    assert Continues(s, [s, after], [op]);
    RunGoesOn(states, ops, [s, after], [op]);
    LiveAfterMarkDead(s.table, {key});
    ComesBackIff(states + [s, after][1..], ops + [op], key);
  }

  // ----- how long a stored response is answered -----

  /** A load gets as far as this key. */
  predicate Reads(load: Load, key: string) {
    load.queryOk && key in load.scanned && key in Limit(load.order, MAX_LOAD_ENTRIES)
  }

  /** A call that neither takes a key out of memory nor replaces what is stored under it. */
  predicate Spares(op: Op, key: string) {
    match op
    case Store(k, _, _, ok) => k != key || !ok
    case Invalidate(k, _) => k != key
    case InvalidateAll(_) => false
    case InvalidateRecent(n, order, ok, load) => n <= 0 || !ok || order == [] || Reads(load, key)
    case Reopen(_, _, load) => Reads(load, key)
    case _ => true
  }

  lemma LoadedIff(t: Table, load: Load, key: string)
    requires HonestSelect(t, load)
    ensures key in Loaded(t, map[], load) <==> Reads(load, key)
  {
    assert key in Limit(load.order, MAX_LOAD_ENTRIES) ==> key in load.order;
  }

  /** A response in memory stays there over a call, as it is, exactly when the call spares it. */
  lemma ResponseStaysIff(s: State, op: Op, key: string)
    requires Agree(s) && Allowed(s, op) && key in s.memory && !Revives(op, key)
    ensures key in Step(s, op).memory <==> Spares(op, key)
    ensures Spares(op, key) ==> Step(s, op).memory[key].payload == s.memory[key].payload
  {
    match op
    case InvalidateRecent(n, order, ok, load) =>
      var t := MarkDead(s.table, Recent(order, n));
      LoadedIff(t, load, key);
      LoadedRowsAreLive(t, load);
    case Reopen(now, cleanupOk, load) =>
      var t := if cleanupOk then Cleaned(s.table, now) else s.table;
      LoadedIff(t, load, key);
      LoadedRowsAreLive(t, load);
    case Close(writes) => DrainKeepsRows(s, writes, |writes|);
    case _ =>
  }

  /** A stored response is what every later lookup returns, over reloads and reopenings, as long as it is spared. */
  lemma {:induction false} LookupReturnsLastStore(states: seq<State>, ops: seq<Op>, i: nat, j: nat)
    requires Run(states, ops) && i < j < |states|
    requires ops[i].Store? && ops[i].ok
    requires forall m :: i < m < j ==> Spares(ops[m], ops[i].key)
    ensures ops[i].key in states[j].memory && states[j].memory[ops[i].key].payload == ops[i].payload
  {
    if i + 1 < j {
      LookupReturnsLastStore(states, ops, i, j - 1);
      MemoryOnlyHoldsLiveRows(states, ops, j - 1);
      assert Spares(ops[j - 1], ops[i].key);
      ResponseStaysIff(states[j - 1], ops[j - 1], ops[i].key);
    } else {
      assert states[i + 1] == Step(states[i], ops[i]);
    }
  }

  /** When the next opening deletes a row: the cleanup works and the row is older than 90 days. */
  predicate TooOld(createdAt: int, now: int, cleanupOk: bool) {
    cleanupOk && now - createdAt > 7_776_000
  }

  /**
   A live row is back in memory after a restart exactly when the cleanup leaves it and the load gets as far;
   a complete load gets as far as every row.
   */
  lemma SurvivesReopeningIff(s: State, writes: seq<Write>, now: int, cleanupOk: bool, load: Load, key: string)
    requires key in Live(s.table) && Allowed(s, Close(writes))
    requires Allowed(Step(s, Close(writes)), Reopen(now, cleanupOk, load))
    ensures var closed := Step(s, Close(writes));
            var after := Step(closed, Reopen(now, cleanupOk, load));
            && (key in after.memory <==> !TooOld(s.table[key].createdAt, now, cleanupOk) && Reads(load, key))
            && (HealthyLoad(after.table, load) ==>
                  (key in after.memory <==> !TooOld(s.table[key].createdAt, now, cleanupOk)))
            && (key in after.memory ==> after.memory[key].payload == s.table[key].payload)
  {
    var closed := Step(s, Close(writes));
    DrainKeepsRows(s, writes, |writes|);
    var kept := if cleanupOk then Cleaned(closed.table, now) else closed.table;
    assert key in Live(kept) <==> !TooOld(s.table[key].createdAt, now, cleanupOk);
    LoadedIff(kept, load, key);
    LoadedRowsAreLive(kept, load);
    if HealthyLoad(kept, load) {
      LoadIsExact(kept, load);
    }
  }

  /**
   A response stored just now is answered after a restart exactly when its row is not too old: storing over a row
   keeps the row's age.
   */
  lemma StoredSurvivesReopeningIff(s: State, key: string, payload: Payload, at: int, writes: seq<Write>, now: int,
                                   cleanupOk: bool, load: Load)
    requires s.open && var stored := Step(s, Store(key, payload, at, true));
             && Allowed(stored, Close(writes))
             && Allowed(Step(stored, Close(writes)), Reopen(now, cleanupOk, load))
             && HealthyLoad(Step(Step(stored, Close(writes)), Reopen(now, cleanupOk, load)).table, load)
    ensures var stored := Step(s, Store(key, payload, at, true));
            var after := Step(Step(stored, Close(writes)), Reopen(now, cleanupOk, load));
            var createdAt := if key in s.table then s.table[key].createdAt else at;
            && (key in after.memory <==> !TooOld(createdAt, now, cleanupOk))
            && (key in after.memory ==> after.memory[key].payload == payload)
  {
    var stored := Step(s, Store(key, payload, at, true));
    SurvivesReopeningIff(stored, writes, now, cleanupOk, load, key);
  }

  // ----- hits -----

  function OpeningHits(t: Tally, key: string): nat {
    if key in t.opening then t.opening[key] else 0
  }

  ghost predicate HitsConserved(s: State) {
    && s.tally.found == s.tally.drained + s.tally.lost + s.tally.dropped + multiset(s.queue)
    && |s.queue| <= HIT_QUEUE_SIZE
    && (forall k :: k in s.queue ==> k in s.table)
    && HitsCounted(s.table, s.tally)
  }

  lemma CountHitAddsOne(t: Table, key: string, now: int)
    requires key in t
    ensures var u := CountHit(t, key, now);
            u.Keys == t.Keys && (forall k :: k in t ==> u[k].hits == t[k].hits + (if k == key then 1 else 0))
  {
  }

  lemma QueueHead(q: seq<string>)
    requires q != []
    ensures multiset(q) == multiset{q[0]} + multiset(q[1..])
    ensures forall k :: k in q[1..] ==> k in q
  {
    assert q == [q[0]] + q[1..];
  }

  /** Row counters keep up with the drained hits. */
  ghost predicate HitsCounted(t: Table, tally: Tally) {
    && (forall k :: k in tally.drained ==> k in t)
    && (forall k :: k in tally.opening ==> k in t)
    && (forall k :: k in t ==> t[k].hits == OpeningHits(tally, k) + tally.drained[k])
  }

  lemma DrainedHitIsCounted(t: Table, tally: Tally, key: string, now: int)
    requires HitsCounted(t, tally) && key in t
    ensures HitsCounted(CountHit(t, key, now), tally.(drained := tally.drained + multiset{key}))
  {
    CountHitAddsOne(t, key, now);
  }

  lemma DrainConserves(s: State, w: Write)
    requires HitsConserved(s)
    ensures HitsConserved(DrainOne(s, w))
  {
    if s.queue != [] {
      QueueHead(s.queue);
      if w.ok {
        DrainedHitIsCounted(s.table, s.tally, s.queue[0], w.now);
      }
    }
  }

  lemma {:induction false} DrainManyConserves(s: State, ws: seq<Write>, n: nat)
    requires HitsConserved(s) && n <= |ws|
    ensures HitsConserved(DrainMany(s, ws, n))
  {
    if n > 0 {
      DrainManyConserves(s, ws, n - 1);
      DrainConserves(DrainMany(s, ws, n - 1), ws[n - 1]);
    }
  }

  lemma {:induction false} DrainManyEmptiesTheFront(s: State, ws: seq<Write>, n: nat)
    requires n <= |ws|
    ensures var d := DrainMany(s, ws, n);
            && d.queue == (if n <= |s.queue| then s.queue[n..] else [])
            && d.tally.found == s.tally.found && d.tally.dropped == s.tally.dropped
  {
    if n > 0 {
      DrainManyEmptiesTheFront(s, ws, n - 1);
    }
  }

  lemma LookupConserves(s: State, key: string)
    requires Agree(s) && HitsConserved(s)
    ensures HitsConserved(Hit(s, key))
  {
    if key in s.memory && |s.queue| < HIT_QUEUE_SIZE {
      assert multiset(s.queue + [key]) == multiset(s.queue) + multiset{key};
    }
  }

  lemma StoreConserves(s: State, key: string, payload: Payload, now: int)
    requires HitsConserved(s)
    ensures HitsConserved(s.(table := Upsert(s.table, key, payload, now), memory := s.memory[key := Entry(payload, 0, now, 0)]))
  {
    var t := Upsert(s.table, key, payload, now);
    if key !in s.table {
      assert s.tally.drained[key] == 0 && OpeningHits(s.tally, key) == 0;
    }
    assert forall k :: k in t && k != key ==> k in s.table && t[k] == s.table[k];
  }

  lemma MarkDeadConserves(s: State, keys: set<string>, memory: Memory)
    requires HitsConserved(s)
    ensures HitsConserved(s.(table := MarkDead(s.table, keys), memory := memory))
  {
    var t := MarkDead(s.table, keys);
    assert t.Keys == s.table.Keys;
    assert forall k :: k in t ==> t[k].hits == s.table[k].hits;
  }

  lemma StepConservesHits(s: State, op: Op)
    requires Agree(s) && HitsConserved(s) && Allowed(s, op)
    ensures HitsConserved(Step(s, op))
  {
    match op
    case Lookup(key) => LookupConserves(s, key);
    case Drain(write) => DrainConserves(s, write);
    case Close(writes) => DrainManyConserves(s, writes, |writes|);
    case Store(key, payload, now, ok) => StoreConserves(s, key, payload, now);
    case Invalidate(key, ok) =>
      MarkDeadConserves(s, {key}, s.memory - {key});
    case InvalidateAll(ok) =>
      MarkDeadConserves(s, Live(s.table), map[]);
    case InvalidateRecent(n, order, ok, load) =>
      var t := MarkDead(s.table, Recent(order, n));
      MarkDeadConserves(s, Recent(order, n), Loaded(t, map[], load));
    case Reopen(_, _, _) =>
  }

  /**
   In every run each successful lookup is accounted for exactly once, key by key, as drained, lost in a
   failed write, dropped at a full queue, or still queued; and a row's hit count is its value at
   opening plus its drained hits, across re-stores and invalidations.
   */
  lemma {:induction false} HitsConservedInEveryRun(states: seq<State>, ops: seq<Op>, i: nat)
    requires Run(states, ops) && i < |states|
    ensures HitsConserved(states[i])
  {
    if i > 0 {
      HitsConservedInEveryRun(states, ops, i - 1);
      MemoryOnlyHoldsLiveRows(states, ops, i - 1);
      StepConservesHits(states[i - 1], ops[i - 1]);
    }
  }

  /** Close waits for the drain: nothing that was enqueued is lost unless its write failed. */
  lemma CloseLosesNothing(states: seq<State>, ops: seq<Op>, i: nat)
    requires Run(states, ops) && i < |ops| && ops[i].Close?
    ensures var s := states[i + 1];
            s.queue == [] && s.tally.found == s.tally.drained + s.tally.lost + s.tally.dropped
            && s.tally.dropped == states[i].tally.dropped
  {
    HitsConservedInEveryRun(states, ops, i);
    HitsConservedInEveryRun(states, ops, i + 1);
    DrainManyEmptiesTheFront(states[i], ops[i].writes, |ops[i].writes|);
  }
}

/** What becomes of hits, counted from the calls and writes of a run alone. */
module HitCounts {
  import opened CacheModel

  function HitsOf(t: Table, key: string): nat {
    if key in t then t[key].hits else 0
  }

  /** The hit updates that an operation makes, for the hits at the front of the queue. */
  function WritesOf(op: Op): seq<Write> {
    match op
    case Drain(write) => [write]
    case Close(writes) => writes
    case _ => []
  }

  /** How many of the first n updates are for this key and work, or fail. */
  function Updates(queue: seq<string>, writes: seq<Write>, n: nat, key: string, ok: bool): nat
    requires n <= |writes|
  {
    if n == 0 then 0 else
      Updates(queue, writes, n - 1, key, ok)
      + (if n <= |queue| && queue[n - 1] == key && writes[n - 1].ok == ok then 1 else 0)
  }

  function UpdatesOf(s: State, op: Op, key: string, ok: bool): nat {
    Updates(s.queue, WritesOf(op), |WritesOf(op)|, key, ok)
  }

  /** A lookup that finds its key while the queue has room for another hit, of 256. */
  predicate Enqueues(s: State, op: Op, key: string) {
    op.Lookup? && op.key == key && key in s.memory && |s.queue| < 256
  }

  predicate DropsHit(s: State, op: Op, key: string) {
    op.Lookup? && op.key == key && key in s.memory && |s.queue| == 256
  }

  function One(c: bool): nat {
    if c then 1 else 0
  }

  function Queued(s: State, key: string): nat {
    multiset(s.queue)[key]
  }

  lemma HitsOfCounted(t: Table, counted: string, now: int, key: string)
    requires counted in t
    ensures HitsOf(CountHit(t, counted, now), key) == HitsOf(t, key) + One(counted == key)
  {
    CountHitAddsOne(t, counted, now);
  }

  lemma DrainOneCounts(s: State, w: Write, key: string)
    requires s.queue != [] ==> s.queue[0] in s.table
    ensures var d, first := DrainOne(s, w), s.queue != [] && s.queue[0] == key;
            && HitsOf(d.table, key) == HitsOf(s.table, key) + One(first && w.ok)
            && d.tally.lost[key] == s.tally.lost[key] + One(first && !w.ok)
  {
    if s.queue != [] && w.ok {
      HitsOfCounted(s.table, s.queue[0], w.now, key);
    }
  }

  lemma NextDrainCounts(s: State, writes: seq<Write>, n: nat, key: string)
    requires 0 < n <= |writes| && forall k :: k in s.queue ==> k in s.table
    ensures var d, after := DrainMany(s, writes, n - 1), DrainMany(s, writes, n);
            var first, ok := n <= |s.queue| && s.queue[n - 1] == key, writes[n - 1].ok;
            && HitsOf(after.table, key) == HitsOf(d.table, key) + One(first && ok)
            && after.tally.lost[key] == d.tally.lost[key] + One(first && !ok)
  {
    var d := DrainMany(s, writes, n - 1);
    DrainManyEmptiesTheFront(s, writes, n - 1);
    DrainKeepsRows(s, writes, n - 1);
    assert n <= |s.queue| ==> d.queue != [] && d.queue[0] == s.queue[n - 1] && s.queue[n - 1] in s.queue;
    DrainOneCounts(d, writes[n - 1], key);
  }

  lemma {:induction false} DrainCounts(s: State, writes: seq<Write>, n: nat, key: string)
    requires n <= |writes| && forall k :: k in s.queue ==> k in s.table
    ensures var d := DrainMany(s, writes, n);
            && HitsOf(d.table, key) == HitsOf(s.table, key) + Updates(s.queue, writes, n, key, true)
            && d.tally.lost[key] == s.tally.lost[key] + Updates(s.queue, writes, n, key, false)
  {
    if n > 0 {
      DrainCounts(s, writes, n - 1, key);
      NextDrainCounts(s, writes, n, key);
    }
  }

  lemma OneDrain(s: State, w: Write)
    ensures DrainMany(s, [w], 1) == DrainOne(s, w)
  {
    assert DrainMany(s, [w], 0) == s;
  }

  lemma UpdatesOnFront(queue: seq<string>, writes: seq<Write>, n: nat, key: string)
    requires n <= |writes| && n <= |queue|
    ensures Updates(queue, writes, n, key, true) + Updates(queue, writes, n, key, false) == multiset(queue[..n])[key]
  {
    if n > 0 {
      UpdatesOnFront(queue, writes, n - 1, key);
      assert queue[..n] == queue[..n - 1] + [queue[n - 1]];
    }
  }

  /** What one call or drain does to the hits of a key. */
  ghost predicate Counts(s: State, op: Op, t: State, key: string) {
    var front := if |WritesOf(op)| <= |s.queue| then |WritesOf(op)| else |s.queue|;
    && HitsOf(t.table, key) == HitsOf(s.table, key) + UpdatesOf(s, op, key, true)
    && t.tally.lost[key] == s.tally.lost[key] + UpdatesOf(s, op, key, false)
    && t.tally.dropped[key] == s.tally.dropped[key] + One(DropsHit(s, op, key))
    && t.queue == s.queue[front..] + if op.Lookup? && Enqueues(s, op, op.key) then [op.key] else []
  }

  lemma DrainStepCounts(s: State, op: Op, key: string)
    requires (op.Drain? || op.Close?) && forall k :: k in s.queue ==> k in s.table
    ensures Counts(s, op, Step(s, op), key)
  {
    var writes := WritesOf(op);
    if op.Drain? {
      OneDrain(s, op.write);
    }
    DrainCounts(s, writes, |writes|, key);
    DrainManyEmptiesTheFront(s, writes, |writes|);
  }

  lemma LookupStepCounts(s: State, op: Op, key: string)
    requires op.Lookup? && |s.queue| <= 256
    ensures Counts(s, op, Step(s, op), key)
  {
    assert s.queue[0..] == s.queue && s.queue + [] == s.queue;
  }

  lemma QuietStepCounts(s: State, op: Op, key: string)
    requires !op.Drain? && !op.Close? && !op.Lookup? && !op.Reopen?
    ensures Counts(s, op, Step(s, op), key)
  {
    assert s.queue[0..] == s.queue && s.queue + [] == s.queue;
  }

  /**
   One call or drain of a run: a row gains the updates for its key that work and loses none, the others are lost,
   and the queue loses a hit for each update and gains one for a lookup that finds room; without room it is dropped.
   */
  lemma StepCounts(states: seq<State>, ops: seq<Op>, i: nat, key: string)
    requires Run(states, ops) && i < |ops| && !ops[i].Reopen?
    ensures Counts(states[i], ops[i], states[i + 1], key)
  {
    var s, op := states[i], ops[i];
    HitsConservedInEveryRun(states, ops, i);
    if op.Drain? || op.Close? {
      DrainStepCounts(s, op, key);
    } else if op.Lookup? {
      LookupStepCounts(s, op, key);
    } else {
      QuietStepCounts(s, op, key);
    }
  }

  ghost predicate AllWork(op: Op) {
    forall j :: 0 <= j < |WritesOf(op)| ==> WritesOf(op)[j].ok
  }

  lemma NoneFails(queue: seq<string>, writes: seq<Write>, n: nat, key: string)
    requires n <= |writes| && forall j :: 0 <= j < |writes| ==> writes[j].ok
    ensures Updates(queue, writes, n, key, false) == 0
  {
  }

  lemma NoneWorks(queue: seq<string>, writes: seq<Write>, n: nat, key: string)
    requires n <= |writes| && forall j :: 0 <= j < |writes| ==> !writes[j].ok
    ensures Updates(queue, writes, n, key, true) == 0
  {
  }

  /** Where all updates work nothing is lost, and each row gains exactly the hits of its key that left the queue. */
  lemma WorkingWritesCount(states: seq<State>, ops: seq<Op>, i: nat, key: string)
    requires Run(states, ops) && i < |ops| && (ops[i].Drain? || ops[i].Close?) && AllWork(ops[i])
    ensures states[i + 1].tally.lost[key] == states[i].tally.lost[key]
    ensures HitsOf(states[i + 1].table, key) + Queued(states[i + 1], key) ==
            HitsOf(states[i].table, key) + Queued(states[i], key)
    ensures ops[i].Close? || |states[i].queue| <= 1 ==> states[i + 1].queue == []
    ensures ops[i].Drain? && states[i].queue != [] ==> states[i + 1].queue == states[i].queue[1..]
  {
    var s, writes := states[i], WritesOf(ops[i]);
    StepCounts(states, ops, i, key);
    NoneFails(s.queue, writes, |writes|, key);
    UpdatesLeaveQueue(s.queue, writes, key);
  }

  lemma UpdatesLeaveQueue(queue: seq<string>, writes: seq<Write>, key: string)
    ensures var front := if |writes| <= |queue| then |writes| else |queue|;
            Updates(queue, writes, |writes|, key, true) + Updates(queue, writes, |writes|, key, false)
            + multiset(queue[front..])[key] == multiset(queue)[key]
  {
    var front := if |writes| <= |queue| then |writes| else |queue|;
    UpdatesBeyond(queue, writes, front, |writes|, key);
    UpdatesOnFront(queue, writes, front, key);
    assert queue == queue[..front] + queue[front..];
  }

  lemma {:induction false} UpdatesBeyond(queue: seq<string>, writes: seq<Write>, front: nat, n: nat, key: string)
    requires front <= n <= |writes| && (front < n ==> front == |queue|)
    ensures Updates(queue, writes, n, key, true) == Updates(queue, writes, front, key, true)
    ensures Updates(queue, writes, n, key, false) == Updates(queue, writes, front, key, false)
  {
    if front < n {
      UpdatesBeyond(queue, writes, front, n - 1, key);
    }
  }

  /** A failed update leaves the table as it was; one that works counts the hit and notes its time in one row. */
  lemma DrainedRow(states: seq<State>, ops: seq<Op>, i: nat)
    requires Run(states, ops) && i < |ops| && ops[i].Drain? && states[i].queue != []
    ensures var s, w := states[i], ops[i].write;
            var key := s.queue[0];
            && key in s.table
            && states[i + 1].table == if w.ok then s.table[key := s.table[key].(hits := s.table[key].hits + 1, lastHitAt := w.now)]
                                      else s.table
  {
    HitsConservedInEveryRun(states, ops, i);
    assert states[i].queue[0] in states[i].queue;
  }

  // ----- over a whole run -----

  /** Hits of a key that entered the queue between two points of a run, and failed updates for it. */
  function Entered(states: seq<State>, ops: seq<Op>, i: nat, j: nat, key: string): nat
    requires i <= j <= |ops| < |states|
    decreases j
  {
    if i == j then 0 else Entered(states, ops, i, j - 1, key) + One(Enqueues(states[j - 1], ops[j - 1], key))
  }

  function Lost(states: seq<State>, ops: seq<Op>, i: nat, j: nat, key: string): nat
    requires i <= j <= |ops| < |states|
    decreases j
  {
    if i == j then 0 else Lost(states, ops, i, j - 1, key) + UpdatesOf(states[j - 1], ops[j - 1], key, false)
  }

  /** The hits of a key that are counted or still will be. */
  function Due(s: State, key: string): nat {
    HitsOf(s.table, key) + Queued(s, key)
  }

  /** One step: what is due grows by a hit that enters the queue and shrinks by failed updates. */
  predicate Balanced(states: seq<State>, ops: seq<Op>, i: nat, key: string)
    requires i < |ops| < |states|
  {
    Due(states[i + 1], key) + UpdatesOf(states[i], ops[i], key, false) ==
    Due(states[i], key) + One(Enqueues(states[i], ops[i], key))
  }

  lemma StepBalances(states: seq<State>, ops: seq<Op>, i: nat, key: string)
    requires Run(states, ops) && i < |ops| && !ops[i].Reopen?
    ensures Balanced(states, ops, i, key)
  {
    StepCounts(states, ops, i, key);
    UpdatesLeaveQueue(states[i].queue, WritesOf(ops[i]), key);
  }

  lemma {:induction false} StepsBalance(states: seq<State>, ops: seq<Op>, i: nat, j: nat, key: string)
    requires i <= j <= |ops| < |states| && forall m :: i <= m < j ==> Balanced(states, ops, m, key)
    ensures Due(states[j], key) + Lost(states, ops, i, j, key) == Due(states[i], key) + Entered(states, ops, i, j, key)
    decreases j
  {
    if i < j {
      StepsBalance(states, ops, i, j - 1, key);
      assert Balanced(states, ops, j - 1, key);
    }
  }

  /**
   Between two openings a row's count and its queued hits grow by exactly the lookups of its key that found the
   queue with room, less the updates that failed.
   */
  lemma HitsAreLookups(states: seq<State>, ops: seq<Op>, i: nat, j: nat, key: string)
    requires Run(states, ops) && i <= j <= |ops|
    requires forall m :: i <= m < j ==> !ops[m].Reopen?
    ensures Due(states[j], key) + Lost(states, ops, i, j, key) == Due(states[i], key) + Entered(states, ops, i, j, key)
  {
    forall m | i <= m < j
      ensures Balanced(states, ops, m, key)
    {
      StepBalances(states, ops, m, key);
    }
    StepsBalance(states, ops, i, j, key);
  }

  lemma {:induction false} NothingLost(states: seq<State>, ops: seq<Op>, i: nat, j: nat, key: string)
    requires i <= j <= |ops| < |states| && forall m :: i <= m < j ==> AllWork(ops[m])
    ensures Lost(states, ops, i, j, key) == 0
    decreases j
  {
    if i < j {
      NothingLost(states, ops, i, j - 1, key);
      var writes := WritesOf(ops[j - 1]);
      assert AllWork(ops[j - 1]);
      NoneFails(states[j - 1].queue, writes, |writes|, key);
    }
  }

  /**
   So from an opening on, if no update fails, a row's count is its count at the opening plus the lookups of its key
   that were neither dropped nor are still queued.
   */
  lemma HitsSinceOpening(states: seq<State>, ops: seq<Op>, i: nat, j: nat, key: string)
    requires Run(states, ops) && i < j <= |ops| && ops[i].Reopen?
    requires forall m :: i < m < j ==> !ops[m].Reopen? && AllWork(ops[m])
    ensures HitsOf(states[j].table, key) ==
            HitsOf(states[i + 1].table, key) + Entered(states, ops, i + 1, j, key) - Queued(states[j], key)
  {
    HitsAreLookups(states, ops, i + 1, j, key);
    NothingLost(states, ops, i + 1, j, key);
    assert states[i + 1].queue == [];
  }
}

/** The cache object. SQL statements are single assignments to `table`; everything else is the program's own code. */
module LlmCache {
  import opened CacheModel

  class Cache {
    var table: Table
    var entries: Memory
    var hits: seq<string>
    var open: bool
    ghost var tally: Tally

    ghost function View(): State
      reads this
    {
      State(table, entries, hits, open, tally)
    }

    constructor (disk: Table, now: int, cleanupOk: bool, load: Load)
      requires HonestSelect(if cleanupOk then Cleaned(disk, now) else disk, load)
      ensures View() == Step(CacheModel.Closed(disk), CacheModel.Reopen(now, cleanupOk, load))
      ensures open <==> load.queryOk
    {
      table := if cleanupOk then Cleaned(disk, now) else disk;
      entries := map[];
      hits := [];
      open := false;
      new;
      tally := EmptyTally(table);
      var ok := LoadAll(load);
      open := ok;
    }

    /** Reads the rows of `load` into memory; false when the query fails. Rows that do not scan are skipped. */
    method LoadAll(load: Load) returns (ok: bool)
      requires HonestSelect(table, load)
      modifies this`entries
      ensures ok == load.queryOk && entries == Loaded(table, old(entries), load)
    {
      if !load.queryOk {
        return false;
      }
      ok := true;
      var rows := Limit(load.order, MAX_LOAD_ENTRIES);
      assert rows[..|rows|] == rows;
      for i := 0 to |rows|
        invariant entries == old(entries) + Entries(table, rows[..i], load.scanned)
      {
        assert rows[i] in load.order;
        OneMoreRow(table, old(entries), rows, load.scanned, i);
        if rows[i] in load.scanned {
          entries := entries[rows[i] := EntryOf(table[rows[i]])];
        }
      }
    }

    method Lookup(key: string) returns (entry: Entry, found: bool)
      requires open
      modifies this`hits, this`tally
      ensures View() == Step(old(View()), CacheModel.Lookup(key))
      ensures found <==> key in entries
      ensures found ==> entry == entries[key]
    {
      if key !in entries {
        return Entry(Payload("", "", "", ""), 0, 0, 0), false;
      }
      entry, found := entries[key], true;
      tally := tally.(found := tally.found + multiset{key});
      if |hits| < HIT_QUEUE_SIZE {
        hits := hits + [key];
      } else {
        tally := tally.(dropped := tally.dropped + multiset{key});
      }
    }

    method Store(key: string, payload: Payload, now: int, sqlOk: bool) returns (ok: bool)
      requires open
      modifies this`table, this`entries
      ensures View() == Step(old(View()), CacheModel.Store(key, payload, now, sqlOk))
      ensures ok == sqlOk
    {
      if !sqlOk {
        return false;
      }
      table := Upsert(table, key, payload, now);
      entries := entries[key := Entry(payload, 0, now, 0)];
      ok := true;
    }

    method Invalidate(key: string, sqlOk: bool) returns (ok: bool)
      requires open
      modifies this`table, this`entries
      ensures View() == Step(old(View()), CacheModel.Invalidate(key, sqlOk))
      ensures ok == sqlOk
    {
      entries := entries - {key};
      if sqlOk {
        table := MarkDead(table, {key});
      }
      ok := sqlOk;
    }

    /** Returns the number of rows invalidated and whether every statement succeeded. */
    method InvalidateRecent(n: int, order: seq<string>, sqlOk: bool, load: Load) returns (affected: nat, ok: bool)
      requires Allowed(View(), CacheModel.InvalidateRecent(n, order, sqlOk, load))
      modifies this`table, this`entries
      ensures View() == Step(old(View()), CacheModel.InvalidateRecent(n, order, sqlOk, load))
      ensures affected == |Live(old(table)) - Live(table)|
      ensures ok <==> n <= 0 || (sqlOk && (affected > 0 ==> load.queryOk))
    {
      if n <= 0 {
        assert Live(table) - Live(table) == {};
        return 0, true;
      }
      if !sqlOk {
        assert Live(table) - Live(table) == {};
        return 0, false;
      }
      RecentIsNewest(table, order, n);
      LiveAfterMarkDead(table, Recent(order, n));
      assert Live(table) - (Live(table) - Recent(order, n)) == Recent(order, n);
      OrderSize(table, order);
      affected := |Limit(order, n)|;
      if affected == 0 {
        assert Live(table) - Live(table) == {};
        return 0, true;
      }
      table := MarkDead(table, Recent(order, n));
      entries := map[];
      ok := LoadAll(load);
    }

    method InvalidateAll(sqlOk: bool) returns (ok: bool)
      requires open
      modifies this`table, this`entries
      ensures View() == Step(old(View()), CacheModel.InvalidateAll(sqlOk))
      ensures ok == sqlOk
    {
      entries := map[];
      if sqlOk {
        table := MarkDead(table, Live(table));
      }
      ok := sqlOk;
    }

    /** One turn of the drain goroutine. */
    method DrainHit(write: Write)
      modifies this`table, this`hits, this`tally
      ensures View() == DrainOne(old(View()), write)
    {
      if hits == [] {
        return;
      }
      var key := hits[0];
      hits := hits[1..];
      if write.ok {
        table := CountHit(table, key, write.now);
        tally := tally.(drained := tally.drained + multiset{key});
      } else {
        tally := tally.(lost := tally.lost + multiset{key});
      }
    }

    method Close(writes: seq<Write>)
      requires Allowed(View(), CacheModel.Close(writes))
      modifies this
      ensures View() == Step(old(View()), CacheModel.Close(writes))
    {
      ghost var before := View();
      var i := 0;
      DrainManyEmptiesTheFront(before, writes, 0);
      while hits != []
        invariant i <= |writes| && hits == before.queue[i..]
        invariant View() == DrainMany(before, writes, i)
        decreases |writes| - i
      {
        DrainHit(writes[i]);
        i := i + 1;
        DrainManyEmptiesTheFront(before, writes, i);
      }
      open := false;
    }
  }
}
