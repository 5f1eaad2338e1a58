/** The write-behind cache in front of the health tables (service/proxy/health_batcher.go:308-524). A flush
    takes a snapshot, asks which nodes exist, commits one transaction and acknowledges; the four are locked
    separately, and writes and node deletions may come between any two of them. */
module HealthBatcher {
  import opened Ids
  import opened HealthLog

  datatype Payload = Payload(revision: nat, cols: Columns, history: seq<Record>)

  datatype Flush =
    | Idle
    | Snapped(load: map<Id, Payload>)
    | Checked(load: map<Id, Payload>, existing: set<Id>)
    | Committed(load: map<Id, Payload>, existing: set<Id>)

  /** nodes: the node table; used: every ID ever given to a node; memory: the batcher; columns and history:
      the two health tables. */
  datatype Cache = Cache(
    nodes: set<Id>, used: set<Id>, memory: map<Id, Memory>,
    columns: map<Id, Columns>, history: map<Id, seq<Record>>, flush: Flush)

  datatype Event =
    | Write(id: Id, input: Input)
    | CreateNode(id: Id)
    | DeleteNode(id: Id)
    | TakeSnapshot
    | CheckNodes
    | Commit
    | Fail
    | Acknowledge

  function MemoryOf(memory: map<Id, Memory>, x: Id): Memory {
    if x in memory then memory[x] else FRESH
  }

  function Payloads(memory: map<Id, Memory>): map<Id, Payload> {
    map x | x in memory && memory[x].dirty :: Payload(memory[x].revision, memory[x].cols, memory[x].history)
  }

  /** The last section of flush: a memory that has moved on is left alone; the memory of a node that was
      gone is dropped; the rest is clean. */
  function Acknowledged(memory: map<Id, Memory>, load: map<Id, Payload>, existing: set<Id>): map<Id, Memory> {
    map x | x in memory && !(x in load && memory[x].revision == load[x].revision && x !in existing) ::
      if x in load && memory[x].revision == load[x].revision then memory[x].(dirty := false) else memory[x]
  }

  function WithColumns(columns: map<Id, Columns>, load: map<Id, Payload>, existing: set<Id>): map<Id, Columns> {
    columns + map x | x in load && x in existing :: load[x].cols
  }

  function WithHistory(history: map<Id, seq<Record>>, load: map<Id, Payload>, existing: set<Id>): map<Id, seq<Record>> {
    history + map x | x in load && x in existing :: load[x].history
  }

  /** IDs are fresh when a node is created, and results arrive only for IDs that once were nodes. */
  predicate Can(s: Cache, e: Event) {
    match e
    case Write(x, _) => x in s.used
    case CreateNode(x) => x !in s.used
    case DeleteNode(x) => x in s.nodes
    case TakeSnapshot => s.flush.Idle?
    case CheckNodes => s.flush.Snapped?
    case Commit => s.flush.Checked?
    case Fail => s.flush.Snapped? || s.flush.Checked?
    case Acknowledge => s.flush.Committed?
  }

  function Step(s: Cache, e: Event): Cache
    requires Can(s, e)
  {
    match e
    case Write(x, i) => s.(memory := s.memory[x := Apply(MemoryOf(s.memory, x), i)])
    case CreateNode(x) => s.(nodes := s.nodes + {x}, used := s.used + {x})
    case DeleteNode(x) => s.(nodes := s.nodes - {x}, columns := s.columns - {x}, history := s.history - {x})
    case TakeSnapshot => s.(flush := Snapped(Payloads(s.memory)))
    case CheckNodes => s.(flush := Checked(s.flush.load, s.flush.load.Keys * s.nodes))
    case Commit =>
      s.(columns := WithColumns(s.columns, s.flush.load, s.flush.existing),
         history := WithHistory(s.history, s.flush.load, s.flush.existing),
         flush := Committed(s.flush.load, s.flush.existing))
    case Fail => s.(flush := Idle)
    case Acknowledge => s.(memory := Acknowledged(s.memory, s.flush.load, s.flush.existing), flush := Idle)
  }

  ghost predicate Possible(s: Cache, es: seq<Event>)
    decreases |es|
  {
    es == [] || (Can(s, es[0]) && Possible(Step(s, es[0]), es[1..]))
  }

  ghost function Run(s: Cache, es: seq<Event>): Cache
    requires Possible(s, es)
    decreases |es|
  {
    if es == [] then s else Run(Step(s, es[0]), es[1..])
  }

  // ---------------------------------------------------------------- not dirty means stored

  ghost predicate Stored(s: Cache, x: Id, cols: Columns, history: seq<Record>) {
    x in s.columns && x in s.history && s.columns[x] == cols && s.history[x] == history
  }

  /** The promise of the cache: what an existing node's memory says is in the tables, unless it is dirty. */
  ghost predicate CleanIsStored(s: Cache) {
    forall x :: x in s.nodes && x in s.memory && !s.memory[x].dirty ==>
      Stored(s, x, s.memory[x].cols, s.memory[x].history)
  }

  ghost predicate KnownIds(s: Cache) {
    s.nodes <= s.used && s.memory.Keys <= s.used && (!s.flush.Idle? ==> s.flush.load.Keys <= s.used)
  }

  /** A payload in flight is never newer than its memory, the same revision means the same contents, and
      its memory stays dirty. */
  ghost predicate InFlight(s: Cache) {
    !s.flush.Idle? ==>
      forall x :: x in s.flush.load ==>
        && x in s.memory && s.memory[x].dirty
        && s.flush.load[x].revision <= s.memory[x].revision
        && (s.flush.load[x].revision == s.memory[x].revision ==>
              s.flush.load[x].cols == s.memory[x].cols && s.flush.load[x].history == s.memory[x].history)
  }

  ghost predicate ChecksHold(s: Cache) {
    s.flush.Checked? || s.flush.Committed? ==>
      && s.flush.existing <= s.flush.load.Keys
      && (forall x :: x in s.flush.load && x in s.nodes ==> x in s.flush.existing)
      && (s.flush.Committed? ==>
            forall x :: x in s.flush.load && x in s.nodes ==>
              Stored(s, x, s.flush.load[x].cols, s.flush.load[x].history))
  }

  ghost predicate Sound(s: Cache) {
    KnownIds(s) && CleanIsStored(s) && InFlight(s) && ChecksHold(s)
  }

  lemma WriteMovesOn(m: Memory, i: Input)
    ensures var n := Apply(m, i);
            || (n == m && i.Result? && Duplicate(m.history, i.r))
            || (n.dirty && n.revision == m.revision + 1 && !(i.Result? && Duplicate(m.history, i.r)))
  {
  }

  lemma WriteKeepsSound(s: Cache, e: Event)
    requires Sound(s) && Can(s, e) && e.Write?
    ensures Sound(Step(s, e))
  {
    WriteMovesOn(MemoryOf(s.memory, e.id), e.input);
  }

  lemma NodesKeepSound(s: Cache, e: Event)
    requires Sound(s) && Can(s, e) && (e.CreateNode? || e.DeleteNode?)
    ensures Sound(Step(s, e))
  {
  }

  lemma FlushKeepsSound(s: Cache, e: Event)
    requires Sound(s) && Can(s, e) && (e.TakeSnapshot? || e.CheckNodes? || e.Fail?)
    ensures Sound(Step(s, e))
  {
  }

  lemma CommitKeepsSound(s: Cache)
    requires Sound(s) && Can(s, Commit)
    ensures Sound(Step(s, Commit))
  {
  }

  lemma AcknowledgeKeepsSound(s: Cache)
    requires Sound(s) && Can(s, Acknowledge)
    ensures Sound(Step(s, Acknowledge))
  {
  }

  lemma StepKeepsSound(s: Cache, e: Event)
    requires Sound(s) && Can(s, e)
    ensures Sound(Step(s, e))
  {
    match e
    case Write(_, _) => WriteKeepsSound(s, e);
    case CreateNode(_) => NodesKeepSound(s, e);
    case DeleteNode(_) => NodesKeepSound(s, e);
    case TakeSnapshot => FlushKeepsSound(s, e);
    case CheckNodes => FlushKeepsSound(s, e);
    case Fail => FlushKeepsSound(s, e);
    case Commit => CommitKeepsSound(s);
    case Acknowledge => AcknowledgeKeepsSound(s);
  }

  /** Write-behind safety, in every interleaving of writes, node changes and flush phases, failed flushes
      included. */
  lemma {:induction false} RunKeepsSound(s: Cache, es: seq<Event>)
    requires Sound(s) && Possible(s, es)
    ensures Sound(Run(s, es))
    decreases |es|
  {
    if es != [] {
      StepKeepsSound(s, es[0]);
      RunKeepsSound(Step(s, es[0]), es[1..]);
    }
  }

  // ---------------------------------------------------------------- what a flush cleans

  /** Writes to x that its memory accepts. */
  ghost function Writes(s: Cache, es: seq<Event>, x: Id): nat
    requires Possible(s, es)
    decreases |es|
  {
    if es == [] then 0
    else
      var m := MemoryOf(s.memory, x);
      (if es[0].Write? && es[0].id == x && !(es[0].input.Result? && Duplicate(m.history, es[0].input.r)) then 1 else 0)
      + Writes(Step(s, es[0]), es[1..], x)
  }

  predicate Outside(es: seq<Event>) {
    forall i :: 0 <= i < |es| ==> es[i].Write? || es[i].CreateNode? || es[i].DeleteNode?
  }

  /** Between two phases of a flush only writes count, and each moves the revision on by one. */
  lemma {:induction false} WritesMoveRevision(s: Cache, es: seq<Event>, x: Id)
    requires Possible(s, es) && Outside(es)
    ensures var t := Run(s, es);
            && t.flush == s.flush
            && MemoryOf(t.memory, x).revision == MemoryOf(s.memory, x).revision + Writes(s, es, x)
            && (x in s.memory ==> x in t.memory)
            && (Writes(s, es, x) == 0 ==> MemoryOf(t.memory, x) == MemoryOf(s.memory, x))
            && (Writes(s, es, x) > 0 ==> MemoryOf(t.memory, x).dirty)
    decreases |es|
  {
    if es != [] {
      var e := es[0];
      if e.Write? {
        WriteMovesOn(MemoryOf(s.memory, e.id), e.input);
      }
      WritesMoveRevision(Step(s, e), es[1..], x);
    }
  }

  /** A flush with anything happening between its phases: the state it starts from and its three gaps. */
  datatype Round = Round(s: Cache, a: seq<Event>, b: seq<Event>, c: seq<Event>)

  ghost predicate Happens(r: Round) {
    && Outside(r.a) && Outside(r.b) && Outside(r.c)
    && r.s.flush.Idle?
    && Possible(Step(r.s, TakeSnapshot), r.a)
    && var s1 := Run(Step(r.s, TakeSnapshot), r.a);
    && s1.flush.Snapped? && Possible(Step(s1, CheckNodes), r.b)
    && var s2 := Run(Step(s1, CheckNodes), r.b);
    && s2.flush.Checked? && Possible(Step(s2, Commit), r.c)
    && Run(Step(s2, Commit), r.c).flush.Committed?
  }

  ghost function AtCheck(r: Round): Cache
    requires Happens(r)
  {
    Run(Step(r.s, TakeSnapshot), r.a)
  }

  ghost function AtCommit(r: Round): Cache
    requires Happens(r)
  {
    Run(Step(AtCheck(r), CheckNodes), r.b)
  }

  ghost function AtAcknowledge(r: Round): Cache
    requires Happens(r)
  {
    Run(Step(AtCommit(r), Commit), r.c)
  }

  ghost function After(r: Round): Cache
    requires Happens(r)
  {
    Step(AtAcknowledge(r), Acknowledge)
  }

  /** Accepted writes to x while the flush ran. */
  ghost function Meanwhile(r: Round, x: Id): nat
    requires Happens(r)
  {
    Writes(Step(r.s, TakeSnapshot), r.a, x) + Writes(Step(AtCheck(r), CheckNodes), r.b, x)
      + Writes(Step(AtCommit(r), Commit), r.c, x)
  }

  lemma RoundMovesRevision(r: Round, x: Id)
    requires Happens(r)
    ensures var t := AtAcknowledge(r);
            && t.flush == Committed(Payloads(r.s.memory), Payloads(r.s.memory).Keys * AtCheck(r).nodes)
            && MemoryOf(t.memory, x).revision == MemoryOf(r.s.memory, x).revision + Meanwhile(r, x)
            && (x in r.s.memory ==> x in t.memory)
            && (Meanwhile(r, x) == 0 ==> MemoryOf(t.memory, x) == MemoryOf(r.s.memory, x))
            && (Meanwhile(r, x) > 0 ==> MemoryOf(t.memory, x).dirty)
  {
    WritesMoveRevision(Step(r.s, TakeSnapshot), r.a, x);
    WritesMoveRevision(Step(AtCheck(r), CheckNodes), r.b, x);
    WritesMoveRevision(Step(AtCommit(r), Commit), r.c, x);
  }

  /** What one flush does to a dirty memory: left dirty exactly when it was written meanwhile; otherwise
      clean if the node existed when the flush looked, and forgotten if it did not. */
  lemma FlushCleansExactlyUnwritten(r: Round, x: Id)
    requires Happens(r) && x in r.s.memory && r.s.memory[x].dirty
    ensures var t := After(r).memory;
            && (Meanwhile(r, x) > 0 ==> x in t && t[x].dirty && t[x] == AtAcknowledge(r).memory[x])
            && (Meanwhile(r, x) == 0 ==>
                  && (x in t <==> x in AtCheck(r).nodes)
                  && (x in t ==> t[x] == r.s.memory[x].(dirty := false)))
  {
    RoundMovesRevision(r, x);
    var load, existing := Payloads(r.s.memory), Payloads(r.s.memory).Keys * AtCheck(r).nodes;
    var m := AtAcknowledge(r).memory;
    assert After(r).memory == Acknowledged(m, load, existing);
    AcknowledgedAt(m, load, existing, x);
  }

  lemma AcknowledgedAt(m: map<Id, Memory>, load: map<Id, Payload>, existing: set<Id>, x: Id)
    requires x in m && x in load
    ensures var t := Acknowledged(m, load, existing);
            if m[x].revision != load[x].revision then x in t && t[x] == m[x]
            else (x in t <==> x in existing) && (x in t ==> t[x] == m[x].(dirty := false))
  {
  }

  /** A flush that nothing interrupts leaves no dirty memory, and every existing node's memory stored. */
  lemma QuiescentFlushStoresAll(s: Cache)
    requires Sound(s) && s.flush.Idle?
    ensures var r := Round(s, [], [], []);
            && Happens(r)
            && (forall x :: x in After(r).memory ==> !After(r).memory[x].dirty)
            && (forall x :: x in s.nodes && x in s.memory ==>
                  x in After(r).memory && After(r).memory[x] == s.memory[x].(dirty := false)
                  && Stored(After(r), x, s.memory[x].cols, s.memory[x].history))
  {
    var r := Round(s, [], [], []);
    var s1 := Step(s, TakeSnapshot);
    var s2 := Step(s1, CheckNodes);
    var s3 := Step(s2, Commit);
    assert Happens(r) && AtCheck(r) == s1 && AtCommit(r) == s2 && AtAcknowledge(r) == s3;
    StepKeepsSound(s, TakeSnapshot);
    StepKeepsSound(s1, CheckNodes);
    StepKeepsSound(s2, Commit);
    StepKeepsSound(s3, Acknowledge);
  }

  // ---------------------------------------------------------------- rows without a node

  ghost predicate NoOrphans(s: Cache) {
    s.columns.Keys <= s.nodes && s.history.Keys <= s.nodes
  }

  /** A transaction leaves a row without a node exactly when it commits for a node that was deleted after
      the flush had looked; no other step can. */
  lemma OrphansComeFromLateDeletes(s: Cache, e: Event)
    requires Sound(s) && Can(s, e) && NoOrphans(s)
    ensures NoOrphans(Step(s, e)) <==> !(e.Commit? && exists x :: x in s.flush.existing && x !in s.nodes)
  {
    if e.Commit? {
      var t := Step(s, e);
      if x :| x in s.flush.existing && x !in s.nodes {
        assert x in t.columns.Keys;
      }
    }
  }

  const LATE_DELETE := [Write("a", Release), TakeSnapshot, CheckNodes, DeleteNode("a"), Commit, Acknowledge]
  const ONE_NODE := Cache({"a"}, {"a"}, map[], map[], map[], Idle)

  /** Such a run exists; and the row outlives the node, since no ID is used twice. */
  lemma LateDeleteLeavesRow()
    ensures Sound(ONE_NODE) && Possible(ONE_NODE, LATE_DELETE)
    ensures var t := Run(ONE_NODE, LATE_DELETE); "a" !in t.nodes && "a" in t.columns && "a" in t.memory
  {
    var s1 := Step(ONE_NODE, Write("a", Release));
    var s2 := Step(s1, TakeSnapshot);
    var s3 := Step(s2, CheckNodes);
    var s4 := Step(s3, DeleteNode("a"));
    var s5 := Step(s4, Commit);
    Unroll(ONE_NODE, LATE_DELETE);
    Unroll(s1, LATE_DELETE[1..]);
    Unroll(s2, LATE_DELETE[2..]);
    Unroll(s3, LATE_DELETE[3..]);
    Unroll(s4, LATE_DELETE[4..]);
    Unroll(s5, LATE_DELETE[5..]);
  }

  lemma Unroll(s: Cache, es: seq<Event>)
    requires |es| > 0 && Can(s, es[0])
    ensures Possible(s, es) <==> Possible(Step(s, es[0]), es[1..])
    ensures Possible(s, es) ==> Run(s, es) == Run(Step(s, es[0]), es[1..])
  {
  }

  // ---------------------------------------------------------------- the next start

  /** The batcher after a start (health_batcher.go:110): every stored row comes back clean. */
  function Loaded(nodes: set<Id>, used: set<Id>, columns: map<Id, Columns>, history: map<Id, seq<Record>>): Cache
    requires columns.Keys == history.Keys
  {
    Cache(nodes, used, map x | x in columns :: Memory(columns[x], history[x], false, 0), columns, history, Idle)
  }

  /** Over every run from a start on tables that hold both rows of every node they know, as every commit leaves
      them, an existing node that is not dirty is stored. */
  lemma RunFromStartIsStored(nodes: set<Id>, used: set<Id>, columns: map<Id, Columns>, history: map<Id, seq<Record>>,
                             es: seq<Event>)
    requires nodes <= used && columns.Keys == history.Keys <= used
    requires Possible(Loaded(nodes, used, columns, history), es)
    ensures CleanIsStored(Run(Loaded(nodes, used, columns, history), es))
  {
    assert Sound(Loaded(nodes, used, columns, history));
    RunKeepsSound(Loaded(nodes, used, columns, history), es);
  }

  ghost predicate Ascending(h: seq<Record>) {
    forall i, j :: 0 <= i < j < |h| ==> h[i].at <= h[j].at
  }

  /** The rows of a node as the query of ensureLoaded (health_batcher.go:96) may list them: by check time, and rows
      with the same time in any order. Only the last thirty are read. */
  ghost predicate Listed(stored: seq<Record>, rows: seq<Record>) {
    Ascending(rows) && multiset(rows) == multiset(stored)
  }

  /** In time order, and two records of the same time are the same. */
  ghost predicate TimesDecide(h: seq<Record>) {
    Ascending(h) && forall i, j :: 0 <= i < j < |h| && h[i].at == h[j].at ==> h[i] == h[j]
  }

  /** However the query lists them, the rows of a window come back as that window if and only if check times decide
      its order. A window has at most thirty records. */
  lemma ReloadRestoresWindowIff(stored: seq<Record>)
    requires |stored| <= LIMIT
    ensures (forall rows :: Listed(stored, rows) ==> Last(rows) == stored) <==> TimesDecide(stored)
  {
    if TimesDecide(stored) {
      forall rows | Listed(stored, rows)
        ensures Last(rows) == stored
      {
        OneListing(stored, rows);
      }
    } else {
      var rows := OtherListing(stored);
      SameLength(stored, rows);
    }
  }

  /** Two records of one time may change places. */
  lemma Swapped(stored: seq<Record>, i: nat, j: nat) returns (rows: seq<Record>)
    requires Ascending(stored) && i < j < |stored| && stored[i].at == stored[j].at && stored[i] != stored[j]
    ensures Listed(stored, rows) && rows != stored
  {
    rows := stored[i := stored[j]][j := stored[i]];
    assert rows[i] != stored[i];
    assert forall k :: 0 <= k < |stored| ==> rows[k].at == stored[k].at;
  }

  /** Two checks of one time that found different latencies: another order of the rows is loaded as another window. */
  lemma EqualTimesAreMixed()
    ensures var a := Record("probe", "", "", true, 20, "", 5);
            var b := Record("probe", "", "", true, 90, "", 5);
            Listed([a, b], [b, a]) && Last([b, a]) != [a, b] && !TimesDecide([a, b])
  {
    var a := Record("probe", "", "", true, 20, "", 5);
    var b := Record("probe", "", "", true, 90, "", 5);
    assert [a, b][0] != [a, b][1];
    assert multiset([b, a]) == multiset([a, b]);
    assert Last([b, a]) == [b, a];
    assert [b, a][0] != [a, b][0];
  }

  /** A window that times do not order can be listed differently. */
  lemma OtherListing(stored: seq<Record>) returns (rows: seq<Record>)
    requires !TimesDecide(stored)
    ensures Listed(stored, rows) && rows != stored
  {
    if Ascending(stored) {
      var i, j :| 0 <= i < j < |stored| && stored[i].at == stored[j].at && stored[i] != stored[j];
      rows := Swapped(stored, i, j);
    } else {
      rows := ByTime(stored);
      ByTimeSorts(stored);
    }
  }

  function InsertByTime(r: Record, h: seq<Record>): seq<Record> {
    if |h| == 0 || r.at <= h[0].at then [r] + h else [h[0]] + InsertByTime(r, h[1..])
  }

  function ByTime(h: seq<Record>): seq<Record> {
    if |h| == 0 then [] else InsertByTime(h[0], ByTime(h[1..]))
  }

  lemma {:induction false} InsertByTimeContents(r: Record, h: seq<Record>)
    ensures multiset(InsertByTime(r, h)) == multiset(h) + multiset{r}
  {
    if !(|h| == 0 || r.at <= h[0].at) {
      InsertByTimeContents(r, h[1..]);
      assert h == [h[0]] + h[1..];
    }
  }

  lemma {:induction false} InsertByTimeSorts(r: Record, h: seq<Record>)
    requires Ascending(h)
    ensures Ascending(InsertByTime(r, h))
  {
    if !(|h| == 0 || r.at <= h[0].at) {
      InsertByTimeSorts(r, h[1..]);
      InsertByTimeContents(r, h[1..]);
      var rest := InsertByTime(r, h[1..]);
      forall k | 0 <= k < |rest|
        ensures h[0].at <= rest[k].at
      {
        assert rest[k] in multiset(rest);
        assert rest[k] == r || rest[k] in h[1..];
      }
    }
  }

  lemma {:induction false} ByTimeSorts(h: seq<Record>)
    ensures Ascending(ByTime(h)) && multiset(ByTime(h)) == multiset(h)
  {
    if |h| > 0 {
      ByTimeSorts(h[1..]);
      InsertByTimeSorts(h[0], ByTime(h[1..]));
      InsertByTimeContents(h[0], ByTime(h[1..]));
      assert h == [h[0]] + h[1..];
    }
  }

  lemma {:induction false} OneListing(stored: seq<Record>, rows: seq<Record>)
    requires TimesDecide(stored) && Listed(stored, rows)
    ensures rows == stored
    decreases |stored|
  {
    SameLength(stored, rows);
    if stored != [] {
      var n := |stored| - 1;
      SameLatest(stored, rows);
      AllButLast(stored);
      AllButLast(rows);
      FrontOrdered(stored, rows, n);
      OneListing(stored[..n], rows[..n]);
      Glue(stored, rows, n);
    }
  }

  lemma Glue<T>(a: seq<T>, b: seq<T>, n: nat)
    requires |a| == |b| == n + 1 && a[..n] == b[..n] && a[n] == b[n]
    ensures a == b
  {
    assert a == a[..n] + [a[n]] && b == b[..n] + [b[n]];
  }

  lemma FrontOrdered(stored: seq<Record>, rows: seq<Record>, n: nat)
    requires TimesDecide(stored) && Ascending(rows) && n <= |stored| == |rows|
    ensures TimesDecide(stored[..n]) && Ascending(rows[..n])
  {
  }

  lemma SameLength(a: seq<Record>, b: seq<Record>)
    requires multiset(a) == multiset(b)
    ensures |a| == |b|
  {
    assert |a| == |multiset(a)| && |b| == |multiset(b)|;
  }

  lemma AllButLast(a: seq<Record>)
    requires a != []
    ensures multiset(a[..|a| - 1]) == multiset(a) - multiset{a[|a| - 1]}
  {
    assert a == a[..|a| - 1] + [a[|a| - 1]];
  }

  lemma SameLatest(stored: seq<Record>, rows: seq<Record>)
    requires |stored| == |rows| > 0 && TimesDecide(stored) && Listed(stored, rows)
    ensures stored[|stored| - 1] == rows[|stored| - 1]
  {
    var n := |stored| - 1;
    var a, b := stored[n], rows[n];
    assert a in multiset(rows);
    assert b in multiset(stored);
    var i :| 0 <= i <= n && rows[i] == a;
    var j :| 0 <= j <= n && stored[j] == b;
    assert a.at <= b.at;
    assert b.at <= a.at;
  }

  // ---------------------------------------------------------------- the batcher's methods

  /** The acknowledge loop has dealt with y, and its memory had not moved on. */
  predicate Settled(memory: map<Id, Memory>, load: map<Id, Payload>, rest: set<Id>, y: Id) {
    y in memory && y in load && y !in rest && memory[y].revision == load[y].revision
  }

  class Batcher {
    var states: map<Id, Memory>

    constructor ()
      ensures states == map[]
    {
      states := map[];
    }

    /** recordProbeResult and updateSnapshot, under the batcher's lock. */
    method Change(x: Id, i: Input)
      modifies this
      ensures states == old(states)[x := Apply(MemoryOf(old(states), x), i)]
    {
      var m := FRESH;
      if x in states {
        m := states[x];
      }
      states := states[x := Apply(m, i)];
    }

    /** reviveNodes (health_batcher.go:368). */
    method ReviveNodes(ids: seq<Id>)
      modifies this
      ensures states.Keys == old(states).Keys + (set x | x in ids && x != "")
      ensures forall x :: x in states ==>
                states[x] == if x in ids && x != "" then Apply(MemoryOf(old(states), x), Revival) else old(states)[x]
    {
      var unique := UniqueNonEmpty(ids);
      UniqueContents(ids);
      for k := 0 to |unique|
        invariant states.Keys == old(states).Keys + (set x | x in unique[..k])
        invariant forall x :: x in states ==>
                    states[x] == if x in unique[..k] then Apply(MemoryOf(old(states), x), Revival) else old(states)[x]
      {
        assert unique[..k + 1] == unique[..k] + [unique[k]];
        assert unique[k] !in unique[..k];
        Change(unique[k], Revival);
      }
      assert unique[..|unique|] == unique;
    }

    /** The first section of flush. */
    method Snapshot() returns (load: map<Id, Payload>)
      ensures load == Payloads(states)
    {
      load := map[];
      var rest := states.Keys;
      while rest != {}
        invariant rest <= states.Keys
        invariant forall x :: x in load <==> x in states && x !in rest && states[x].dirty
        invariant forall x :: x in load ==> load[x] == Payload(states[x].revision, states[x].cols, states[x].history)
        decreases |rest|
      {
        var x :| x in rest;
        rest := rest - {x};
        if states[x].dirty {
          load := load[x := Payload(states[x].revision, states[x].cols, states[x].history)];
        }
      }
    }

    /** The last section of flush. */
    method Settle(load: map<Id, Payload>, existing: set<Id>)
      modifies this
      ensures states == Acknowledged(old(states), load, existing)
    {
      var rest := load.Keys;
      while rest != {}
        invariant rest <= load.Keys
        invariant forall y :: y in states <==>
                    y in old(states) && !(Settled(old(states), load, rest, y) && y !in existing)
        invariant forall y :: y in states ==>
                    states[y] == if Settled(old(states), load, rest, y) then old(states)[y].(dirty := false)
                                 else old(states)[y]
        decreases |rest|
      {
        var x :| x in rest;
        rest := rest - {x};
        if x !in states || states[x].revision != load[x].revision {
          continue;
        }
        if x !in existing {
          states := states - {x};
          continue;
        }
        states := states[x := states[x].(dirty := false)];
      }
    }
  }
}
