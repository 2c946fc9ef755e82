/** The reader-writer locks that requests, discovery and circuits share: one per endpoint client and
    one for the circuit registry (client/http/endpoint.go, client/http/middleware/circuit_break.go). */
module Locks {

  datatype Lock = ClientLock(client: nat) | RegistryLock {
    function Rank(): nat { if ClientLock? then 0 else 1 }
  }

  /** Load and Store are accesses to the maps that a lock is there for. */
  datatype Op = RLock(l: Lock) | RUnlock(l: Lock) | WLock(l: Lock) | WUnlock(l: Lock) | Load(l: Lock) | Store(l: Lock)

  // ---- the lock operations and accesses of each routine ----

  function Reading(l: Lock): seq<Op> { [RLock(l), Load(l), RUnlock(l)] }

  function Writing(l: Lock): seq<Op> { [WLock(l), Load(l), Store(l), WUnlock(l)] }

  const LOOKUP := Reading(RegistryLock)    // IsCircuitOpen
  const CLEANUP := Writing(RegistryLock)   // CleanupEndpoint

  /** configCmd: only the read lock if the command is there, then the write lock if it is not. */
  function ConfigCmd(hit: bool): seq<Op> {
    if hit then LOOKUP else LOOKUP + CLEANUP
  }

  /** The range over the endpoints reads the client's map before each lookup. */
  function Lookups(c: nat, n: nat): seq<Op> {
    if n == 0 then [] else [Load(ClientLock(c))] + (LOOKUP + Lookups(c, n - 1))
  }

  /** resolveHost holds the client's read lock during its lookups. */
  function ResolveHost(c: nat, endpoints: nat): seq<Op> {
    [RLock(ClientLock(c))] + (Lookups(c, endpoints) + [RUnlock(ClientLock(c))])
  }

  function Factory(c: nat): seq<Op> { Writing(ClientLock(c)) }

  /** fakeCloser.Close gives the registry's lock back before it takes the client's. */
  function Close(c: nat): seq<Op> {
    CLEANUP + Factory(c)
  }

  datatype Routine =
    | Resolving(c: nat, endpoints: nat)
    | Creating(c: nat)
    | Closing(c: nat)
    | Configuring(hit: bool)
    | Cleaning
    | Looking

  function Ops(r: Routine): seq<Op> {
    match r
    case Resolving(c, n) => ResolveHost(c, n)
    case Creating(c) => Factory(c)
    case Closing(c) => Close(c)
    case Configuring(hit) => ConfigCmd(hit)
    case Cleaning => CLEANUP
    case Looking => LOOKUP
  }

  function Program(rs: seq<Routine>): seq<Op> {
    if rs == [] then [] else Ops(rs[0]) + Program(rs[1..])
  }

  // ---- threads and sync.RWMutex ----

  /** `announced`: a writer that has stopped new readers and waits for the present ones. */
  datatype Thread = Thread(todo: seq<Op>, reading: set<Lock>, writing: set<Lock>, announced: bool)

  type State = seq<Thread>

  predicate Claims(t: Thread, l: Lock) {
    l in t.writing || (t.announced && t.todo != [] && t.todo[0] == WLock(l))
  }

  predicate Claimed(s: State, l: Lock) { exists i :: 0 <= i < |s| && Claims(s[i], l) }

  predicate Read(s: State, l: Lock) { exists i :: 0 <= i < |s| && l in s[i].reading }

  /** A reader waits for writers, even for one that only announced itself; writers announce one at a
      time and then wait for the readers. */
  predicate Enabled(s: State, i: nat) {
    i < |s| && s[i].todo != [] &&
    match s[i].todo[0]
    case RLock(l) => !Claimed(s, l)
    case WLock(l) => if s[i].announced then !Read(s, l) else !Claimed(s, l)
    case RUnlock(l) => l in s[i].reading
    case WUnlock(l) => l in s[i].writing
    case _ => true
  }

  function Advance(t: Thread): Thread
    requires t.todo != []
  {
    var rest := t.todo[1..];
    match t.todo[0]
    case RLock(l) => t.(todo := rest, reading := t.reading + {l})
    case RUnlock(l) => t.(todo := rest, reading := t.reading - {l})
    case WLock(l) => if t.announced then t.(todo := rest, writing := t.writing + {l}, announced := false)
                     else t.(announced := true)
    case WUnlock(l) => t.(todo := rest, writing := t.writing - {l})
    case _ => t.(todo := rest)
  }

  function Step(s: State, i: nat): State {
    if Enabled(s, i) then s[i := Advance(s[i])] else s
  }

  /** A schedule names the thread that moves next. */
  function Run(s: State, schedule: seq<nat>): State {
    if schedule == [] then s else Step(Run(s, schedule[..|schedule| - 1]), schedule[|schedule| - 1])
  }

  function Started(routines: seq<Routine>): Thread { Thread(Program(routines), {}, {}, false) }

  function Start(threads: seq<seq<Routine>>): State {
    seq(|threads|, i requires 0 <= i < |threads| => Started(threads[i]))
  }

  // ---- the discipline ----

  /** Locks are taken in ascending rank, given back, and none is kept at the end; what they are there
      for is only read under the lock and only written under it as a writer. */
  predicate Orderly(todo: seq<Op>, reading: set<Lock>, writing: set<Lock>) {
    if todo == [] then reading == {} && writing == {}
    else match todo[0]
      case RLock(l) => Above(l, reading + writing) && Orderly(todo[1..], reading + {l}, writing)
      case WLock(l) => Above(l, reading + writing) && Orderly(todo[1..], reading, writing + {l})
      case RUnlock(l) => l in reading && Orderly(todo[1..], reading - {l}, writing)
      case WUnlock(l) => l in writing && Orderly(todo[1..], reading, writing - {l})
      case Load(l) => l in reading + writing && Orderly(todo[1..], reading, writing)
      case Store(l) => l in writing && Orderly(todo[1..], reading, writing)
  }

  predicate Above(l: Lock, held: set<Lock>) {
    forall h :: h in held ==> h.Rank() < l.Rank()
  }

  lemma {:induction false} OrderlyThen(p: seq<Op>, q: seq<Op>, reading: set<Lock>, writing: set<Lock>)
    requires Orderly(p, reading, writing) && Orderly(q, {}, {})
    ensures Orderly(p + q, reading, writing)
    decreases |p|
  {
    if p == [] {
      assert p + q == q;
    } else {
      assert (p + q)[1..] == p[1..] + q;
      match p[0]
      case RLock(l) => OrderlyThen(p[1..], q, reading + {l}, writing);
      case WLock(l) => OrderlyThen(p[1..], q, reading, writing + {l});
      case RUnlock(l) => OrderlyThen(p[1..], q, reading - {l}, writing);
      case WUnlock(l) => OrderlyThen(p[1..], q, reading, writing - {l});
      case _ => OrderlyThen(p[1..], q, reading, writing);
    }
  }

  lemma ReadingOrderly(l: Lock, held: set<Lock>, q: seq<Op>)
    requires Above(l, held) && Orderly(q, held, {})
    ensures Orderly(Reading(l) + q, held, {})
  {
    var p := Reading(l) + q;
    assert p[1..][1..][1..] == q;
    assert p[1..][1..] == [RUnlock(l)] + q && p[1..] == [Load(l), RUnlock(l)] + q;
    assert l !in held && held + {l} - {l} == held;
    assert Orderly(p[1..][1..], held + {l}, {});
    assert Orderly(p[1..], held + {l}, {});
  }

  lemma WritingOrderly(l: Lock, q: seq<Op>)
    requires Orderly(q, {}, {})
    ensures Orderly(Writing(l) + q, {}, {})
  {
    var p := Writing(l) + q;
    assert p[1..][1..][1..][1..] == q;
    assert p[1..][1..][1..] == [WUnlock(l)] + q && p[1..][1..] == [Store(l), WUnlock(l)] + q;
    assert p[1..] == [Load(l), Store(l), WUnlock(l)] + q;
    assert {l} - {l} == {} && {} + {l} == {l};
    assert Orderly(p[1..][1..][1..], {}, {l});
    assert Orderly(p[1..][1..], {}, {l});
    assert Orderly(p[1..], {}, {l});
  }

  lemma LoadOrderly(l: Lock, q: seq<Op>)
    requires Orderly(q, {l}, {})
    ensures Orderly([Load(l)] + q, {l}, {})
  {
    assert ([Load(l)] + q)[1..] == q;
  }

  lemma {:induction false} LookupsOrderly(c: nat, n: nat, q: seq<Op>)
    requires Orderly(q, {ClientLock(c)}, {})
    ensures Orderly(Lookups(c, n) + q, {ClientLock(c)}, {})
  {
    if n == 0 {
      assert Lookups(c, 0) + q == q;
    } else {
      var rest := Lookups(c, n - 1) + q;
      LookupsOrderly(c, n - 1, q);
      ReadingOrderly(RegistryLock, {ClientLock(c)}, rest);
      LoadOrderly(ClientLock(c), LOOKUP + rest);
      assert Lookups(c, n) + q == [Load(ClientLock(c))] + (LOOKUP + rest);
    }
  }

  /** Every routine keeps the discipline: the registry's lock is only ever taken last. */
  lemma RoutineOrderly(r: Routine)
    ensures Orderly(Ops(r), {}, {})
  {
    match r
    case Resolving(c, n) =>
      var l := ClientLock(c);
      assert {l} - {l} == {} && {} + {l} == {l};
      assert [RUnlock(l)][1..] == [];
      LookupsOrderly(c, n, [RUnlock(l)]);
      assert ResolveHost(c, n)[1..] == Lookups(c, n) + [RUnlock(l)];
    case Creating(c) =>
      WritingOrderly(ClientLock(c), []);
      assert Factory(c) + [] == Factory(c);
    case Closing(c) =>
      WritingOrderly(ClientLock(c), []);
      assert Factory(c) + [] == Factory(c);
      WritingOrderly(RegistryLock, Factory(c));
    case Configuring(hit) =>
      ReadingOrderly(RegistryLock, {}, []);
      WritingOrderly(RegistryLock, []);
      assert LOOKUP + [] == LOOKUP && CLEANUP + [] == CLEANUP;
      ReadingOrderly(RegistryLock, {}, CLEANUP);
    case Cleaning =>
      WritingOrderly(RegistryLock, []);
      assert CLEANUP + [] == CLEANUP;
    case Looking =>
      ReadingOrderly(RegistryLock, {}, []);
      assert LOOKUP + [] == LOOKUP;
  }

  lemma {:induction false} ProgramOrderly(rs: seq<Routine>)
    ensures Orderly(Program(rs), {}, {})
  {
    if rs == [] {
    } else {
      RoutineOrderly(rs[0]);
      ProgramOrderly(rs[1..]);
      OrderlyThen(Ops(rs[0]), Program(rs[1..]), {}, {});
    }
  }

  // ---- what holds in every schedule ----

  predicate ThreadOk(t: Thread) {
    && Orderly(t.todo, t.reading, t.writing)
    && (t.announced ==> t.todo != [] && t.todo[0].WLock?)
  }

  /** A claimed lock has one claimant, and one that is held for writing no readers. */
  ghost predicate Exclusive(s: State) {
    forall i, j, l :: 0 <= i < |s| && 0 <= j < |s| && i != j ==>
      && !(Claims(s[i], l) && Claims(s[j], l))
      && !(l in s[i].writing && l in s[j].reading)
  }

  predicate StateOk(s: State) {
    forall i :: 0 <= i < |s| ==> ThreadOk(s[i])
  }

  lemma AdvanceOk(t: Thread)
    requires ThreadOk(t) && t.todo != []
    ensures ThreadOk(Advance(t))
  {
  }

  lemma {:induction false} AlwaysOk(threads: seq<seq<Routine>>, schedule: seq<nat>)
    ensures StateOk(Run(Start(threads), schedule))
    ensures |Run(Start(threads), schedule)| == |threads|
  {
    if schedule == [] {
      forall i | 0 <= i < |threads| ensures ThreadOk(Start(threads)[i]) {
        ProgramOrderly(threads[i]);
      }
    } else {
      var init, i := schedule[..|schedule| - 1], schedule[|schedule| - 1];
      AlwaysOk(threads, init);
      var s := Run(Start(threads), init);
      if Enabled(s, i) {
        AdvanceOk(s[i]);
      }
    }
  }

  predicate Finished(s: State) {
    forall i :: 0 <= i < |s| ==> s[i].todo == []
  }

  /** A thread that holds the registry's lock can always move on: nothing ranks higher. */
  lemma HolderOfRegistryMoves(s: State, i: nat)
    requires StateOk(s) && i < |s| && (RegistryLock in s[i].reading || RegistryLock in s[i].writing)
    ensures Enabled(s, i)
  {
    assert ThreadOk(s[i]);
    assert RegistryLock in s[i].reading + s[i].writing;
  }

  /** So can one that holds a client's lock, unless it waits for the registry's. */
  lemma HolderMoves(s: State, i: nat)
    requires StateOk(s) && i < |s| && s[i].reading + s[i].writing != {}
    requires !Claimed(s, RegistryLock) && !Read(s, RegistryLock)
    ensures Enabled(s, i)
  {
    assert ThreadOk(s[i]);
    var h :| h in s[i].reading + s[i].writing;
    if s[i].todo[0].RLock? || s[i].todo[0].WLock? {
      assert h.Rank() < s[i].todo[0].l.Rank();
      assert s[i].todo[0].l == RegistryLock;
    }
  }

  lemma SomeoneMoves(s: State) returns (i: nat)
    requires StateOk(s) && !Finished(s)
    ensures Enabled(s, i)
  {
    if i0 :| 0 <= i0 < |s| && (RegistryLock in s[i0].reading || RegistryLock in s[i0].writing) {
      HolderOfRegistryMoves(s, i0);
      return i0;
    }
    assert !Read(s, RegistryLock);
    if Claimed(s, RegistryLock) {
      var i1 :| 0 <= i1 < |s| && Claims(s[i1], RegistryLock);
      return i1;
    }
    if i2 :| 0 <= i2 < |s| && s[i2].reading + s[i2].writing != {} {
      HolderMoves(s, i2);
      return i2;
    }
    assert forall l :: !Read(s, l);
    if i3 :| 0 <= i3 < |s| && s[i3].announced {
      assert ThreadOk(s[i3]);
      return i3;
    }
    var i4 :| 0 <= i4 < |s| && s[i4].todo != [];
    assert ThreadOk(s[i4]);
    assert forall l :: !Claimed(s, l);
    return i4;
  }

  /** In every schedule of any number of threads running any routines, as long as one of them is
      not finished some thread can move: there is no deadlock. */
  lemma NoDeadlock(threads: seq<seq<Routine>>, schedule: seq<nat>)
    ensures Finished(Run(Start(threads), schedule)) || exists i :: Enabled(Run(Start(threads), schedule), i)
  {
    AlwaysOk(threads, schedule);
    var s := Run(Start(threads), schedule);
    if !Finished(s) {
      var i := SomeoneMoves(s);
    }
  }

  // ---- and every schedule ends ----

  function OpWork(ops: seq<Op>): nat {
    if ops == [] then 0 else (if ops[0].WLock? then 2 else 1) + OpWork(ops[1..])
  }

  function Work(t: Thread): int {
    OpWork(t.todo) - if t.announced then 1 else 0
  }

  function TotalWork(s: State): int {
    if s == [] then 0 else TotalWork(s[..|s| - 1]) + Work(s[|s| - 1])
  }

  lemma {:induction false} TotalWorkUpdate(s: State, i: nat, t: Thread)
    requires i < |s|
    ensures TotalWork(s[i := t]) == TotalWork(s) - Work(s[i]) + Work(t)
    decreases |s|
  {
    var n := |s| - 1;
    if i < n {
      TotalWorkUpdate(s[..n], i, t);
      assert s[i := t][..n] == s[..n][i := t];
    } else {
      assert s[i := t][..n] == s[..n];
    }
  }

  lemma {:induction false} WorkIsNat(s: State)
    requires StateOk(s)
    ensures TotalWork(s) >= 0
    ensures TotalWork(s) == 0 <==> Finished(s)
  {
    if s == [] {
    } else {
      var n := |s| - 1;
      assert forall i :: 0 <= i < n ==> s[..n][i] == s[i];
      WorkIsNat(s[..n]);
      assert ThreadOk(s[n]);
      assert Finished(s) <==> Finished(s[..n]) && s[n].todo == [];
    }
  }

  /** Every step of a schedule that only moves threads that can move. */
  predicate Effective(s: State, schedule: seq<nat>) {
    schedule == [] ||
    (Effective(s, schedule[..|schedule| - 1]) &&
     Enabled(Run(s, schedule[..|schedule| - 1]), schedule[|schedule| - 1]))
  }

  lemma OneUnit(t: Thread)
    requires ThreadOk(t) && t.todo != []
    ensures Work(Advance(t)) == Work(t) - 1
  {
  }

  /** Each such step does one unit of the work there was at the start. So a schedule has no more
      steps than that, and one with as many finishes every thread. */
  lemma {:induction false} SchedulesEnd(threads: seq<seq<Routine>>, schedule: seq<nat>)
    requires Effective(Start(threads), schedule)
    ensures TotalWork(Run(Start(threads), schedule)) == TotalWork(Start(threads)) - |schedule|
    ensures |schedule| <= TotalWork(Start(threads))
    ensures |schedule| == TotalWork(Start(threads)) <==> Finished(Run(Start(threads), schedule))
  {
    if schedule == [] {
    } else {
      var init, i := schedule[..|schedule| - 1], schedule[|schedule| - 1];
      SchedulesEnd(threads, init);
      var s := Run(Start(threads), init);
      TotalWorkUpdate(s, i, Advance(s[i]));
      AlwaysOk(threads, init);
      OneUnit(s[i]);
    }
    AlwaysOk(threads, schedule);
    WorkIsNat(Run(Start(threads), schedule));
  }

  // ---- mutual exclusion ----

  lemma ExclusiveStep(s: State, i: nat)
    requires StateOk(s) && Exclusive(s)
    ensures Exclusive(Step(s, i))
  {
    if Enabled(s, i) {
      ExclusiveMove(s, i);
    }
  }

  lemma ExclusiveMove(s: State, i: nat)
    requires StateOk(s) && Exclusive(s) && Enabled(s, i)
    ensures Exclusive(Step(s, i))
  {
    var t, t' := s[i], Advance(s[i]);
    forall j, l | 0 <= j < |s| && j != i
      ensures !(Claims(t', l) && Claims(s[j], l))
      ensures !(l in t'.writing && l in s[j].reading) && !(l in s[j].writing && l in t'.reading)
    {
    }
  }

  /** In every schedule a thread that holds a lock for writing is alone with it: nothing
      happens in between to what a client's or the registry's lock guards. */
  lemma {:induction false} MutualExclusion(threads: seq<seq<Routine>>, schedule: seq<nat>)
    ensures Exclusive(Run(Start(threads), schedule))
  {
    if schedule == [] {
    } else {
      var init, i := schedule[..|schedule| - 1], schedule[|schedule| - 1];
      MutualExclusion(threads, init);
      AlwaysOk(threads, init);
      ExclusiveStep(Run(Start(threads), init), i);
    }
  }

  predicate AtStore(t: Thread, l: Lock) { t.todo != [] && t.todo[0] == Store(l) }

  predicate AtAccess(t: Thread, l: Lock) { t.todo != [] && (t.todo[0] == Store(l) || t.todo[0] == Load(l)) }

  /** No schedule has a data race: when a thread is about to write the endpoints of a client or the
      maps of the registry, no other is about to read or write them. */
  lemma NoDataRace(threads: seq<seq<Routine>>, schedule: seq<nat>, i: nat, j: nat, l: Lock)
    requires i < |threads| && j < |threads| && i != j
    ensures |Run(Start(threads), schedule)| == |threads|
    ensures var s := Run(Start(threads), schedule); !(AtStore(s[i], l) && AtAccess(s[j], l))
  {
    AlwaysOk(threads, schedule);
    MutualExclusion(threads, schedule);
    var s := Run(Start(threads), schedule);
    assert ThreadOk(s[i]) && ThreadOk(s[j]);
    assert !(Claims(s[i], l) && Claims(s[j], l)) && !(l in s[i].writing && l in s[j].reading);
  }
}
