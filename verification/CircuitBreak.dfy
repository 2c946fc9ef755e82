/** The registry of configured circuits: two maps under one lock, filled by double-checked locking
    and emptied when an endpoint closes (client/http/middleware/circuit_break.go). */
module CircuitBreak {
  import opened CommandNames

  /** configed, command to key, and cmdMap, key to command. */
  datatype Maps = Maps(configed: map<string, string>, cmdMap: map<string, string>)

  const NO_CIRCUITS := Maps(map[], map[])

  /** The part of configCmd under the write lock, which checks again. */
  function Configured(m: Maps, cmd: string, key: string): Maps {
    if cmd in m.configed then m else Maps(m.configed[cmd := key], m.cmdMap[key := cmd])
  }

  function CleanedUp(m: Maps, key: string): Maps {
    if key in m.cmdMap then Maps(m.configed - {m.cmdMap[key]}, m.cmdMap - {key}) else m
  }

  /** What hystrix.GetCircuit answers: an error, or whether the circuit is open. */
  datatype Circuit = Unknown | Known(open: bool)

  /** IsCircuitOpen reports a circuit open: some circuit is filed under the key, known and open. */
  predicate ReportedOpen(m: Maps, circuits: map<string, Circuit>, key: string) {
    key in m.cmdMap && m.cmdMap[key] in circuits && circuits[m.cmdMap[key]] == Known(true)
  }

  class Registry {
    var configed: map<string, string>
    var cmdMap: map<string, string>
    var calls: seq<string>  // the commands given to hystrix.ConfigureCommand, in order

    function Abs(): Maps
      reads this
    {
      Maps(configed, cmdMap)
    }

    constructor ()
      ensures Abs() == NO_CIRCUITS && calls == []
    {
      configed, cmdMap, calls := map[], map[], [];
    }

    method ConfigCmd(cmd: string, key: string)
      modifies this
      ensures Abs() == Configured(old(Abs()), cmd, key)
      ensures calls == old(calls) + if cmd in old(configed) then [] else [cmd]
    {
      if cmd in configed {
        return;
      }
      if cmd in configed {
        return;
      }
      calls := calls + [cmd];
      configed := configed[cmd := key];
      cmdMap := cmdMap[key := cmd];
    }

    method CleanupEndpoint(key: string)
      modifies this`configed, this`cmdMap
      ensures Abs() == CleanedUp(old(Abs()), key)
    {
      if key in cmdMap {
        configed := configed - {cmdMap[key]};
      }
      cmdMap := cmdMap - {key};
    }

    method IsCircuitOpen(key: string, circuits: map<string, Circuit>) returns (open: bool, ok: bool)
      ensures open && ok <==> ReportedOpen(Abs(), circuits, key)
      ensures ok <==> key in cmdMap && cmdMap[key] in circuits && circuits[cmdMap[key]].Known?
    {
      open, ok := LookUp(Abs(), key, circuits);
    }
  }

  /** The lookup on the registry as it is found under the read lock. */
  method LookUp(m: Maps, key: string, circuits: map<string, Circuit>) returns (open: bool, ok: bool)
    ensures open && ok <==> ReportedOpen(m, circuits, key)
    ensures ok <==> key in m.cmdMap && m.cmdMap[key] in circuits && circuits[m.cmdMap[key]].Known?
  {
    open, ok := false, false;
    if key in m.cmdMap {
      var cmd := m.cmdMap[key];
      if cmd !in circuits || circuits[cmd].Unknown? {
        return false, false;
      }
      open := circuits[cmd].open;
      ok := true;
    }
  }

  // ---- every interleaving of any number of callers ----

  type Thread = nat

  /** Between the two locks of configCmd a caller remembers that the command was missing. */
  datatype State = State(
    maps: Maps,
    waiting: map<Thread, (string, string)>,
    made: multiset<string>,      // history: commands given to hystrix.ConfigureCommand
    dropped: multiset<string>)   // history: commands that cleanup took out of configed

  const START := State(NO_CIRCUITS, map[], multiset{}, multiset{})

  datatype Action =
    | Check(t: Thread, cmd: string, key: string)  // under the read lock
    | Configure(t: Thread)                        // under the write lock
    | Cleanup(key: string)

  function Step(s: State, a: Action): State {
    match a
    case Check(t, cmd, key) =>
      if t in s.waiting || cmd in s.maps.configed then s else s.(waiting := s.waiting[t := (cmd, key)])
    case Configure(t) =>
      if t !in s.waiting then s
      else
        var (cmd, key) := s.waiting[t];
        var s' := s.(maps := Configured(s.maps, cmd, key), waiting := s.waiting - {t});
        if cmd in s.maps.configed then s' else s'.(made := s.made + multiset{cmd})
    case Cleanup(key) =>
      var s' := s.(maps := CleanedUp(s.maps, key));
      if key in s.maps.cmdMap && s.maps.cmdMap[key] in s.maps.configed
      then s'.(dropped := s.dropped + multiset{s.maps.cmdMap[key]}) else s'
  }

  function Run(s: State, actions: seq<Action>): State {
    if actions == [] then s else Step(Run(s, actions[..|actions| - 1]), actions[|actions| - 1])
  }

  // ---- conservation ----

  predicate Conserved(s: State) {
    s.made == s.dropped + multiset(s.maps.configed.Keys)
  }

  lemma ConservedStep(s: State, a: Action)
    requires Conserved(s)
    ensures Conserved(Step(s, a))
  {
    match a
    case Check(_, _, _) =>
    case Configure(t) => ConservedConfigure(s, t);
    case Cleanup(key) => ConservedCleanup(s, key);
  }

  lemma ConservedConfigure(s: State, t: Thread)
    requires Conserved(s)
    ensures Conserved(Step(s, Configure(t)))
  {
    if t in s.waiting && s.waiting[t].0 !in s.maps.configed {
      assert Step(s, Configure(t)).maps.configed.Keys == s.maps.configed.Keys + {s.waiting[t].0};
    }
  }

  lemma ConservedCleanup(s: State, key: string)
    requires Conserved(s)
    ensures Conserved(Step(s, Cleanup(key)))
  {
    if key in s.maps.cmdMap && s.maps.cmdMap[key] in s.maps.configed {
      assert Step(s, Cleanup(key)).maps.configed.Keys == s.maps.configed.Keys - {s.maps.cmdMap[key]};
    }
  }

  /** In every interleaving each command was configured once for every time cleanup removed it, and
      once more if it is there now. */
  lemma {:induction false} Conservation(actions: seq<Action>, cmd: string)
    ensures Conserved(Run(START, actions))
    ensures var s := Run(START, actions);
            s.made[cmd] == s.dropped[cmd] + if cmd in s.maps.configed then 1 else 0
  {
    if actions == [] {
    } else {
      Conservation(actions[..|actions| - 1], cmd);
      ConservedStep(Run(START, actions[..|actions| - 1]), actions[|actions| - 1]);
    }
  }

  // ---- the two maps ----

  /** Every key's command is configured under that key. */
  predicate KeysConfigured(m: Maps) {
    forall k :: k in m.cmdMap ==> m.cmdMap[k] in m.configed && m.configed[m.cmdMap[k]] == k
  }

  /** Every configured command is found by its key. */
  predicate CommandsFound(m: Maps) {
    forall c :: c in m.configed ==> m.configed[c] in m.cmdMap && m.cmdMap[m.configed[c]] == c
  }

  /** In every interleaving the first holds; so cmdMap never sends two keys to one command. */
  lemma {:induction false} AlwaysKeysConfigured(actions: seq<Action>)
    ensures var m := Run(START, actions).maps;
            && KeysConfigured(m)
            && forall k, l :: k in m.cmdMap && l in m.cmdMap && m.cmdMap[k] == m.cmdMap[l] ==> k == l
  {
    if actions == [] {
    } else {
      AlwaysKeysConfigured(actions[..|actions| - 1]);
    }
  }

  /** The calls of configCmd in a run are among these (command, key) pairs. */
  predicate Uses(actions: seq<Action>, pairs: set<(string, string)>) {
    forall a :: a in actions && a.Check? ==> (a.cmd, a.key) in pairs
  }

  predicate SharesNoKey(pairs: set<(string, string)>) {
    forall p, q :: p in pairs && q in pairs && p.1 == q.1 ==> p.0 == q.0
  }

  predicate FromPairs(s: State, pairs: set<(string, string)>) {
    && (forall c :: c in s.maps.configed ==> (c, s.maps.configed[c]) in pairs)
    && (forall t :: t in s.waiting ==> s.waiting[t] in pairs)
  }

  lemma InverseStep(s: State, a: Action, pairs: set<(string, string)>)
    requires SharesNoKey(pairs) && FromPairs(s, pairs)
    requires KeysConfigured(s.maps) && CommandsFound(s.maps)
    requires a.Check? ==> (a.cmd, a.key) in pairs
    ensures FromPairs(Step(s, a), pairs) && CommandsFound(Step(s, a).maps)
  {
    if a.Configure? && a.t in s.waiting && s.waiting[a.t].0 !in s.maps.configed {
      var p := s.waiting[a.t];
      assert p in pairs;
      forall c | c in s.maps.configed ensures s.maps.configed[c] != p.1 {
        assert (c, s.maps.configed[c]) in pairs;
      }
    }
  }

  lemma {:induction false} InverseRun(actions: seq<Action>, pairs: set<(string, string)>)
    requires SharesNoKey(pairs) && Uses(actions, pairs)
    ensures FromPairs(Run(START, actions), pairs) && CommandsFound(Run(START, actions).maps)
  {
    if actions == [] {
    } else {
      var init, a := actions[..|actions| - 1], actions[|actions| - 1];
      assert forall b :: b in init ==> b in actions;
      InverseRun(init, pairs);
      AlwaysKeysConfigured(init);
      assert a in actions;
      InverseStep(Run(START, init), a, pairs);
    }
  }

  function Filing(p: (string, string)): seq<Action> {
    [Check(0, p.0, p.1), Configure(0)]
  }

  lemma FilingRun(s: State, p: (string, string))
    requires 0 !in s.waiting && p.0 !in s.maps.configed
    ensures var s' := Run(s, Filing(p));
            0 !in s'.waiting && s'.maps == Maps(s.maps.configed[p.0 := p.1], s.maps.cmdMap[p.1 := p.0])
  {
    var actions := Filing(p);
    assert actions[..1] == [Check(0, p.0, p.1)];
    var s1 := Step(s, Check(0, p.0, p.1));
    assert Run(s, actions[..1]) == s1;
    assert Run(s, actions) == Step(s1, Configure(0));
  }

  lemma {:induction false} RunConcat(s: State, before: seq<Action>, after: seq<Action>)
    ensures Run(s, before + after) == Run(Run(s, before), after)
    decreases |after|
  {
    if after == [] {
      assert before + after == before;
    } else {
      assert (before + after)[..|before + after| - 1] == before + after[..|after| - 1];
      RunConcat(s, before, after[..|after| - 1]);
    }
  }

  function Collision(p: (string, string), q: (string, string)): seq<Action> {
    Filing(p) + Filing(q)
  }

  /** The second command takes the key over from the first. */
  lemma CollisionRun(p: (string, string), q: (string, string))
    requires p.1 == q.1 && p.0 != q.0
    ensures Run(START, Collision(p, q)).maps == Maps(map[p.0 := p.1, q.0 := q.1], map[q.1 := q.0])
  {
    RunConcat(START, Filing(p), Filing(q));
    FilingRun(START, p);
    FilingRun(Run(START, Filing(p)), q);
  }

  lemma CollisionUses(p: (string, string), q: (string, string), pairs: set<(string, string)>)
    requires p in pairs && q in pairs
    ensures Uses(Filing(p), pairs) && Uses(Collision(p, q), pairs)
  {
    assert (p.0, p.1) == p && (q.0, q.1) == q;
  }

  /** The maps are inverse to each other in every interleaving exactly when no two of the commands
      in use have the same key. */
  lemma InverseIff(pairs: set<(string, string)>)
    ensures SharesNoKey(pairs) <==>
            forall actions :: Uses(actions, pairs) ==>
              KeysConfigured(Run(START, actions).maps) && CommandsFound(Run(START, actions).maps)
  {
    if SharesNoKey(pairs) {
      forall actions | Uses(actions, pairs)
        ensures KeysConfigured(Run(START, actions).maps) && CommandsFound(Run(START, actions).maps)
      {
        InverseRun(actions, pairs);
        AlwaysKeysConfigured(actions);
      }
    } else {
      var p, q :| p in pairs && q in pairs && p.1 == q.1 && p.0 != q.0;
      CollisionUses(p, q, pairs);
      CollisionRun(p, q);
      var m := Run(START, Collision(p, q)).maps;
      assert p.0 in m.configed && m.cmdMap[p.1] == q.0;
    }
  }

  // ---- what a collision leaves behind ----

  /** Configured, but under no key: the circuit is invisible to lookups and to cleanup. */
  predicate Orphan(m: Maps, cmd: string) {
    cmd in m.configed && cmd !in m.cmdMap.Values
  }

  lemma OrphanStep(s: State, a: Action, cmd: string)
    requires KeysConfigured(s.maps) && Orphan(s.maps, cmd)
    ensures KeysConfigured(Step(s, a).maps) && Orphan(Step(s, a).maps, cmd)
    ensures Step(s, a).made[cmd] == s.made[cmd] && Step(s, a).dropped[cmd] == s.dropped[cmd]
  {
    var m := s.maps;
    if a.Cleanup? && a.key in m.cmdMap {
      assert m.cmdMap[a.key] in m.cmdMap.Values;
    }
    assert forall c :: c in Step(s, a).maps.cmdMap.Values ==>
        c in m.cmdMap.Values || c !in m.configed;
  }

  /** An orphan stays one for ever: nothing that happens later removes it, makes it visible or
      configures it again. */
  lemma {:induction false} OrphansStay(before: seq<Action>, after: seq<Action>, cmd: string)
    requires Orphan(Run(START, before).maps, cmd)
    ensures var s, s' := Run(START, before), Run(Run(START, before), after);
            && KeysConfigured(s'.maps) && Orphan(s'.maps, cmd)
            && s'.made[cmd] == s.made[cmd] && s'.dropped[cmd] == s.dropped[cmd]
  {
    AlwaysKeysConfigured(before);
    if after == [] {
    } else {
      OrphansStay(before, after[..|after| - 1], cmd);
      OrphanStep(Run(Run(START, before), after[..|after| - 1]), after[|after| - 1], cmd);
    }
  }

  /** Configuring a second command under a key in use orphans the first. */
  lemma OverwriteOrphans(actions: seq<Action>, cmd: string, key: string)
    requires var m := Run(START, actions).maps; key in m.cmdMap && cmd !in m.configed
    ensures var m := Run(START, actions).maps; Orphan(Configured(m, cmd, key), m.cmdMap[key])
  {
    AlwaysKeysConfigured(actions);
    var m := Run(START, actions).maps;
    assert forall c :: c in Configured(m, cmd, key).cmdMap.Values ==>
        c == cmd || exists k :: k in m.cmdMap && k != key && m.cmdMap[k] == c;
  }

  // ---- what stands between the two locks ----

  predicate ChecksNot(actions: seq<Action>, cmd: string) {
    forall a :: a in actions && a.Check? ==> a.cmd != cmd
  }

  predicate NobodyWaits(s: State, cmd: string) {
    forall t :: t in s.waiting ==> s.waiting[t].0 != cmd
  }

  lemma StaysOutStep(s: State, a: Action, cmd: string)
    requires cmd !in s.maps.configed && NobodyWaits(s, cmd) && (a.Check? ==> a.cmd != cmd)
    ensures cmd !in Step(s, a).maps.configed && NobodyWaits(Step(s, a), cmd)
  {
  }

  lemma {:induction false} StaysOut(s: State, after: seq<Action>, cmd: string)
    requires cmd !in s.maps.configed && NobodyWaits(s, cmd) && ChecksNot(after, cmd)
    ensures cmd !in Run(s, after).maps.configed && NobodyWaits(Run(s, after), cmd)
  {
    if after == [] {
    } else {
      var init, a := after[..|after| - 1], after[|after| - 1];
      assert forall b :: b in init ==> b in after;
      StaysOut(s, init, cmd);
      assert a in after;
      StaysOutStep(Run(s, init), a, cmd);
    }
  }

  /** A command that is not configured stays so until it is called again exactly when no caller
      stands between the two locks of configCmd with it. */
  lemma StaysOutIff(s: State, cmd: string)
    requires cmd !in s.maps.configed
    ensures NobodyWaits(s, cmd) <==>
            forall after :: ChecksNot(after, cmd) ==> cmd !in Run(s, after).maps.configed
  {
    if NobodyWaits(s, cmd) {
      forall after | ChecksNot(after, cmd) ensures cmd !in Run(s, after).maps.configed {
        StaysOut(s, after, cmd);
      }
    } else {
      var t :| t in s.waiting && s.waiting[t].0 == cmd;
      assert ChecksNot([Configure(t)], cmd);
      assert Run(s, [Configure(t)]) == Step(s, Configure(t));
      assert cmd in Run(s, [Configure(t)]).maps.configed;
    }
  }

  // ---- the registry and the names of the clients ----

  /** One endpoint of one client. */
  datatype Endpoint = Endpoint(source: string, host: string, uri: string, verb: string, addr: string) {
    function Name(): string { CommandName(source, host, uri, verb) }
    function Cmd(): string { Command(Name(), addr) }
    function FiledUnder(): string {
      BreakerKeyOf(source, host, uri, verb, addr);
      BreakerKey(Name(), addr)
    }
    function ClosedUnder(): string { EndpointKey(addr, uri, verb) }
    predicate Plain() { DashFree(uri) && DashFree(verb) }
  }

  /** Over a set of methods, a command determines its key exactly when no method extends another
      at a dash. */
  lemma CommandDeterminesKeyIff(verbs: set<string>)
    ensures (forall v, w :: v in verbs && w in verbs ==> !Extends(v, w)) <==>
            forall e: Endpoint, f: Endpoint ::
              e.verb in verbs && f.verb in verbs && e.Cmd() == f.Cmd() ==> e.FiledUnder() == f.FiledUnder()
  {
    if forall v, w :: v in verbs && w in verbs ==> !Extends(v, w) {
      forall e: Endpoint, f: Endpoint | e.verb in verbs && f.verb in verbs && e.Cmd() == f.Cmd()
        ensures e.FiledUnder() == f.FiledUnder()
      {
        CommandInjective(e.source, e.host, e.uri, e.verb, e.addr, f.source, f.host, f.uri, f.verb, f.addr);
        BreakerKeyOf(e.source, e.host, e.uri, e.verb, e.addr);
        BreakerKeyOf(f.source, f.host, f.uri, f.verb, f.addr);
      }
    } else {
      var v, w :| v in verbs && w in verbs && Extends(v, w);
      ExtendingMethodsCollide("", "", "", v, w);
      var e := Endpoint("", "", "", v, Dashed(w[|v| + 1..], ""));
      var f := Endpoint("", "", "", w, "");
      assert e.verb in verbs && f.verb in verbs && e.Cmd() == f.Cmd() && e.FiledUnder() != f.FiledUnder();
    }
  }

  /** Two endpoints are filed under one key by different commands exactly when their addresses are
      equal, their uris the same but for dashes and underscores, and their methods the same up to
      the first dash, while the methods differ after it or the sources or hosts in more than dashes
      and underscores. */
  lemma CollisionIff(e: Endpoint, f: Endpoint)
    ensures e.FiledUnder() == f.FiledUnder() && e.Cmd() != f.Cmd() <==>
            && e.addr == f.addr && DashAlike(e.uri, f.uri) && Fields(e.verb)[0] == Fields(f.verb)[0]
            && !(DashAlike(e.source, f.source) && DashAlike(e.host, f.host) && e.verb == f.verb)
  {
    NormalIff(e.uri, f.uri);
    NormalIff(e.source, f.source);
    NormalIff(e.host, f.host);
    BreakerKeyOf(e.source, e.host, e.uri, e.verb, e.addr);
    BreakerKeyOf(f.source, f.host, f.uri, f.verb, f.addr);
    FirstFieldDashFree(e.verb);
    FirstFieldDashFree(f.verb);
    NormalDashFree(e.uri);
    NormalDashFree(f.uri);
    if e.FiledUnder() == f.FiledUnder() {
      KeyInjective(e.addr, Normal(e.uri), Fields(e.verb)[0], f.addr, Normal(f.uri), Fields(f.verb)[0]);
    }
    if e.addr == f.addr && e.Cmd() == f.Cmd() {
      SameAddressCommand(e, f);
    }
  }

  lemma SameAddressCommand(e: Endpoint, f: Endpoint)
    requires e.addr == f.addr && e.Cmd() == f.Cmd()
    ensures Normal(e.source) == Normal(f.source) && Normal(e.host) == Normal(f.host) && e.verb == f.verb
  {
    CommandFields(e.source, e.host, e.uri, e.verb, e.addr);
    CommandFields(f.source, f.host, f.uri, f.verb, f.addr);
    var p, q := [Normal(e.source), Normal(e.host), Normal(e.uri)], [Normal(f.source), Normal(f.host), Normal(f.uri)];
    SameConcatenation(p, Fields(e.verb) + Fields(e.addr), q, Fields(f.verb) + Fields(f.addr));
    assert p[0] == q[0] && p[1] == q[1];
    assert |Fields(e.verb)| == |Fields(f.verb)|;
    SameConcatenation(Fields(e.verb), Fields(e.addr), Fields(f.verb), Fields(f.addr));
    FieldsInjective(e.verb, f.verb);
  }

  lemma NormalDashFree(s: string)
    ensures DashFree(Normal(s))
  {
    FieldsNormal(s);
    FieldsSingle(Normal(s));
  }

  // ---- closing and reporting, over every run ----

  /** The (command, key) pairs with which these endpoints' breakers call configCmd. */
  function Pairs(es: set<Endpoint>): set<(string, string)> {
    set e | e in es :: (e.Cmd(), e.FiledUnder())
  }

  lemma InPairs(es: set<Endpoint>, e: Endpoint)
    requires e in es
    ensures (e.Cmd(), e.FiledUnder()) in Pairs(es)
  {
  }

  /** No endpoint has a dash in its uri or method, and no two of them share a key. */
  predicate WellNamed(es: set<Endpoint>) {
    (forall e :: e in es ==> e.Plain()) && SharesNoKey(Pairs(es))
  }

  /** Closing the endpoint takes it out of the registry, if it is there. */
  predicate ClosesOut(m: Maps, e: Endpoint) {
    e.Cmd() in m.configed ==> e.Cmd() !in CleanedUp(m, e.ClosedUnder()).configed
  }

  /** The endpoint, if it is there, is reported open exactly if its circuit is open. */
  predicate ReportsTruly(m: Maps, circuits: map<string, Circuit>, e: Endpoint) {
    e.Cmd() in m.configed ==>
      (ReportedOpen(m, circuits, e.ClosedUnder()) <==> e.Cmd() in circuits && circuits[e.Cmd()] == Known(true))
  }

  /** Well named endpoints are found by the key that they are closed under, in every run. */
  lemma FoundByItsKey(actions: seq<Action>, es: set<Endpoint>, e: Endpoint)
    requires WellNamed(es) && Uses(actions, Pairs(es))
    requires e in es && e.Cmd() in Run(START, actions).maps.configed
    ensures var m := Run(START, actions).maps;
            e.ClosedUnder() in m.cmdMap && m.cmdMap[e.ClosedUnder()] == e.Cmd()
  {
    var m := Run(START, actions).maps;
    InverseRun(actions, Pairs(es));
    assert (e.Cmd(), m.configed[e.Cmd()]) in Pairs(es);
    var f :| f in es && (e.Cmd(), m.configed[e.Cmd()]) == (f.Cmd(), f.FiledUnder());
    if Extends(e.verb, f.verb) { ExtensionHasDash(e.verb, f.verb); }
    if Extends(f.verb, e.verb) { ExtensionHasDash(f.verb, e.verb); }
    CommandInjective(e.source, e.host, e.uri, e.verb, e.addr, f.source, f.host, f.uri, f.verb, f.addr);
    BreakerKeyOf(e.source, e.host, e.uri, e.verb, e.addr);
    BreakerKeyOf(f.source, f.host, f.uri, f.verb, f.addr);
    KeysAgreeIff(e.source, e.host, e.uri, e.verb, e.addr);
  }

  /** What goes wrong with any other set of endpoints: one of them is filed where it is not looked
      for, or loses its key to another. */
  lemma BadlyNamed(es: set<Endpoint>) returns (actions: seq<Action>, e: Endpoint)
    requires !WellNamed(es)
    ensures Uses(actions, Pairs(es)) && e in es && e.Cmd() in Run(START, actions).maps.configed
    ensures var m := Run(START, actions).maps;
            e.ClosedUnder() in m.cmdMap ==> m.cmdMap[e.ClosedUnder()] != e.Cmd()
  {
    if d :| d in es && !d.Plain() {
      e := d;
      var p := (e.Cmd(), e.FiledUnder());
      InPairs(es, e);
      actions := Filing(p);
      CollisionUses(p, p, Pairs(es));
      FilingRun(START, p);
      KeysAgreeIff(e.source, e.host, e.uri, e.verb, e.addr);
    } else {
      var p, q :| p in Pairs(es) && q in Pairs(es) && p.1 == q.1 && p.0 != q.0;
      e :| e in es && (e.Cmd(), e.FiledUnder()) == p;
      actions := Collision(p, q);
      CollisionUses(p, q, Pairs(es));
      CollisionRun(p, q);
    }
  }

  /** In every run a closed endpoint leaves the registry exactly when the endpoints in use are well
      named. */
  lemma CloseCleansUpIff(es: set<Endpoint>)
    ensures WellNamed(es) <==>
            forall actions, e :: Uses(actions, Pairs(es)) && e in es ==> ClosesOut(Run(START, actions).maps, e)
  {
    if WellNamed(es) {
      forall actions, e | Uses(actions, Pairs(es)) && e in es
        ensures ClosesOut(Run(START, actions).maps, e)
      {
        if e.Cmd() in Run(START, actions).maps.configed {
          FoundByItsKey(actions, es, e);
        }
      }
    } else {
      var actions, e := BadlyNamed(es);
      assert !ClosesOut(Run(START, actions).maps, e);
    }
  }

  /** In every run, whatever circuits are open, the reports are true exactly under the same
      condition. */
  lemma ReportIsTrueIff(es: set<Endpoint>)
    ensures WellNamed(es) <==>
            forall actions, circuits, e :: Uses(actions, Pairs(es)) && e in es ==>
              ReportsTruly(Run(START, actions).maps, circuits, e)
  {
    if WellNamed(es) {
      forall actions, circuits, e | Uses(actions, Pairs(es)) && e in es
        ensures ReportsTruly(Run(START, actions).maps, circuits, e)
      {
        if e.Cmd() in Run(START, actions).maps.configed {
          FoundByItsKey(actions, es, e);
        }
      }
    } else {
      var actions, e := BadlyNamed(es);
      var circuits := map[e.Cmd() := Known(true)];
      assert !ReportsTruly(Run(START, actions).maps, circuits, e);
    }
  }

  /** Two callers find the command missing, one configures it, it is cleaned up, and then the
      other configures it. */
  function Race(cmd: string, key: string): seq<Action> {
    [Check(0, cmd, key)] + [Check(1, cmd, key)] + [Configure(0)] + [Cleanup(key)] + [Configure(1)]
  }

  lemma RunSnoc(s: State, actions: seq<Action>, a: Action)
    ensures Run(s, actions + [a]) == Step(Run(s, actions), a)
  {
    assert (actions + [a])[..|actions|] == actions;
  }

  lemma RaceRun(cmd: string, key: string)
    ensures Run(START, Race(cmd, key)).maps == Maps(map[cmd := key], map[key := cmd])
  {
    var first := [Check(0, cmd, key)];
    RunSnoc(START, [], Check(0, cmd, key));
    assert [] + first == first;
    RunSnoc(START, first, Check(1, cmd, key));
    RunSnoc(START, first + [Check(1, cmd, key)], Configure(0));
    var s := Run(START, first + [Check(1, cmd, key)] + [Configure(0)]);
    assert s.maps == Maps(map[cmd := key], map[key := cmd]) && s.waiting == map[1 := (cmd, key)];
    RunSnoc(START, first + [Check(1, cmd, key)] + [Configure(0)], Cleanup(key));
    assert Step(s, Cleanup(key)).maps == NO_CIRCUITS;
    RunSnoc(START, first + [Check(1, cmd, key)] + [Configure(0)] + [Cleanup(key)], Configure(1));
  }

  /** So a caller between the two locks undoes a close: this run files every dash-free endpoint
      again after its cleanup. */
  lemma RefiledAfterClose(e: Endpoint)
    requires e.Plain()
    ensures Run(START, Race(e.Cmd(), e.ClosedUnder())).maps ==
            Maps(map[e.Cmd() := e.FiledUnder()], map[e.ClosedUnder() := e.Cmd()])
  {
    KeysAgreeIff(e.source, e.host, e.uri, e.verb, e.addr);
    RaceRun(e.Cmd(), e.ClosedUnder());
  }

  // ---- endpoints that no lookup finds ----

  predicate KeysIn(s: State, keys: set<string>) {
    s.maps.cmdMap.Keys <= keys && forall t :: t in s.waiting ==> s.waiting[t].1 in keys
  }

  lemma KeysInStep(s: State, a: Action, keys: set<string>)
    requires KeysIn(s, keys) && (a.Check? ==> a.key in keys)
    ensures KeysIn(Step(s, a), keys)
  {
  }

  function FiledKeys(es: set<Endpoint>): set<string> {
    set e | e in es :: e.FiledUnder()
  }

  lemma {:induction false} OnlyFiledKeys(actions: seq<Action>, es: set<Endpoint>)
    requires Uses(actions, Pairs(es))
    ensures KeysIn(Run(START, actions), FiledKeys(es))
  {
    if actions == [] {
    } else {
      var init, a := actions[..|actions| - 1], actions[|actions| - 1];
      assert forall b :: b in init ==> b in actions;
      OnlyFiledKeys(init, es);
      assert a in actions;
      if a.Check? {
        assert (a.cmd, a.key) in Pairs(es);
        assert a.key in FiledKeys(es);
      }
      KeysInStep(Run(START, init), a, FiledKeys(es));
    }
  }

  /** Neither reported open nor touched by its own close. */
  predicate Invisible(m: Maps, circuits: map<string, Circuit>, e: Endpoint) {
    !ReportedOpen(m, circuits, e.ClosedUnder()) && CleanedUp(m, e.ClosedUnder()) == m
  }

  /** An endpoint is invisible in every run of some endpoints, whatever circuits are open, exactly
      when its key is none that they file under. */
  lemma InvisibleIff(es: set<Endpoint>, e: Endpoint)
    ensures e.ClosedUnder() !in FiledKeys(es) <==>
            forall actions, circuits :: Uses(actions, Pairs(es)) ==> Invisible(Run(START, actions).maps, circuits, e)
  {
    if e.ClosedUnder() !in FiledKeys(es) {
      forall actions, circuits | Uses(actions, Pairs(es)) ensures Invisible(Run(START, actions).maps, circuits, e) {
        OnlyFiledKeys(actions, es);
      }
    } else {
      var f :| f in es && f.FiledUnder() == e.ClosedUnder();
      var p := (f.Cmd(), f.FiledUnder());
      InPairs(es, f);
      CollisionUses(p, p, Pairs(es));
      FilingRun(START, p);
      assert !Invisible(Run(START, Filing(p)).maps, map[f.Cmd() := Known(true)], e);
    }
  }

  /** That it is none of theirs is a matter of segments. */
  lemma FiledKeyIff(es: set<Endpoint>, e: Endpoint)
    ensures e.ClosedUnder() in FiledKeys(es) <==>
            exists f :: f in es &&
              Fields(e.addr) + Fields(e.uri) + Fields(e.verb) ==
              Fields(f.addr) + [Normal(f.uri), Fields(f.verb)[0]]
  {
    forall f | f in es
      ensures e.ClosedUnder() == f.FiledUnder() <==>
              Fields(e.addr) + Fields(e.uri) + Fields(e.verb) == Fields(f.addr) + [Normal(f.uri), Fields(f.verb)[0]]
    {
      LookupHitsIff(e.addr, e.uri, e.verb, f.source, f.host, f.uri, f.verb, f.addr);
    }
  }
}
