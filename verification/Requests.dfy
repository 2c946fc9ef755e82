/** One endpoint client at work: requests, discovery and circuit breakers interleaved, with the two
    locks of a close and one registry lock for every lookup (client/http/endpoint.go). */
module Requests {
  import opened Wrappers
  import opened Ordering
  import opened CommandNames
  import opened LoadBalancer
  import opened Endpoints
  import CB = CircuitBreak

  type Thread = nat

  /** What happened to the endpoint map. */
  datatype Change = Created(addr: string, ep: Call) | Deleted(addr: string)

  /** A resolveHost in progress, holding the client's read lock. */
  datatype Request = Request(
    uri: string,
    verb: string,
    order: seq<string>,          // the order of the range over the endpoint map
    next: nat,                   // how far it is
    endpoints: map<string, Call>,
    seen: map<string, Sight>,    // history: what each lookup found
    draws: map<string, nat>)     // history: what each drew from ten

  datatype Outcome = Outcome(
    request: Request,
    tagMap: TagMap,
    kept: seq<string>,
    draw: nat,
    at: nat,                     // how many changes had happened
    result: Selection<Call>)

  datatype State = State(
    registry: CB.State,
    endpointMap: map<string, Call>,
    closers: set<Closer>,          // handed out by the factory
    closing: map<Thread, Closer>,  // between the two halves of Close
    requests: map<Thread, Request>,
    log: seq<Change>,              // history of the endpoint map
    outcomes: seq<Outcome>)        // history of finished requests

  const INITIAL := State(CB.START, map[], {}, map[], map[], [], [])

  datatype Action =
    | Circuit(step: CB.Action)                 // any configCmd, and closes of other clients
    | Create(addr: string, ep: Call)           // the factory
    | CloseCircuit(t: Thread, closer: Closer)  // Close, first half: CleanupEndpoint
    | CloseEndpoint(t: Thread)                 // Close, second half: onClose
    | Begin(t: Thread, uri: string, verb: string, order: seq<string>)
    | Lookup(t: Thread, circuits: map<string, CB.Circuit>, draw: nat)
    | Finish(t: Thread, tagMap: TagMap, kept: seq<string>, draw: nat)

  /** The client's write lock waits for the requests; their order of iteration is any. */
  predicate Enabled(s: State, a: Action) {
    match a
    case Circuit(_) => true
    case Create(_, _) => s.requests == map[]
    case CloseCircuit(t, closer) => t !in s.closing && closer in s.closers
    case CloseEndpoint(t) => t in s.closing && s.requests == map[]
    case Begin(t, _, _, order) => t !in s.requests && Visits(order, s.endpointMap.Keys)
    case Lookup(t, _, draw) =>
      && t in s.requests && s.requests[t].next < |s.requests[t].order| && draw < 10
      && s.requests[t].order[s.requests[t].next] in s.endpointMap
    case Finish(t, tagMap, kept, draw) =>
      && t in s.requests && s.requests[t].next == |s.requests[t].order|
      && Visits(kept, s.requests[t].endpoints.Keys)
      && (0 < Total(kept, tagMap) ==> draw < Total(kept, tagMap))
  }

  /** One turn of resolveHost's loop. */
  function LookedUp(m: map<string, Call>, reg: CB.Maps, r: Request, circuits: map<string, CB.Circuit>,
                    draw: nat): Request
    requires r.next < |r.order| && r.order[r.next] in m
  {
    var addr := r.order[r.next];
    var open := CB.ReportedOpen(reg, circuits, EndpointKey(addr, r.uri, r.verb));
    r.(next := r.next + 1,
       endpoints := if open && draw != LUCKY then r.endpoints else r.endpoints[addr := m[addr]],
       seen := r.seen[addr := Sight(reg, circuits)],
       draws := r.draws[addr := draw])
  }

  /** One step; `uri` and `verb` are the client's own, by which its closers name their keys. */
  function Step(uri: string, verb: string, s: State, a: Action): State {
    if !Enabled(s, a) then s
    else match a
      case Circuit(step) => s.(registry := CB.Step(s.registry, step))
      case Create(addr, ep) =>
        s.(endpointMap := s.endpointMap[addr := ep], log := s.log + [Created(addr, ep)],
           closers := s.closers + {Closer(addr, EndpointKey(addr, uri, verb))})
      case CloseCircuit(t, closer) =>
        s.(registry := CB.Step(s.registry, CB.Cleanup(closer.action)), closing := s.closing[t := closer])
      case CloseEndpoint(t) =>
        var addr := s.closing[t].addr;
        s.(endpointMap := s.endpointMap - {addr}, closing := s.closing - {t}, log := s.log + [Deleted(addr)])
      case Begin(t, u, v, order) =>
        s.(requests := s.requests[t := Request(u, v, order, 0, map[], map[], map[])])
      case Lookup(t, circuits, draw) =>
        s.(requests := s.requests[t := LookedUp(s.endpointMap, s.registry.maps, s.requests[t], circuits, draw)])
      case Finish(t, tagMap, kept, draw) =>
        var r := s.requests[t];
        s.(requests := s.requests - {t},
           outcomes := s.outcomes +
             [Outcome(r, tagMap, kept, draw, |s.log|, Choose(r.endpoints, tagMap, kept, draw))])
  }

  function Run(uri: string, verb: string, actions: seq<Action>): State {
    if actions == [] then INITIAL
    else Step(uri, verb, Run(uri, verb, actions[..|actions| - 1]), actions[|actions| - 1])
  }

  // ---- the endpoint map over time ----

  function MapAfter(log: seq<Change>): map<string, Call> {
    if log == [] then map[]
    else match log[|log| - 1]
      case Created(addr, ep) => MapAfter(log[..|log| - 1])[addr := ep]
      case Deleted(addr) => MapAfter(log[..|log| - 1]) - {addr}
  }

  /** The j-th change created this endpoint at the address, and none since concerned the address. */
  predicate CreatedAt(log: seq<Change>, addr: string, ep: Call, j: nat) {
    j < |log| && log[j] == Created(addr, ep) && forall k :: j < k < |log| ==> log[k].addr != addr
  }

  lemma {:induction false} LiveIffCreated(log: seq<Change>, addr: string, ep: Call)
    ensures addr in MapAfter(log) && MapAfter(log)[addr] == ep <==> exists j: nat :: CreatedAt(log, addr, ep, j)
  {
    if log == [] {
    } else {
      var n := |log| - 1;
      var init := log[..n];
      LiveIffCreated(init, addr, ep);
      if log[n].addr == addr {
        assert log[n] == Created(addr, ep) ==> CreatedAt(log, addr, ep, n);
      } else {
        forall j: nat | j < n ensures CreatedAt(log, addr, ep, j) <==> CreatedAt(init, addr, ep, j) {
          assert forall k :: 0 <= k < n ==> init[k] == log[k];
        }
        assert forall j: nat :: CreatedAt(log, addr, ep, j) ==> j < n;
      }
    }
  }

  // ---- what holds in every run ----

  /** What the filter has let through of the endpoints looked up so far. */
  function LetThrough(m: map<string, Call>, reported: set<string>, draws: map<string, nat>): map<string, Call>
    requires draws.Keys <= m.Keys
  {
    map addr | addr in draws && (addr !in reported || draws[addr] == LUCKY) :: m[addr]
  }

  predicate RequestOk(m: map<string, Call>, r: Request) {
    && Visits(r.order, m.Keys) && r.next <= |r.order|
    && r.seen.Keys == Elements(r.order[..r.next]) && r.draws.Keys == r.seen.Keys && r.seen.Keys <= m.Keys
    && r.endpoints == LetThrough(m, ReportedAddrs(r.seen, r.uri, r.verb), r.draws)
  }

  /** The outcome is that of the filter and the balancer on the map as it was, with what each
      lookup found in the registry at its own time. */
  predicate OutcomeOk(log: seq<Change>, o: Outcome) {
    o.at <= |log| &&
    var m := MapAfter(log[..o.at]);
    var candidates := Candidates(m, ReportedAddrs(o.request.seen, o.request.uri, o.request.verb), o.request.draws);
    && o.request.seen.Keys == m.Keys
    && Visits(o.kept, candidates.Keys)
    && o.result == Choose(candidates, o.tagMap, o.kept, o.draw)
  }

  predicate StateOk(s: State) {
    && s.endpointMap == MapAfter(s.log)
    && (forall t :: t in s.requests ==> RequestOk(s.endpointMap, s.requests[t]))
    && (forall i :: 0 <= i < |s.outcomes| ==> OutcomeOk(s.log, s.outcomes[i]))
  }

  lemma NextIsNew(m: map<string, Call>, r: Request)
    requires RequestOk(m, r) && r.next < |r.order|
    ensures r.order[r.next] in m && r.order[r.next] !in r.seen
    ensures Elements(r.order[..r.next + 1]) == r.seen.Keys + {r.order[r.next]}
  {
    assert r.order[r.next] in Elements(r.order);
    ElementsPrefix(r.order, r.next);
  }

  lemma ReportedGrows(seen: map<string, Sight>, uri: string, verb: string, addr: string, sight: Sight)
    requires addr !in seen
    ensures ReportedAddrs(seen[addr := sight], uri, verb) ==
            ReportedAddrs(seen, uri, verb) +
            if CB.ReportedOpen(sight.maps, sight.circuits, EndpointKey(addr, uri, verb)) then {addr} else {}
  {
  }

  lemma LetThroughGrows(m: map<string, Call>, reported: set<string>, draws: map<string, nat>, addr: string,
                        open: bool, draw: nat)
    requires draws.Keys <= m.Keys && reported <= draws.Keys && addr in m && addr !in draws
    ensures LetThrough(m, reported + if open then {addr} else {}, draws[addr := draw]) ==
            if open && draw != LUCKY then LetThrough(m, reported, draws)
            else LetThrough(m, reported, draws)[addr := m[addr]]
  {
  }

  lemma FilteredStep(m: map<string, Call>, reg: CB.Maps, r: Request, circuits: map<string, CB.Circuit>, draw: nat)
    requires r.seen.Keys <= m.Keys && r.draws.Keys == r.seen.Keys
    requires r.endpoints == LetThrough(m, ReportedAddrs(r.seen, r.uri, r.verb), r.draws)
    requires r.next < |r.order| && r.order[r.next] in m && r.order[r.next] !in r.seen
    ensures var r' := LookedUp(m, reg, r, circuits, draw);
            && r'.order == r.order && r'.next == r.next + 1
            && r'.seen.Keys == r'.draws.Keys == r.seen.Keys + {r.order[r.next]}
            && r'.endpoints == LetThrough(m, ReportedAddrs(r'.seen, r'.uri, r'.verb), r'.draws)
  {
    var addr := r.order[r.next];
    var open := CB.ReportedOpen(reg, circuits, EndpointKey(addr, r.uri, r.verb));
    ReportedGrows(r.seen, r.uri, r.verb, addr, Sight(reg, circuits));
    LetThroughGrows(m, ReportedAddrs(r.seen, r.uri, r.verb), r.draws, addr, open, draw);
  }

  lemma NextOk(m: map<string, Call>, r: Request, r': Request)
    requires RequestOk(m, r) && r.next < |r.order|
    requires r'.order == r.order && r'.next == r.next + 1
    requires r'.seen.Keys == r'.draws.Keys == r.seen.Keys + {r.order[r.next]} && r'.draws.Keys <= m.Keys
    requires r'.endpoints == LetThrough(m, ReportedAddrs(r'.seen, r'.uri, r'.verb), r'.draws)
    ensures RequestOk(m, r')
  {
    NextIsNew(m, r);
  }

  lemma LookupOk(m: map<string, Call>, reg: CB.Maps, r: Request, circuits: map<string, CB.Circuit>, draw: nat)
    requires RequestOk(m, r) && r.next < |r.order|
    ensures r.order[r.next] in m
    ensures RequestOk(m, LookedUp(m, reg, r, circuits, draw))
  {
    NextIsNew(m, r);
    FilteredStep(m, reg, r, circuits, draw);
    NextOk(m, r, LookedUp(m, reg, r, circuits, draw));
  }

  lemma FinishedOk(s: State, r: Request)
    requires RequestOk(s.endpointMap, r) && r.next == |r.order|
    ensures r.seen.Keys == s.endpointMap.Keys
    ensures r.endpoints == Candidates(s.endpointMap, ReportedAddrs(r.seen, r.uri, r.verb), r.draws)
  {
    assert r.order[..|r.order|] == r.order;
  }

  lemma LogGrows(s: State, c: Change)
    requires forall i :: 0 <= i < |s.outcomes| ==> OutcomeOk(s.log, s.outcomes[i])
    ensures forall i :: 0 <= i < |s.outcomes| ==> OutcomeOk(s.log + [c], s.outcomes[i])
    ensures (s.log + [c])[..|s.log|] == s.log
  {
    forall i | 0 <= i < |s.outcomes| ensures OutcomeOk(s.log + [c], s.outcomes[i]) {
      var at := s.outcomes[i].at;
      assert (s.log + [c])[..at] == s.log[..at];
    }
  }

  lemma FinishOk(uri: string, verb: string, s: State, a: Action)
    requires StateOk(s) && a.Finish? && Enabled(s, a)
    ensures StateOk(Step(uri, verb, s, a))
  {
    FinishedOk(s, s.requests[a.t]);
    assert s.log[..|s.log|] == s.log;
  }

  lemma StepOk(uri: string, verb: string, s: State, a: Action)
    requires StateOk(s)
    ensures StateOk(Step(uri, verb, s, a))
  {
    if Enabled(s, a) {
      match a
      case Circuit(_) =>
      case Create(addr, ep) => LogGrows(s, Created(addr, ep));
      case CloseCircuit(_, _) =>
      case CloseEndpoint(t) => LogGrows(s, Deleted(s.closing[t].addr));
      case Begin(t, u, v, order) =>
      case Lookup(t, circuits, draw) => LookupOk(s.endpointMap, s.registry.maps, s.requests[t], circuits, draw);
      case Finish(_, _, _, _) => FinishOk(uri, verb, s, a);
    }
  }

  lemma {:induction false} RunOk(uri: string, verb: string, actions: seq<Action>)
    ensures StateOk(Run(uri, verb, actions))
  {
    if actions == [] {
    } else {
      RunOk(uri, verb, actions[..|actions| - 1]);
      StepOk(uri, verb, Run(uri, verb, actions[..|actions| - 1]), actions[|actions| - 1]);
    }
  }

  // ---- what a request returns ----

  /** In every run, a returned address was created by the factory with the endpoint returned, and
      no later change concerned it: no request gets an endpoint that was deleted or replaced. */
  lemma ResolvedIsCurrent(uri: string, verb: string, actions: seq<Action>, i: nat)
    requires var s := Run(uri, verb, actions); i < |s.outcomes| && s.outcomes[i].result.Picked?
    ensures var s := Run(uri, verb, actions);
            var o := s.outcomes[i];
            o.at <= |s.log| && exists j: nat :: CreatedAt(s.log[..o.at], o.result.addr, o.result.ep, j)
  {
    RunOk(uri, verb, actions);
    var s := Run(uri, verb, actions);
    var o := s.outcomes[i];
    assert OutcomeOk(s.log, o);
    var m := MapAfter(s.log[..o.at]);
    ResolvedIsAllowed(m, ReportedAddrs(o.request.seen, o.request.uri, o.request.verb), o.request.draws,
                      o.tagMap, o.kept, o.draw);
    LiveIffCreated(s.log[..o.at], o.result.addr, o.result.ep);
  }

  /** And it was not reported open when it was looked up, or drew the pass; there is an error
      exactly when every endpoint was reported open at its own lookup and none drew the pass. */
  lemma ResolvedPassedFilter(uri: string, verb: string, actions: seq<Action>, i: nat)
    requires i < |Run(uri, verb, actions).outcomes|
    ensures var s := Run(uri, verb, actions);
            var o := s.outcomes[i];
            var reported := ReportedAddrs(o.request.seen, o.request.uri, o.request.verb);
            && o.at <= |s.log|
            && o.request.seen.Keys == MapAfter(s.log[..o.at]).Keys
            && (o.result.Picked? ==>
                 o.result.addr !in reported ||
                 (o.result.addr in o.request.draws && o.request.draws[o.result.addr] == 1))
            && (o.result == NoEndpoints <==>
                 forall addr :: addr in MapAfter(s.log[..o.at]) ==>
                   addr in reported && !(addr in o.request.draws && o.request.draws[addr] == 1))
  {
    RunOk(uri, verb, actions);
    var s := Run(uri, verb, actions);
    var o := s.outcomes[i];
    assert OutcomeOk(s.log, o);
    ResolvedIsAllowed(MapAfter(s.log[..o.at]), ReportedAddrs(o.request.seen, o.request.uri, o.request.verb),
                      o.request.draws, o.tagMap, o.kept, o.draw);
  }

  /** A request never meets an address that has gone: its loop can always go on. */
  lemma LookupNeverStuck(uri: string, verb: string, actions: seq<Action>, t: Thread,
                         circuits: map<string, CB.Circuit>, draw: nat)
    requires var s := Run(uri, verb, actions);
             t in s.requests && s.requests[t].next < |s.requests[t].order| && draw < 10
    ensures Enabled(Run(uri, verb, actions), Lookup(t, circuits, draw))
  {
    RunOk(uri, verb, actions);
    var s := Run(uri, verb, actions);
    NextIsNew(s.endpointMap, s.requests[t]);
  }

  // ---- closers ----

  function CreatedAddrs(log: seq<Change>): set<string> {
    set c | c in log && c.Created? :: c.addr
  }

  lemma CreatedGrows(log: seq<Change>, c: Change)
    ensures CreatedAddrs(log + [c]) == CreatedAddrs(log) + if c.Created? then {c.addr} else {}
  {
  }

  /** Closers are the factory's, and only what was created is deleted. */
  predicate ClosersOk(uri: string, verb: string, s: State) {
    && (forall c :: c in s.closers ==> c.action == EndpointKey(c.addr, uri, verb) && c.addr in CreatedAddrs(s.log))
    && (forall t :: t in s.closing ==> s.closing[t] in s.closers)
    && (forall i :: 0 <= i < |s.log| && s.log[i].Deleted? ==> s.log[i].addr in CreatedAddrs(s.log[..i]))
    && s.endpointMap.Keys <= CreatedAddrs(s.log)
  }

  lemma ChangeOk(log: seq<Change>, c: Change)
    requires forall i :: 0 <= i < |log| && log[i].Deleted? ==> log[i].addr in CreatedAddrs(log[..i])
    requires c.Deleted? ==> c.addr in CreatedAddrs(log)
    ensures var log' := log + [c];
            forall i :: 0 <= i < |log'| && log'[i].Deleted? ==> log'[i].addr in CreatedAddrs(log'[..i])
  {
    var log' := log + [c];
    forall i | 0 <= i < |log'| && log'[i].Deleted? ensures log'[i].addr in CreatedAddrs(log'[..i]) {
      assert log'[..i] == if i < |log| then log[..i] else log;
    }
  }

  lemma ClosersStep(uri: string, verb: string, s: State, a: Action)
    requires ClosersOk(uri, verb, s)
    ensures ClosersOk(uri, verb, Step(uri, verb, s, a))
  {
    if Enabled(s, a) {
      match a
      case Create(addr, ep) =>
        CreatedGrows(s.log, Created(addr, ep));
        ChangeOk(s.log, Created(addr, ep));
      case CloseEndpoint(t) =>
        CreatedGrows(s.log, Deleted(s.closing[t].addr));
        ChangeOk(s.log, Deleted(s.closing[t].addr));
      case _ =>
    }
  }

  /** In every run each closer names its own address and key, and a deletion undoes an earlier
      creation at the same address. */
  lemma {:induction false} ClosersAreTheFactorys(uri: string, verb: string, actions: seq<Action>)
    ensures ClosersOk(uri, verb, Run(uri, verb, actions))
  {
    if actions == [] {
    } else {
      ClosersAreTheFactorys(uri, verb, actions[..|actions| - 1]);
      ClosersStep(uri, verb, Run(uri, verb, actions[..|actions| - 1]), actions[|actions| - 1]);
    }
  }

  // ---- the registry underneath ----

  /** The registry's part of a run. */
  function RegistryActions(uri: string, verb: string, actions: seq<Action>): seq<CB.Action> {
    if actions == [] then []
    else
      var init, a := actions[..|actions| - 1], actions[|actions| - 1];
      RegistryActions(uri, verb, init) +
      match a
      case Circuit(step) => [step]
      case CloseCircuit(_, closer) => if Enabled(Run(uri, verb, init), a) then [CB.Cleanup(closer.action)] else []
      case _ => []
  }

  /** Whatever happens above it, the registry goes through a run of its own machine; so all that is
      proved of its runs holds here. */
  lemma {:induction false} RegistryIsRun(uri: string, verb: string, actions: seq<Action>)
    ensures Run(uri, verb, actions).registry == CB.Run(CB.START, RegistryActions(uri, verb, actions))
  {
    if actions == [] {
    } else {
      var init, a := actions[..|actions| - 1], actions[|actions| - 1];
      RegistryIsRun(uri, verb, init);
      var before := RegistryActions(uri, verb, init);
      match a
      case Circuit(step) => CB.RunSnoc(CB.START, before, step);
      case CloseCircuit(_, closer) =>
        assert before + [] == before;
        CB.RunSnoc(CB.START, before, CB.Cleanup(closer.action));
      case _ =>
        assert before + [] == before;
    }
  }

  /** The calls of configCmd in a run are these endpoints'. */
  predicate UsesEndpoints(actions: seq<Action>, es: set<CB.Endpoint>) {
    forall a :: a in actions && a.Circuit? && a.step.Check? ==> (a.step.cmd, a.step.key) in CB.Pairs(es)
  }

  lemma {:induction false} RegistryUses(uri: string, verb: string, actions: seq<Action>, es: set<CB.Endpoint>)
    requires UsesEndpoints(actions, es)
    ensures CB.Uses(RegistryActions(uri, verb, actions), CB.Pairs(es))
  {
    if actions == [] {
    } else {
      var init, a := actions[..|actions| - 1], actions[|actions| - 1];
      assert forall b :: b in init ==> b in actions;
      RegistryUses(uri, verb, init, es);
      assert a in actions;
    }
  }

  /** With well named endpoints each lookup of a configured one is right about its circuit at that
      moment, in every run. */
  lemma LookupIsTrue(uri: string, verb: string, actions: seq<Action>, es: set<CB.Endpoint>, e: CB.Endpoint,
                     circuits: map<string, CB.Circuit>)
    requires CB.WellNamed(es) && UsesEndpoints(actions, es) && e in es
    ensures CB.ReportsTruly(Run(uri, verb, actions).registry.maps, circuits, e)
  {
    RegistryIsRun(uri, verb, actions);
    RegistryUses(uri, verb, actions, es);
    CB.ReportIsTrueIff(es);
  }

  // ---- when the filter does nothing ----

  predicate CreatesAmong(actions: seq<Action>, addrs: set<string>) {
    forall a :: a in actions && a.Create? ==> a.addr in addrs
  }

  /** No lookup of any request for this uri and method was reported open. */
  predicate NothingReported(s: State, uri: string, verb: string) {
    && (forall t :: t in s.requests ==> NoneReported(s.requests[t], uri, verb))
    && (forall i :: 0 <= i < |s.outcomes| ==> NoneReported(s.outcomes[i].request, uri, verb))
  }

  predicate NoneReported(r: Request, uri: string, verb: string) {
    r.uri == uri && r.verb == verb ==> ReportedAddrs(r.seen, uri, verb) == {}
  }

  /** What lookups saw was filed under these keys, at these addresses. */
  predicate SeenIn(r: Request, keys: set<string>, addrs: set<string>) {
    forall addr :: addr in r.seen ==> addr in addrs && r.seen[addr].maps.cmdMap.Keys <= keys
  }

  predicate SightsIn(s: State, keys: set<string>, addrs: set<string>) {
    && s.endpointMap.Keys <= addrs
    && (forall t :: t in s.requests ==> SeenIn(s.requests[t], keys, addrs))
    && (forall i :: 0 <= i < |s.outcomes| ==> SeenIn(s.outcomes[i].request, keys, addrs))
  }

  lemma SightsStep(uri: string, verb: string, s: State, a: Action, keys: set<string>, addrs: set<string>)
    requires SightsIn(s, keys, addrs) && s.registry.maps.cmdMap.Keys <= keys
    requires a.Create? ==> a.addr in addrs
    ensures SightsIn(Step(uri, verb, s, a), keys, addrs)
  {
    if a.Lookup? && Enabled(s, a) {
      var r := s.requests[a.t];
      assert SeenIn(r, keys, addrs);
      assert SeenIn(LookedUp(s.endpointMap, s.registry.maps, r, a.circuits, a.draw), keys, addrs);
    }
  }

  lemma {:induction false} SightsRun(uri: string, verb: string, actions: seq<Action>, es: set<CB.Endpoint>,
                                     addrs: set<string>)
    requires UsesEndpoints(actions, es) && CreatesAmong(actions, addrs)
    ensures SightsIn(Run(uri, verb, actions), CB.FiledKeys(es), addrs)
  {
    if actions == [] {
    } else {
      var init, a := actions[..|actions| - 1], actions[|actions| - 1];
      assert forall b :: b in init ==> b in actions;
      SightsRun(uri, verb, init, es, addrs);
      RegistryIsRun(uri, verb, init);
      RegistryUses(uri, verb, init, es);
      CB.OnlyFiledKeys(RegistryActions(uri, verb, init), es);
      assert a in actions;
      SightsStep(uri, verb, Run(uri, verb, init), a, CB.FiledKeys(es), addrs);
    }
  }

  lemma RunSnoc(uri: string, verb: string, actions: seq<Action>, a: Action)
    ensures Run(uri, verb, actions + [a]) == Step(uri, verb, Run(uri, verb, actions), a)
  {
    assert (actions + [a])[..|actions|] == actions;
  }

  /** A run in which a circuit is filed and then found open by a request for one address. */
  function Prepare(addr: string, cmd: string, key: string): seq<Action> {
    [Create(addr, 0)] + [Circuit(CB.Check(0, cmd, key))] + [Circuit(CB.Configure(0))]
  }

  lemma PrepareRun(uri: string, verb: string, addr: string, cmd: string, key: string)
    ensures var s := Run(uri, verb, Prepare(addr, cmd, key));
            Ready(s, addr, key, cmd)
  {
    var first := [Create(addr, 0)];
    assert [] + first == first;
    RunSnoc(uri, verb, [], Create(addr, 0));
    RunSnoc(uri, verb, first, Circuit(CB.Check(0, cmd, key)));
    RunSnoc(uri, verb, first + [Circuit(CB.Check(0, cmd, key))], Circuit(CB.Configure(0)));
  }

  predicate Ready(s: State, addr: string, key: string, cmd: string) {
    && s.endpointMap == map[addr := 0] && s.requests == map[] && s.outcomes == []
    && s.registry.maps.cmdMap == map[key := cmd]
  }

  function Asked(addr: string, u: string, v: string): Request {
    Request(u, v, [addr], 0, map[], map[], map[])
  }

  lemma BeginStep(s: State, addr: string, u: string, v: string)
    requires s.endpointMap == map[addr := 0] && s.requests == map[]
    ensures Step("", "", s, Begin(0, u, v, [addr])) == s.(requests := map[0 := Asked(addr, u, v)])
  {
    assert Elements([addr]) == {addr};
  }

  lemma LookupStep(s: State, addr: string, cmd: string, u: string, v: string)
    requires s.endpointMap == map[addr := 0] && s.requests == map[0 := Asked(addr, u, v)]
    requires s.registry.maps.cmdMap == map[EndpointKey(addr, u, v) := cmd]
    ensures var sight := Sight(s.registry.maps, map[cmd := CB.Known(true)]);
            Step("", "", s, Lookup(0, map[cmd := CB.Known(true)], 0)) ==
            s.(requests := map[0 := Request(u, v, [addr], 1, map[], map[addr := sight], map[addr := 0])])
  {
  }

  lemma FinishStep(s: State, r: Request)
    requires s.requests == map[0 := r] && r.next == |r.order| && r.endpoints == map[]
    ensures Step("", "", s, Finish(0, map[], [], 0)).outcomes ==
            s.outcomes + [Outcome(r, map[], [], 0, |s.log|, Choose(r.endpoints, map[], [], 0))]
  {
    assert Elements([]) == {};
    assert r.endpoints.Keys == {};
  }

  function Ask(addr: string, cmd: string, u: string, v: string): seq<Action> {
    [Begin(0, u, v, [addr]), Lookup(0, map[cmd := CB.Known(true)], 0), Finish(0, map[], [], 0)]
  }

  lemma AskRun(before: seq<Action>, addr: string, cmd: string, u: string, v: string)
    requires Ready(Run("", "", before), addr, EndpointKey(addr, u, v), cmd)
    ensures !NothingReported(Run("", "", before + Ask(addr, cmd, u, v)), u, v)
  {
    var begin := Begin(0, u, v, [addr]);
    var look := Lookup(0, map[cmd := CB.Known(true)], 0);
    var finish := Finish(0, map[], [], 0);
    var s := Run("", "", before);
    RunSnoc("", "", before, begin);
    BeginStep(s, addr, u, v);
    RunSnoc("", "", before + [begin], look);
    var s1 := Run("", "", before + [begin]);
    LookupStep(s1, addr, cmd, u, v);
    RunSnoc("", "", before + [begin] + [look], finish);
    var s2 := Run("", "", before + [begin] + [look]);
    FinishStep(s2, s2.requests[0]);
    ReportedOne(addr, s.registry.maps, cmd, u, v);
    assert before + [begin] + [look] + [finish] == before + Ask(addr, cmd, u, v);
    assert !NoneReported(s2.requests[0], u, v);
    assert Step("", "", s2, finish).outcomes[0].request == s2.requests[0];
  }

  lemma ReportedOne(addr: string, reg: CB.Maps, cmd: string, u: string, v: string)
    requires reg.cmdMap == map[EndpointKey(addr, u, v) := cmd]
    ensures addr in ReportedAddrs(map[addr := Sight(reg, map[cmd := CB.Known(true)])], u, v)
  {
  }

  lemma SilentIfUnseen(s: State, keys: set<string>, addrs: set<string>, u: string, v: string)
    requires SightsIn(s, keys, addrs) && forall addr :: addr in addrs ==> EndpointKey(addr, u, v) !in keys
    ensures NothingReported(s, u, v)
  {
    forall r: Request | SeenIn(r, keys, addrs) ensures NoneReported(r, u, v) {
    }
  }

  lemma LoudActions(es: set<CB.Endpoint>, addrs: set<string>, f: CB.Endpoint, addr: string, u: string, v: string)
    requires f in es && addr in addrs
    ensures var actions := Prepare(addr, f.Cmd(), f.FiledUnder()) + Ask(addr, f.Cmd(), u, v);
            UsesEndpoints(actions, es) && CreatesAmong(actions, addrs)
  {
    CB.InPairs(es, f);
  }

  lemma LoudIfFiled(es: set<CB.Endpoint>, addrs: set<string>, u: string, v: string, addr: string)
    returns (actions: seq<Action>)
    requires addr in addrs && EndpointKey(addr, u, v) in CB.FiledKeys(es)
    ensures UsesEndpoints(actions, es) && CreatesAmong(actions, addrs)
    ensures !NothingReported(Run("", "", actions), u, v)
  {
    var f :| f in es && f.FiledUnder() == EndpointKey(addr, u, v);
    LoudActions(es, addrs, f, addr, u, v);
    var before := Prepare(addr, f.Cmd(), f.FiledUnder());
    PrepareRun("", "", addr, f.Cmd(), f.FiledUnder());
    AskRun(before, addr, f.Cmd(), u, v);
    actions := before + Ask(addr, f.Cmd(), u, v);
  }

  /** For a uri and method and a set of addresses, the filter does nothing in any run, whatever
      circuits are open and whenever the lookups come, exactly when no address makes a key that the
      endpoints in use file under. */
  lemma FilterSilentIff(es: set<CB.Endpoint>, addrs: set<string>, u: string, v: string)
    ensures (forall addr :: addr in addrs ==> EndpointKey(addr, u, v) !in CB.FiledKeys(es)) <==>
            forall uri, verb, actions :: UsesEndpoints(actions, es) && CreatesAmong(actions, addrs) ==>
              NothingReported(Run(uri, verb, actions), u, v)
  {
    if forall addr :: addr in addrs ==> EndpointKey(addr, u, v) !in CB.FiledKeys(es) {
      forall uri, verb, actions | UsesEndpoints(actions, es) && CreatesAmong(actions, addrs)
        ensures NothingReported(Run(uri, verb, actions), u, v)
      {
        SightsRun(uri, verb, actions, es, addrs);
        SilentIfUnseen(Run(uri, verb, actions), CB.FiledKeys(es), addrs, u, v);
      }
    } else {
      var addr :| addr in addrs && EndpointKey(addr, u, v) in CB.FiledKeys(es);
      var actions := LoudIfFiled(es, addrs, u, v, addr);
    }
  }
}
