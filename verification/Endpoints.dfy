/** The client of one uri and method: its endpoints come and go with discovery, and each request
    picks one whose circuit is not open (client/http/endpoint.go). */
module Endpoints {
  import opened Wrappers
  import opened Ordering
  import opened CommandNames
  import opened LoadBalancer
  import CB = CircuitBreak

  /** An endpoint.Endpoint value. */
  type Call = nat

  /** A random number below ten lets an open circuit through if it is this one. */
  const LUCKY := 1

  /** What is left after the filter: everything not reported open, and what drew the pass. */
  function Candidates(endpointMap: map<string, Call>, reported: set<string>, draws: map<string, nat>)
    : map<string, Call>
  {
    map addr | addr in endpointMap && (addr !in reported || (addr in draws && draws[addr] == LUCKY)) ::
      endpointMap[addr]
  }

  /** The registry and the circuits as one lookup finds them. The registry's lock is given back
      after each, so no two lookups of a request need to find the same. */
  datatype Sight = Sight(maps: CB.Maps, circuits: map<string, CB.Circuit>)

  /** Of the addresses looked up, those whose circuit was then reported open. */
  function ReportedAddrs(seen: map<string, Sight>, uri: string, verb: string): set<string> {
    set addr | addr in seen && CB.ReportedOpen(seen[addr].maps, seen[addr].circuits, EndpointKey(addr, uri, verb))
  }

  datatype Closer = Closer(addr: string, action: string)

  class EndpointClient {
    const uri: string
    const verb: string
    const registry: CB.Registry
    var endpointMap: map<string, Call>

    constructor (uri: string, verb: string, registry: CB.Registry)
      ensures this.uri == uri && this.verb == verb && this.registry == registry && endpointMap == map[]
    {
      this.uri, this.verb, this.registry, endpointMap := uri, verb, registry, map[];
    }

    /** `order` and `kept` are the orders of the ranges over the endpoints and over the candidates,
        `draws` and `draw` the random numbers, `seen` what each lookup finds. */
    method ResolveHost(uri: string, verb: string, tagMap: TagMap, order: seq<string>, seen: map<string, Sight>,
                       draws: map<string, nat>, kept: seq<string>, draw: nat)
      returns (r: Selection<Call>)
      requires Visits(order, endpointMap.Keys) && seen.Keys == endpointMap.Keys
      requires forall addr :: addr in endpointMap ==> addr in draws && draws[addr] < 10
      requires Visits(kept, Candidates(endpointMap, ReportedAddrs(seen, uri, verb), draws).Keys)
      requires 0 < Total(kept, tagMap) ==> draw < Total(kept, tagMap)
      ensures r == Choose(Candidates(endpointMap, ReportedAddrs(seen, uri, verb), draws), tagMap, kept, draw)
    {
      var endpoints := FilterOpen(uri, verb, order, seen, draws);
      r := Select(endpoints, tagMap, kept, draw);
    }

    /** The loop of resolveHost: leaves out what is reported open and did not draw the pass. */
    method FilterOpen(uri: string, verb: string, order: seq<string>, seen: map<string, Sight>,
                      draws: map<string, nat>) returns (endpoints: map<string, Call>)
      requires Visits(order, endpointMap.Keys) && seen.Keys == endpointMap.Keys
      requires forall addr :: addr in endpointMap ==> addr in draws
      ensures endpoints == Candidates(endpointMap, ReportedAddrs(seen, uri, verb), draws)
    {
      endpoints := map[];
      ghost var reported := ReportedAddrs(seen, uri, verb);
      ghost var kept := Candidates(endpointMap, reported, draws);
      for k := 0 to |order|
        invariant endpoints.Keys == Elements(order[..k]) * kept.Keys
        invariant forall addr :: addr in endpoints ==> endpoints[addr] == endpointMap[addr]
      {
        ElementsPrefix(order, k);
        var addr := order[k];
        assert addr in Elements(order);
        var cbOpen, ok := CB.LookUp(seen[addr].maps, EndpointKey(addr, uri, verb), seen[addr].circuits);
        if ok && cbOpen {
          if draws[addr] != LUCKY {
            continue;
          }
        }
        endpoints := endpoints[addr := endpointMap[addr]];
      }
      assert order[..|order|] == order;
    }

    /** The factory that the endpointer calls for a new address. */
    method Create(addr: string, ep: Call) returns (closer: Closer)
      modifies this
      ensures endpointMap == old(endpointMap)[addr := ep]
      ensures closer == Closer(addr, EndpointKey(addr, uri, verb))
    {
      endpointMap := endpointMap[addr := ep];
      closer := Closer(addr, EndpointKey(addr, uri, verb));
    }

    /** fakeCloser.Close: first the circuit, under the registry's lock, then the endpoint, under the
        client's. */
    method Close(closer: Closer)
      modifies this, registry
      ensures endpointMap == old(endpointMap) - {closer.addr}
      ensures registry.Abs() == CB.CleanedUp(old(registry.Abs()), closer.action)
    {
      registry.CleanupEndpoint(closer.action);
      OnClose(closer.addr);
    }

    method OnClose(addr: string)
      modifies this
      ensures endpointMap == old(endpointMap) - {addr}
    {
      endpointMap := endpointMap - {addr};
    }
  }

  // ---- the filter composed with the selection ----

  /** A returned address comes with its own endpoint and was not reported open unless it drew the
      pass; whatever is not reported open can be returned; and there is an error exactly when
      everything is reported open without a pass. */
  lemma ResolvedIsAllowed(endpointMap: map<string, Call>, reported: set<string>, draws: map<string, nat>,
                          tagMap: TagMap, kept: seq<string>, draw: nat)
    requires Visits(kept, Candidates(endpointMap, reported, draws).Keys)
    ensures var r := Choose(Candidates(endpointMap, reported, draws), tagMap, kept, draw);
            && (r.Picked? ==>
                 && r.addr in endpointMap && r.ep == endpointMap[r.addr]
                 && (r.addr !in reported || (r.addr in draws && draws[r.addr] == 1)))
            && (r == NoEndpoints <==>
                 forall addr :: addr in endpointMap ==>
                   addr in reported && !(addr in draws && draws[addr] == 1))
  {
    var cs := Candidates(endpointMap, reported, draws);
    PanicIff(cs, tagMap, kept, draw);
    assert |cs| == 0 <==> cs == map[];
    assert forall addr :: addr in endpointMap && addr !in cs ==>
        addr in reported && !(addr in draws && draws[addr] == LUCKY);
  }

  /** The draw d lets an endpoint through the filter. */
  predicate LetsThrough(endpointMap: map<string, Call>, reported: set<string>, draws: map<string, nat>, addr: string,
                        d: nat)
  {
    addr in Candidates(endpointMap, reported, draws[addr := d])
  }

  /** An endpoint that is not reported open passes on every draw, one that is on the draw 1 alone: on
      one of the ten. */
  lemma PassIff(endpointMap: map<string, Call>, reported: set<string>, draws: map<string, nat>, addr: string)
    requires addr in endpointMap
    ensures forall d :: LetsThrough(endpointMap, reported, draws, addr, d) <==> addr !in reported || d == 1
    ensures addr in reported ==>
              |set d: nat | d < 10 && LetsThrough(endpointMap, reported, draws, addr, d)| == 1
  {
    forall d ensures LetsThrough(endpointMap, reported, draws, addr, d) <==> addr !in reported || d == 1 {
      assert draws[addr := d][addr] == d;
    }
    if addr in reported {
      assert (set d: nat | d < 10 && LetsThrough(endpointMap, reported, draws, addr, d)) == {1};
    }
  }

  /** When there is another candidate, an endpoint that is not reported open or drew the pass is
      returned on exactly as many draws as its weight. */
  lemma HealthyIsReachable(endpointMap: map<string, Call>, reported: set<string>, draws: map<string, nat>,
                           tagMap: TagMap, kept: seq<string>, addr: string)
    requires Visits(kept, Candidates(endpointMap, reported, draws).Keys) && |kept| >= 2
    requires addr in endpointMap && (addr !in reported || (addr in draws && draws[addr] == 1))
    ensures |ChosenOn(Candidates(endpointMap, reported, draws), tagMap, kept, addr)| == Weight(tagMap, addr)
  {
    var cs := Candidates(endpointMap, reported, draws);
    NoDuplicatesSize(kept);
    assert |cs| == |cs.Keys|;
    SelectIsWeighted(cs, tagMap, kept, addr);
  }
}
