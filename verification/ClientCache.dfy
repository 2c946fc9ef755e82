/** The per-host client and its lazily created endpoint clients (client/http/client.go). */
module ClientCache {
  import opened Wrappers
  import opened CommandNames

  /** An endpointClient: an identity, and the uri and method it was made for. */
  datatype Client = Client(id: nat, uri: string, verb: string)

  datatype Request = Request(uri: string, verb: string) {
    function Key(): string { Dashed(verb, uri) }
  }

  function MadeAs(c: Client): Request { Request(c.uri, c.verb) }

  /** What createEndpointClient returns for a request: a client with this identity, or a failure. */
  function Made(id: Option<nat>, request: Request): Option<Client> {
    if id.Some? then Some(Client(id.value, request.uri, request.verb)) else None
  }

  /** Each client is under the key of what it was made for. */
  predicate UnderOwnKeys(endpoints: map<string, Client>) {
    forall k :: k in endpoints ==> MadeAs(endpoints[k]).Key() == k
  }

  /** The map after createByDefaultCfg, whose client creation gave `made` or failed, and its answer. */
  function Settled(endpoints: map<string, Client>, key: string, made: Option<Client>): map<string, Client> {
    if key in endpoints || made.None? then endpoints else endpoints[key := made.value]
  }

  class DefaultClient {
    var endpoints: map<string, Client>

    /** The clients of the configured settings are there from the start. */
    constructor (preset: map<string, Client>)
      ensures endpoints == preset
    {
      endpoints := preset;
    }

    /** `id` is the identity of the client that createEndpointClient makes if it is called, or None
        if it fails then. */
    method GetEndpointClient(uri: string, verb: string, id: Option<nat>) returns (client: Option<Client>)
      modifies this
      ensures endpoints == Settled(old(endpoints), Request(uri, verb).Key(), Made(id, Request(uri, verb)))
      ensures var key := Request(uri, verb).Key();
              client == if key in endpoints then Some(endpoints[key]) else None
      ensures client.Some? && Request(uri, verb).Key() !in old(endpoints) ==>
                MadeAs(client.value) == Request(uri, verb)
      ensures UnderOwnKeys(old(endpoints)) ==>
                UnderOwnKeys(endpoints) &&
                (client.Some? ==> MadeAs(client.value).Key() == Request(uri, verb).Key())
    {
      var key := Dashed(verb, uri);
      if key in endpoints {
        return Some(endpoints[key]);
      }
      client := CreateByDefaultCfg(key, uri, verb, id);
    }

    method CreateByDefaultCfg(key: string, uri: string, verb: string, id: Option<nat>)
      returns (client: Option<Client>)
      modifies this
      ensures endpoints == Settled(old(endpoints), key, Made(id, Request(uri, verb)))
      ensures client == if key in endpoints then Some(endpoints[key]) else None
    {
      if key in endpoints {
        return Some(endpoints[key]);
      }
      if id.None? {
        return None;
      }
      var made := Client(id.value, uri, verb);
      endpoints := endpoints[key := made];
      client := Some(made);
    }
  }

  // ---- every interleaving of any number of callers ----

  type Thread = nat

  datatype Answer = Answer(request: Request, client: Client)

  datatype State = State(
    endpoints: map<string, Client>,
    missed: map<Thread, Request>,  // between the two locks of getEndpointClient
    nextId: nat,
    stored: multiset<string>,      // history: keys under which a client was stored
    answers: seq<Answer>)          // history: successful results

  /** Before the first call: nobody asked yet, and each preset client is under its own key, as the
      settings are. */
  ghost predicate Preset(s: State) {
    && s.missed == map[] && s.answers == []
    && OnePerKey(s)
    && UnderOwnKeys(s.endpoints)
  }

  datatype Action =
    | Ask(t: Thread, request: Request)  // the lookup under the read lock
    | Create(t: Thread, ok: bool)       // createByDefaultCfg under the write lock

  function Step(s: State, a: Action): State {
    match a
    case Ask(t, request) =>
      if t in s.missed then s
      else if request.Key() in s.endpoints then
        s.(answers := s.answers + [Answer(request, s.endpoints[request.Key()])])
      else s.(missed := s.missed[t := request])
    case Create(t, ok) =>
      if t !in s.missed then s
      else
        var request := s.missed[t];
        var key := request.Key();
        var made := Made(if ok then Some(s.nextId) else None, request);
        var s' := s.(endpoints := Settled(s.endpoints, key, made), missed := s.missed - {t});
        if key in s.endpoints then s'.(answers := s.answers + [Answer(request, s.endpoints[key])])
        else if ok then s'.(nextId := s.nextId + 1, stored := s.stored + multiset{key},
                            answers := s.answers + [Answer(request, made.value)])
        else s'
  }

  function Run(s: State, actions: seq<Action>): State {
    if actions == [] then s else Step(Run(s, actions[..|actions| - 1]), actions[|actions| - 1])
  }

  /** Every answer is the client that is in the map under its key. */
  predicate AnswersCurrent(s: State) {
    forall i :: 0 <= i < |s.answers| ==>
      var key := s.answers[i].request.Key();
      key in s.endpoints && s.endpoints[key] == s.answers[i].client
  }

  ghost predicate OnePerKey(s: State) {
    && (forall k :: s.stored[k] == if k in s.endpoints then 1 else 0)
    && (forall k :: k in s.endpoints ==> s.endpoints[k].id < s.nextId)
    && (forall k, l :: k in s.endpoints && l in s.endpoints && s.endpoints[k].id == s.endpoints[l].id ==> k == l)
  }

  lemma AnswersStep(s: State, a: Action)
    requires AnswersCurrent(s)
    ensures AnswersCurrent(Step(s, a))
  {
  }

  lemma OnePerKeyStep(s: State, a: Action)
    requires OnePerKey(s)
    ensures OnePerKey(Step(s, a))
  {
    if a.Create? && a.t in s.missed {
      var key := s.missed[a.t].Key();
      if key !in s.endpoints && a.ok {
        var s' := Step(s, a);
        assert s'.stored == s.stored + multiset{key};
        assert s'.endpoints[key].id == s.nextId;
      }
    }
  }

  lemma {:induction false} RunOk(s0: State, actions: seq<Action>)
    requires Preset(s0)
    ensures AnswersCurrent(Run(s0, actions)) && OnePerKey(Run(s0, actions))
  {
    if actions == [] {
    } else {
      RunOk(s0, actions[..|actions| - 1]);
      AnswersStep(Run(s0, actions[..|actions| - 1]), actions[|actions| - 1]);
      OnePerKeyStep(Run(s0, actions[..|actions| - 1]), actions[|actions| - 1]);
    }
  }

  /** In every interleaving at most one client is ever stored per key, and two successful calls get
      the same client exactly when they print to the same key. */
  lemma OneClientPerKey(s0: State, actions: seq<Action>, i: nat, j: nat)
    requires Preset(s0) && i < |Run(s0, actions).answers| && j < |Run(s0, actions).answers|
    ensures var s := Run(s0, actions);
            && (s.answers[i].request.Key() == s.answers[j].request.Key() <==>
                s.answers[i].client == s.answers[j].client)
            && forall k :: s.stored[k] <= 1
  {
    RunOk(s0, actions);
  }

  /** The map only grows: what was stored stays. */
  lemma {:induction false} MapGrows(s: State, after: seq<Action>, key: string)
    requires key in s.endpoints
    ensures key in Run(s, after).endpoints && Run(s, after).endpoints[key] == s.endpoints[key]
  {
    if after == [] {
    } else {
      MapGrows(s, after[..|after| - 1], key);
    }
  }

  // ---- is it the client that was asked for? ----

  predicate AsksAmong(actions: seq<Action>, requests: set<Request>) {
    forall a :: a in actions && a.Ask? ==> a.request in requests
  }

  predicate DistinctKeys(requests: set<Request>) {
    forall p, q :: p in requests && q in requests && p.Key() == q.Key() ==> p == q
  }

  predicate AsAsked(s: State) {
    forall i :: 0 <= i < |s.answers| ==> MadeAs(s.answers[i].client) == s.answers[i].request
  }

  predicate MadeFor(s: State, requests: set<Request>) {
    && (forall k :: k in s.endpoints ==> MadeAs(s.endpoints[k]) in requests && MadeAs(s.endpoints[k]).Key() == k)
    && (forall t :: t in s.missed ==> s.missed[t] in requests)
    && (forall i :: 0 <= i < |s.answers| ==> s.answers[i].request in requests)
  }

  lemma MadeForStep(s: State, a: Action, requests: set<Request>)
    requires MadeFor(s, requests) && (a.Ask? ==> a.request in requests)
    ensures MadeFor(Step(s, a), requests)
  {
    if a.Create? && a.t in s.missed {
      assert s.missed[a.t] in requests;
    }
  }

  lemma {:induction false} MadeForRun(s0: State, actions: seq<Action>, requests: set<Request>)
    requires MadeFor(s0, requests) && AsksAmong(actions, requests)
    ensures MadeFor(Run(s0, actions), requests)
  {
    if actions == [] {
    } else {
      var init, a := actions[..|actions| - 1], actions[|actions| - 1];
      assert forall b :: b in init ==> b in actions;
      MadeForRun(s0, init, requests);
      assert a in actions;
      MadeForStep(Run(s0, init), a, requests);
    }
  }

  function Confusion(p: Request, q: Request): seq<Action> {
    [Ask(0, p), Create(0, true), Ask(0, q)]
  }

  /** Two requests with one key are answered with one client. */
  lemma ConfusedAnswer(s0: State, p: Request, q: Request)
    requires Preset(s0) && p.Key() == q.Key() && p != q
    ensures !AsAsked(Run(s0, Confusion(p, q)))
  {
    var acts := Confusion(p, q);
    assert acts[..2] == [Ask(0, p), Create(0, true)];
    assert acts[..2][..1] == [Ask(0, p)];
    var s1 := Step(s0, Ask(0, p));
    var s2 := Step(s1, Create(0, true));
    assert Run(s0, acts[..2][..1]) == s1;
    assert Run(s0, acts[..2]) == s2;
    var c := s2.endpoints[p.Key()];
    var answers := Run(s0, acts).answers;
    assert answers[0] == Answer(p, c) && answers[1] == Answer(q, c);
  }

  /** Every caller gets a client of the uri and method it asked for, in every interleaving, exactly
      when no two of the requests in use, the preset ones included, print to the same key. */
  lemma AsAskedIff(s0: State, requests: set<Request>)
    requires Preset(s0) && forall k :: k in s0.endpoints ==> MadeAs(s0.endpoints[k]) in requests
    ensures DistinctKeys(requests) <==>
            forall actions :: AsksAmong(actions, requests) ==> AsAsked(Run(s0, actions))
  {
    if DistinctKeys(requests) {
      forall actions | AsksAmong(actions, requests) ensures AsAsked(Run(s0, actions)) {
        var s := Run(s0, actions);
        MadeForRun(s0, actions, requests);
        RunOk(s0, actions);
        forall i | 0 <= i < |s.answers| ensures MadeAs(s.answers[i].client) == s.answers[i].request {
          assert MadeAs(s.answers[i].client) in requests && s.answers[i].request in requests;
        }
      }
    } else {
      var p, q :| p in requests && q in requests && p.Key() == q.Key() && p != q;
      ConfusedAnswer(s0, p, q);
      assert AsksAmong(Confusion(p, q), requests);
    }
  }

  /** The second request's uri starts with what its method lacks of the first's. */
  ghost predicate Shifted(p: Request, q: Request) {
    exists x :: p.verb == q.verb + "-" + x && q.uri == x + "-" + p.uri
  }

  /** Two requests print to the same key exactly when they are the same, or the method of one is that
      of the other, a dash and a rest, with which the other's uri begins. */
  lemma SameKeyIff(p: Request, q: Request)
    ensures p.Key() == q.Key() <==> p == q || Shifted(p, q) || Shifted(q, p)
  {
    if p.Key() == q.Key() {
      if |p.verb| <= |q.verb| { KeyShift(q, p); } else { KeyShift(p, q); }
    }
    if Shifted(p, q) { ShiftedKey(p, q); }
    if Shifted(q, p) { ShiftedKey(q, p); }
  }

  lemma KeyShift(p: Request, q: Request)
    requires p.Key() == q.Key() && |q.verb| <= |p.verb|
    ensures p == q || Shifted(p, q)
  {
    var k, n := p.Key(), |q.verb|;
    assert p.verb == k[..|p.verb|] && q.verb == k[..n];
    assert p.uri == k[|p.verb| + 1..] && q.uri == k[n + 1..];
    if n < |p.verb| {
      var x := p.verb[n + 1..];
      assert p.verb[n] == k[n] == q.Key()[n] == DASH;
      assert p.verb == q.verb + "-" + x;
      assert q.uri == x + "-" + p.uri;
    }
  }

  lemma ShiftedKey(p: Request, q: Request)
    requires Shifted(p, q)
    ensures p.Key() == q.Key()
  {
    var x :| p.verb == q.verb + "-" + x && q.uri == x + "-" + p.uri;
    assert p.Key() == q.verb + "-" + x + "-" + p.uri;
    assert q.Key() == q.verb + "-" + (x + "-" + p.uri);
  }

  /** Dash-free methods are enough for that, whatever the uris. */
  lemma DashFreeVerbsDistinct(requests: set<Request>)
    requires forall r :: r in requests ==> DashFree(r.verb)
    ensures DistinctKeys(requests)
  {
    forall p, q | p in requests && q in requests && p.Key() == q.Key() ensures p == q {
      FieldsDashed(p.verb, p.uri);
      FieldsDashed(q.verb, q.uri);
      FieldsSingle(p.verb);
      FieldsSingle(q.verb);
      assert Fields(p.Key())[0] == p.verb && Fields(q.Key())[0] == q.verb;
      assert p.Key()[|p.verb| + 1..] == p.uri && q.Key()[|q.verb| + 1..] == q.uri;
    }
  }
}
