/** The polling side of service discovery (client/sd/instancer/consul_instancer.go). */
module Instancer {
  import opened Wrappers
  import opened Ordering
  import opened Naming
  import opened Backoff
  import Decimal
  import Cache

  /** The parts of a consul.ServiceEntry that are read. */
  datatype ServiceEntry = ServiceEntry(node: string, address: string, port: int, tags: seq<string>)

  /** How one query ends for the loop; Failed(EOF) also stands for an interrupt. */
  datatype Reply = Found(entries: seq<ServiceEntry>, index: nat) | Failed(err: Error)

  function InstanceOf(e: ServiceEntry): string {
    (if e.address != "" then e.address else e.node) + ":" + Decimal.Itoa(e.port)
  }

  function InstancesOf(es: seq<ServiceEntry>): seq<string> {
    seq(|es|, i requires 0 <= i < |es| => InstanceOf(es[i]))
  }

  /** Later entries of the same instance overwrite earlier ones. */
  function TagsOf(es: seq<ServiceEntry>): TagMap {
    if es == [] then map[]
    else
      var last := es[|es| - 1];
      TagsOf(es[..|es| - 1])[InstanceOf(last) := last.tags]
  }

  predicate HasAll(e: ServiceEntry, tags: seq<string>) {
    forall t :: t in tags ==> t in e.tags
  }

  function Matching(es: seq<ServiceEntry>, tags: seq<string>): seq<ServiceEntry> {
    if es == [] then []
    else
      var last := es[|es| - 1];
      Matching(es[..|es| - 1], tags) + if HasAll(last, tags) then [last] else []
  }

  /** Consul itself filters by the first tag, the instancer by the others. */
  function Selected(es: seq<ServiceEntry>, tags: seq<string>): seq<ServiceEntry> {
    if |tags| > 1 then Matching(es, tags[1..]) else es
  }

  method FilterEntries(entries: seq<ServiceEntry>, tags: seq<string>) returns (es: seq<ServiceEntry>)
    ensures es == Matching(entries, tags)
  {
    es := [];
    for k := 0 to |entries|
      invariant es == Matching(entries[..k], tags)
    {
      assert entries[..k + 1][..k] == entries[..k];
      var ts := set t | t in entries[k].tags;
      var all := true;
      for j := 0 to |tags|
        invariant all <==> forall i :: 0 <= i < j ==> tags[i] in entries[k].tags
      {
        if tags[j] !in ts {
          all := false;
          break;
        }
      }
      if all {
        es := es + [entries[k]];
      }
    }
    assert entries[..|entries|] == entries;
  }

  /** The filter keeps every occurrence of an entry that has all the tags, and nothing else. */
  lemma {:induction false} MatchingKeeps(es: seq<ServiceEntry>, tags: seq<string>, e: ServiceEntry)
    ensures multiset(Matching(es, tags))[e] == if HasAll(e, tags) then multiset(es)[e] else 0
  {
    if es == [] {
    } else {
      MatchingKeeps(es[..|es| - 1], tags, e);
      assert es == es[..|es| - 1] + [es[|es| - 1]];
    }
  }

  /** It keeps the order: what precedes a point is filtered before what follows it. */
  lemma {:induction false} MatchingInOrder(es: seq<ServiceEntry>, fs: seq<ServiceEntry>, tags: seq<string>)
    ensures Matching(es + fs, tags) == Matching(es, tags) + Matching(fs, tags)
    decreases |fs|
  {
    if fs == [] {
      assert es + fs == es;
    } else {
      MatchingInOrder(es, fs[..|fs| - 1], tags);
      assert (es + fs)[..|es + fs| - 1] == es + fs[..|fs| - 1];
    }
  }

  // ---- what is selected ----

  /** Carries every tag but the first, by which Consul itself filters. */
  predicate Serves(e: ServiceEntry, tags: seq<string>) {
    forall j :: 1 <= j < |tags| ==> tags[j] in e.tags
  }

  /** For any number of tags: an entry with all but the first is kept as often as it occurs, any
      other never. */
  lemma SelectedKeeps(es: seq<ServiceEntry>, tags: seq<string>, e: ServiceEntry)
    ensures multiset(Selected(es, tags))[e] ==
            if forall j :: 1 <= j < |tags| ==> tags[j] in e.tags then multiset(es)[e] else 0
  {
    if |tags| > 1 {
      MatchingKeeps(es, tags[1..], e);
      ServesIff(e, tags);
    }
  }

  lemma ServesIff(e: ServiceEntry, tags: seq<string>)
    requires |tags| > 1
    ensures Serves(e, tags) <==> HasAll(e, tags[1..])
  {
    if HasAll(e, tags[1..]) {
      forall j | 1 <= j < |tags| ensures tags[j] in e.tags {
        assert tags[j] == tags[1..][j - 1];
      }
    }
  }

  /** The positions of the entries to keep, in ascending order: there is one such list. */
  ghost predicate Kept(ps: seq<nat>, es: seq<ServiceEntry>, tags: seq<string>) {
    && Ascending(ps, |es|)
    && forall i :: 0 <= i < |es| ==> (i in ps <==> Serves(es[i], tags))
  }

  function At(es: seq<ServiceEntry>, ps: seq<nat>): seq<ServiceEntry>
    requires forall i :: 0 <= i < |ps| ==> ps[i] < |es|
  {
    seq(|ps|, i requires 0 <= i < |ps| => es[ps[i]])
  }

  lemma {:induction false} MatchingAt(es: seq<ServiceEntry>, tags: seq<string>) returns (ps: seq<nat>)
    requires |tags| > 1
    ensures Kept(ps, es, tags) && Matching(es, tags[1..]) == At(es, ps)
  {
    ps := [];
    if es == [] {
    } else {
      var n := |es| - 1;
      var qs := MatchingAt(es[..n], tags);
      ServesIff(es[n], tags);
      AtSnoc(es, qs);
      ps := if Serves(es[n], tags) then qs + [n] else qs;
      KeptSnoc(qs, es, tags);
    }
  }

  lemma AtSnoc(es: seq<ServiceEntry>, qs: seq<nat>)
    requires es != [] && forall i :: 0 <= i < |qs| ==> qs[i] < |es| - 1
    ensures At(es, qs) == At(es[..|es| - 1], qs)
    ensures At(es, qs + [|es| - 1]) == At(es[..|es| - 1], qs) + [es[|es| - 1]]
  {
  }

  lemma KeptSnoc(qs: seq<nat>, es: seq<ServiceEntry>, tags: seq<string>)
    requires es != [] && Kept(qs, es[..|es| - 1], tags)
    ensures Kept(if Serves(es[|es| - 1], tags) then qs + [|es| - 1] else qs, es, tags)
  {
    var n := |es| - 1;
    assert n !in qs;
    forall i | 0 <= i < n ensures i in qs + [n] <==> i in qs {
    }
    forall i | 0 <= i < n ensures i in qs <==> Serves(es[i], tags) {
      assert es[..n][i] == es[i];
    }
  }

  lemma {:induction false} AllPositions(n: nat) returns (ps: seq<nat>)
    ensures Ascending(ps, n) && |ps| == n && forall i :: 0 <= i < n ==> ps[i] == i
  {
    ps := seq(n, i => i);
  }

  /** The selection keeps the order of the entries: it is the entries at ascending positions, which
      are all those of entries with every tag but the first. */
  lemma SelectedAt(es: seq<ServiceEntry>, tags: seq<string>) returns (ps: seq<nat>)
    ensures Kept(ps, es, tags) && Selected(es, tags) == At(es, ps)
  {
    if |tags| > 1 {
      ps := MatchingAt(es, tags);
    } else {
      ps := AllPositions(|es|);
      forall i | 0 <= i < |es| ensures i in ps {
        assert ps[i] == i;
      }
    }
  }

  // ---- what an instance says ----

  function HostOf(e: ServiceEntry): string {
    if e.address != "" then e.address else e.node
  }

  /** The service's own address if it has one and the node's otherwise, a colon, and text from which
      the port can be read. */
  lemma InstanceParts(e: ServiceEntry)
    requires Decimal.IsInt64(e.port)
    ensures var host := if e.address != "" then e.address else e.node;
            && |InstanceOf(e)| > |host| && InstanceOf(e)[..|host|] == host && InstanceOf(e)[|host|] == ':'
            && Decimal.Atoi(InstanceOf(e)[|host| + 1..]) == Some(e.port)
  {
    var host := HostOf(e);
    assert InstanceOf(e) == host + ":" + Decimal.Itoa(e.port);
    Decimal.AtoiItoa(e.port);
    assert InstanceOf(e)[|host| + 1..] == Decimal.Itoa(e.port);
  }

  /** Whatever colons are in the addresses, an instance determines address and port. */
  lemma InstanceInjective(e: ServiceEntry, f: ServiceEntry)
    ensures InstanceOf(e) == InstanceOf(f) <==> HostOf(e) == HostOf(f) && e.port == f.port
  {
    var p, q := Decimal.Itoa(e.port), Decimal.Itoa(f.port);
    assert InstanceOf(e) == HostOf(e) + ":" + p && InstanceOf(f) == HostOf(f) + ":" + q;
    if InstanceOf(e) == InstanceOf(f) {
      NoColon(e.port);
      NoColon(f.port);
      LastColon(HostOf(e), p, HostOf(f), q);
      Decimal.ItoaInjective(e.port, f.port);
    }
  }

  lemma NoColon(n: int)
    ensures ':' !in Decimal.Itoa(n)
  {
    var d := Decimal.Digits(if n < 0 then -n else n);
    assert !Decimal.IsDigit(':');
    assert ':' !in d;
  }

  lemma NoColonAfter(a: string, p: string)
    requires ':' !in p
    ensures var s := a + ":" + p; s[|a|] == ':' && forall k :: |a| < k < |s| ==> s[k] != ':'
  {
    var s := a + ":" + p;
    forall k | |a| < k < |s| ensures s[k] != ':' {
      assert s[k] == p[k - |a| - 1];
    }
  }

  lemma LastColon(a: string, p: string, b: string, q: string)
    requires a + ":" + p == b + ":" + q && ':' !in p && ':' !in q
    ensures a == b && p == q
  {
    var s, t := a + ":" + p, b + ":" + q;
    NoColonAfter(a, p);
    NoColonAfter(b, q);
    assert |a| == |b|;
    assert s[..|a|] == a && t[..|b|] == b && s[|a| + 1..] == p && t[|b| + 1..] == q;
  }

  method MakeInstances(entries: seq<ServiceEntry>) returns (instances: array<string>)
    ensures fresh(instances) && instances[..] == InstancesOf(entries)
    ensures instances.Length == |entries|
    ensures forall i :: 0 <= i < |entries| ==>
              instances[i] == (if entries[i].address != "" then entries[i].address else entries[i].node)
                              + ":" + Decimal.Itoa(entries[i].port)
  {
    instances := new string[|entries|];
    for i := 0 to |entries|
      invariant forall j :: 0 <= j < i ==> instances[j] == InstanceOf(entries[j])
    {
      var addr := entries[i].node;
      if entries[i].address != "" {
        addr := entries[i].address;
      }
      instances[i] := addr + ":" + Decimal.Itoa(entries[i].port);
    }
  }

  method BuildTagMap(entries: seq<ServiceEntry>, instances: array<string>) returns (m: TagMap)
    requires instances[..] == InstancesOf(entries)
    ensures m == TagsOf(entries)
  {
    m := map[];
    for i := 0 to |entries|
      invariant m == TagsOf(entries[..i])
    {
      assert entries[..i + 1][..i] == entries[..i];
      assert instances[i] == instances[..][i] == InstanceOf(entries[i]);
      m := m[instances[i] := entries[i].tags];
    }
    assert entries[..|entries|] == entries;
  }

  /** The tag map of a snapshot has exactly the snapshot's instances as keys. */
  lemma {:induction false} TagKeys(es: seq<ServiceEntry>)
    ensures TagsOf(es).Keys == Elements(InstancesOf(es))
  {
    if es == [] {
    } else {
      var init := es[..|es| - 1];
      TagKeys(init);
      assert InstancesOf(es) == InstancesOf(init) + [InstanceOf(es[|es| - 1])];
      ElementsSnoc(InstancesOf(init), InstanceOf(es[|es| - 1]));
    }
  }

  /** Of several entries for one instance, the tag map holds the tags of the last. */
  lemma {:induction false} LastEntryWins(es: seq<ServiceEntry>, i: nat)
    requires i < |es|
    requires forall j :: i < j < |es| ==> InstanceOf(es[j]) != InstanceOf(es[i])
    ensures InstanceOf(es[i]) in TagsOf(es) && TagsOf(es)[InstanceOf(es[i])] == es[i].tags
    decreases |es|
  {
    if i == |es| - 1 {
    } else {
      LastEntryWins(es[..|es| - 1], i);
    }
  }

  // ---- the rounds of the loop, one reply at a time ----

  datatype Poller = Poller(held: Cache.Event, tagMap: TagMap, calls: seq<Msg>,
                           lastIndex: nat, delay: int, stopped: bool)

  /** Before the first reply. */
  const BLANK := Poller(Cache.PRISTINE, map[], [], 0, INITIAL_DELAY, false)

  /** A successful query, in the constructor and in the loop. */
  function Succeed(tags: seq<string>, p: Poller, entries: seq<ServiceEntry>, index: nat): Poller {
    var es := Selected(entries, tags);
    var instances := Sort(InstancesOf(es));
    Poller(Cache.Event(Some(instances), None), TagsOf(es),
           p.calls + [Msg(instances, TagsOf(es), None)], index, INITIAL_DELAY, false)
  }

  /** A failed one: the tag map stays, and the next query does not wait for a newer index. */
  function Fail(p: Poller, err: Error, delay: int): Poller {
    p.(held := Cache.Event(None, Some(err)), calls := p.calls + [Msg([], p.tagMap, Some(err))],
       lastIndex := 0, delay := delay)
  }

  function Start(tags: seq<string>, r: Reply): Poller {
    match r
    case Found(entries, index) => Succeed(tags, BLANK, entries, index)
    case Failed(err) => Fail(BLANK, err, INITIAL_DELAY)
  }

  function Round(tags: seq<string>, p: Poller, r: Reply): Poller {
    if p.stopped then p
    else match r
      case Found(entries, index) => Succeed(tags, p, entries, index)
      case Failed(err) =>
        if err == EOF then p.(lastIndex := 0, stopped := true)
        else Fail(p, err, Doubled(p.delay))
  }

  /** The constructor's query is answered by the first reply, the loop's by the others. */
  function Rounds(tags: seq<string>, rs: seq<Reply>): Poller {
    if rs == [] then BLANK
    else if |rs| == 1 then Start(tags, rs[0])
    else Round(tags, Rounds(tags, rs[..|rs| - 1]), rs[|rs| - 1])
  }

  class Instancer {
    const tags: seq<string>
    const cache: Cache.Cache
    var tagMap: TagMap
    var calls: seq<Msg>   // what the listener was called with
    var lastIndex: nat
    var delay: int
    var stopped: bool

    function Abs(): Poller
      reads this, cache
    {
      Poller(cache.current, tagMap, calls, lastIndex, delay, stopped)
    }

    /** NewInstancer up to the start of the loop; `reply` answers its query. */
    constructor (tags: seq<string>, reply: Reply)
      ensures this.tags == tags && fresh(cache)
      ensures Abs() == Start(tags, reply)
    {
      this.tags := tags;
      cache := new Cache.Cache();
      tagMap, calls, lastIndex, delay, stopped := map[], [], 0, INITIAL_DELAY, false;
      new;
      FirstRound(reply);
    }

    /** The constructor's own query: an error is reported without delay, and io.EOF is no exception. */
    method FirstRound(reply: Reply)
      requires Abs() == BLANK
      modifies this, cache
      ensures Abs() == Start(tags, reply)
    {
      var instances, index, err := GetInstances(reply);
      lastIndex := index;
      cache.Update(instances, err);
      Notify(instances, err);
    }

    /** The query of one round and the goroutine that runs it. */
    method GetInstances(reply: Reply) returns (instances: array?<string>, index: nat, err: Option<Error>)
      modifies this`tagMap
      ensures reply.Found? ==>
                && instances != null && fresh(instances)
                && instances[..] == InstancesOf(Selected(reply.entries, tags))
                && tagMap == TagsOf(Selected(reply.entries, tags))
                && index == reply.index && err == None
      ensures reply.Found? ==>
                && tagMap.Keys == Elements(instances[..])
                && exists ps :: Kept(ps, reply.entries, tags) && instances[..] == InstancesOf(At(reply.entries, ps))
      ensures reply.Failed? ==>
                instances == null && index == 0 && err == Some(reply.err) && tagMap == old(tagMap)
    {
      if reply.Failed? {
        return null, 0, Some(reply.err);
      }
      var entries := reply.entries;
      if |tags| > 1 {
        entries := FilterEntries(entries, tags[1..]);
      }
      instances := MakeInstances(entries);
      tagMap := BuildTagMap(entries, instances);
      TagKeys(entries);
      ghost var ps := SelectedAt(reply.entries, tags);
      return instances, reply.index, None;
    }

    /** s.listener(instances, s.tagMap, err): a nil slice is passed on as no instances. */
    method Notify(instances: array?<string>, err: Option<Error>)
      modifies this`calls
      ensures calls == old(calls) + [Msg(if instances == null then [] else instances[..], tagMap, err)]
    {
      calls := calls + [Msg(if instances == null then [] else instances[..], tagMap, err)];
    }

    /** The loop, for as long as replies keep coming or until one of them is io.EOF. The listener
        receives the slice that the cache has just sorted. */
    method Loop(replies: seq<Reply>)
      requires !stopped
      modifies this, cache
      ensures Abs() == Turns(tags, old(Abs()), replies)
    {
      var k := 0;
      while k < |replies|
        invariant 0 <= k <= |replies|
        invariant !stopped
        invariant Abs() == Turns(tags, old(Abs()), replies[..k])
      {
        TurnsPrefix(tags, old(Abs()), replies, k);
        var instances, index, err := GetInstances(replies[k]);
        lastIndex := index;
        k := k + 1;
        if err == Some(EOF) {
          stopped := true;
          TurnsAfterStop(tags, old(Abs()), replies, k);
          return;
        } else if err.Some? {
          delay := Doubled(delay);
          cache.Update(null, err);
          Notify(instances, err);
        } else {
          cache.Update(instances, None);
          delay := INITIAL_DELAY;
          Notify(instances, None);
        }
      }
      assert replies[..k] == replies;
    }
  }

  /** Turns of the loop from any state. */
  function Turns(tags: seq<string>, p: Poller, rs: seq<Reply>): Poller {
    if rs == [] then p else Round(tags, Turns(tags, p, rs[..|rs| - 1]), rs[|rs| - 1])
  }

  lemma TurnsPrefix(tags: seq<string>, p: Poller, rs: seq<Reply>, k: nat)
    requires k < |rs|
    ensures Turns(tags, p, rs[..k + 1]) == Round(tags, Turns(tags, p, rs[..k]), rs[k])
  {
    assert rs[..k + 1][..k] == rs[..k];
  }

  lemma {:induction false} TurnsAfterStop(tags: seq<string>, p: Poller, rs: seq<Reply>, k: nat)
    requires k <= |rs| && Turns(tags, p, rs[..k]).stopped
    ensures Turns(tags, p, rs) == Turns(tags, p, rs[..k])
    decreases |rs|
  {
    if k < |rs| {
      assert rs[..|rs| - 1][..k] == rs[..k];
      TurnsAfterStop(tags, p, rs[..|rs| - 1], k);
    } else {
      assert rs[..k] == rs;
    }
  }

  /** The constructor followed by the loop runs through Rounds. */
  lemma {:induction false} StartThenTurns(tags: seq<string>, rs: seq<Reply>)
    requires rs != []
    ensures Rounds(tags, rs) == Turns(tags, Start(tags, rs[0]), rs[1..])
  {
    if |rs| <= 1 {
    } else {
      var init := rs[..|rs| - 1];
      StartThenTurns(tags, init);
      assert rs[1..][..|rs| - 2] == init[1..];
    }
  }

  // ---- facts about every run of rounds ----

  /** Every successful call of the listener carries a tag map whose keys are its instances. */
  lemma {:induction false} CallsCarryTheirTags(tags: seq<string>, rs: seq<Reply>)
    ensures forall c :: c in Rounds(tags, rs).calls && c.Ok() ==>
              c.tagMap.Keys == Elements(c.instances) && Sorted(c.instances)
  {
    if rs == [] {
    } else {
      CallsCarryTheirTags(tags, rs[..|rs| - 1]);
      var r := rs[|rs| - 1];
      if r.Found? {
        var es := Selected(r.entries, tags);
        TagKeys(es);
        SortElements(InstancesOf(es));
        SortIsSorted(InstancesOf(es));
      }
    }
  }

  function EventOf(m: Msg): Cache.Event {
    Cache.Event(if m.Ok() then Some(m.instances) else None, m.err)
  }

  predicate Tells(held: Cache.Event, calls: seq<Msg>) {
    held == if calls == [] then Cache.PRISTINE else EventOf(calls[|calls| - 1])
  }

  /** The cache holds what the listener was last told. */
  lemma {:induction false} HeldIsLastCall(tags: seq<string>, rs: seq<Reply>)
    ensures Tells(Rounds(tags, rs).held, Rounds(tags, rs).calls)
  {
    if rs == [] {
    } else {
      HeldIsLastCall(tags, rs[..|rs| - 1]);
    }
  }

  // ---- what the listener is told of a reply ----

  /** A message tells of a failure by its error and no instances. Of a found list it tells the
      instances of the entries to keep, sorted, and the tags that the last of them for each has. */
  ghost predicate Reports(tags: seq<string>, r: Reply, m: Msg) {
    match r
    case Failed(err) => m.instances == [] && m.err == Some(err)
    case Found(es, _) => m.err == None && exists ps :: Kept(ps, es, tags) && Shows(At(es, ps), m)
  }

  predicate Shows(es: seq<ServiceEntry>, m: Msg) {
    && Sorted(m.instances) && multiset(m.instances) == multiset(InstancesOf(es))
    && m.tagMap.Keys == Elements(m.instances) && TagsOfLast(es, m.tagMap)
  }

  predicate TagsOfLast(es: seq<ServiceEntry>, tagMap: TagMap) {
    forall i :: 0 <= i < |es| && (forall j :: i < j < |es| ==> InstanceOf(es[j]) != InstanceOf(es[i])) ==>
      InstanceOf(es[i]) in tagMap && tagMap[InstanceOf(es[i])] == es[i].tags
  }

  lemma SnapshotShows(es: seq<ServiceEntry>)
    ensures Shows(es, Msg(Sort(InstancesOf(es)), TagsOf(es), None))
  {
    SortIsSorted(InstancesOf(es));
    SortElements(InstancesOf(es));
    TagKeys(es);
    forall i | 0 <= i < |es| && (forall j :: i < j < |es| ==> InstanceOf(es[j]) != InstanceOf(es[i]))
      ensures InstanceOf(es[i]) in TagsOf(es) && TagsOf(es)[InstanceOf(es[i])] == es[i].tags
    {
      LastEntryWins(es, i);
    }
  }

  lemma FoundReports(tags: seq<string>, es: seq<ServiceEntry>, index: nat)
    ensures var kept := Selected(es, tags);
            Reports(tags, Found(es, index), Msg(Sort(InstancesOf(kept)), TagsOf(kept), None))
  {
    var ps := SelectedAt(es, tags);
    SnapshotShows(Selected(es, tags));
  }

  /** How many replies are reported: those before the first io.EOF that the loop sees. */
  function Reported(rs: seq<Reply>): (n: nat)
    ensures n <= |rs|
  {
    if rs == [] then 0
    else
      var n := Reported(rs[..|rs| - 1]);
      if n < |rs| - 1 || (|rs| > 1 && rs[|rs| - 1] == Failed(EOF)) then n else n + 1
  }

  lemma {:induction false} ReportedIff(rs: seq<Reply>)
    ensures forall i :: 1 <= i < Reported(rs) ==> rs[i] != Failed(EOF)
    ensures Reported(rs) < |rs| ==> Reported(rs) >= 1 && rs[Reported(rs)] == Failed(EOF)
  {
    if rs == [] {
    } else {
      ReportedIff(rs[..|rs| - 1]);
    }
  }

  predicate SameTags(calls: seq<Msg>, i: nat)
    requires i < |calls|
  {
    calls[i].tagMap == if i == 0 then map[] else calls[i - 1].tagMap
  }

  /** The listener is told of the replies one by one, up to the first io.EOF after the
      constructor's; with a failure comes the tag map of the call before. */
  ghost predicate CallsOk(tags: seq<string>, rs: seq<Reply>, p: Poller) {
    && |p.calls| == Reported(rs)
    && (p.stopped <==> Reported(rs) < |rs|)
    && p.tagMap == (if p.calls == [] then map[] else p.calls[|p.calls| - 1].tagMap)
    && forall i :: 0 <= i < |p.calls| ==>
         Reports(tags, rs[i], p.calls[i]) && (rs[i].Failed? ==> SameTags(p.calls, i))
  }

  lemma OneMoreReport(tags: seq<string>, rs: seq<Reply>, p: Poller, p': Poller, m: Msg)
    requires rs != [] && CallsOk(tags, rs[..|rs| - 1], p) && !p.stopped && !p'.stopped
    requires |rs| == 1 || rs[|rs| - 1] != Failed(EOF)
    requires p'.calls == p.calls + [m] && p'.tagMap == m.tagMap
    requires Reports(tags, rs[|rs| - 1], m) && (rs[|rs| - 1].Failed? ==> m.tagMap == p.tagMap)
    ensures CallsOk(tags, rs, p')
  {
    AllReported(rs);
    forall i | 0 <= i < |p.calls|
      ensures Reports(tags, rs[i], p'.calls[i]) && (rs[i].Failed? ==> SameTags(p'.calls, i))
    {
      EarlierReport(tags, rs, p, m, i);
    }
  }

  lemma AllReported(rs: seq<Reply>)
    requires rs != [] && Reported(rs[..|rs| - 1]) == |rs| - 1 && (|rs| == 1 || rs[|rs| - 1] != Failed(EOF))
    ensures Reported(rs) == |rs|
  {
  }

  lemma EarlierReport(tags: seq<string>, rs: seq<Reply>, p: Poller, m: Msg, i: nat)
    requires rs != [] && CallsOk(tags, rs[..|rs| - 1], p) && i < |p.calls|
    ensures Reports(tags, rs[i], (p.calls + [m])[i]) && (rs[i].Failed? ==> SameTags(p.calls + [m], i))
  {
    assert rs[..|rs| - 1][i] == rs[i] && (p.calls + [m])[i] == p.calls[i];
    assert rs[i].Failed? ==> SameTags(p.calls, i);
  }

  lemma NoMoreReport(tags: seq<string>, rs: seq<Reply>, p: Poller, p': Poller)
    requires rs != [] && CallsOk(tags, rs[..|rs| - 1], p)
    requires p.stopped || (|rs| > 1 && rs[|rs| - 1] == Failed(EOF))
    requires p'.calls == p.calls && p'.tagMap == p.tagMap && p'.stopped
    ensures CallsOk(tags, rs, p')
  {
    forall i | 0 <= i < |p.calls|
      ensures Reports(tags, rs[i], p.calls[i]) && (rs[i].Failed? ==> SameTags(p.calls, i))
    {
      assert rs[..|rs| - 1][i] == rs[i];
    }
  }

  /** What a reply adds, in the constructor or in a loop that has not stopped. */
  lemma ReplyAdds(tags: seq<string>, p: Poller, r: Reply, p': Poller)
    requires !p.stopped
    requires (r != Failed(EOF) && p' == Round(tags, p, r)) || (p == BLANK && p' == Start(tags, r))
    ensures !p'.stopped && |p'.calls| == |p.calls| + 1
    ensures var m := p'.calls[|p.calls|];
            p'.calls == p.calls + [m] && p'.tagMap == m.tagMap && Reports(tags, r, m) &&
            (r.Failed? ==> m.tagMap == p.tagMap)
  {
    if r.Found? {
      FoundReports(tags, r.entries, r.index);
    }
  }

  lemma {:induction false} CallsReport(tags: seq<string>, rs: seq<Reply>)
    ensures CallsOk(tags, rs, Rounds(tags, rs))
  {
    if rs == [] {
    } else {
      var init, r := rs[..|rs| - 1], rs[|rs| - 1];
      var p, p' := Rounds(tags, init), Rounds(tags, rs);
      CallsReport(tags, init);
      if p.stopped || (|rs| > 1 && r == Failed(EOF)) {
        NoMoreReport(tags, rs, p, p');
      } else {
        ReplyAdds(tags, p, r, p');
        OneMoreReport(tags, rs, p, p', p'.calls[|p.calls|]);
      }
    }
  }

  /** The next query waits for a change past the index of a success, and after a failure or at the
      start for none. */
  lemma {:induction false} IndexIsLatest(tags: seq<string>, rs: seq<Reply>)
    ensures rs == [] || Failed(EOF) in rs[1..] ==> Rounds(tags, rs).lastIndex == 0
    ensures rs != [] && Failed(EOF) !in rs[1..] ==>
              Rounds(tags, rs).lastIndex == if rs[|rs| - 1].Found? then rs[|rs| - 1].index else 0
  {
    if |rs| <= 1 {
    } else {
      var init, last := rs[..|rs| - 1], rs[|rs| - 1];
      IndexIsLatest(tags, init);
      StoppedIff(tags, init);
      assert rs[1..] == init[1..] + [last];
    }
  }

  /** Failures of the loop since its last success or its start. */
  function Streak(rs: seq<Reply>): nat {
    if |rs| <= 1 || rs[|rs| - 1].Found? then 0 else 1 + Streak(rs[..|rs| - 1])
  }

  /** After the reply at i, the constructor's or a success, everything failed: that is the streak. */
  lemma {:induction false} StreakIff(rs: seq<Reply>, i: nat)
    requires i < |rs|
    ensures Streak(rs) == |rs| - 1 - i <==>
            (i == 0 || rs[i].Found?) && forall j :: i < j < |rs| ==> rs[j].Failed?
  {
    var n := |rs| - 1;
    StreakBound(rs);
    if i < n {
      StreakIff(rs[..n], i);
      assert (forall j :: i < j < |rs| ==> rs[j].Failed?) <==> rs[n].Failed? && forall j :: i < j < n ==> rs[j].Failed?;
    }
  }

  lemma {:induction false} StreakBound(rs: seq<Reply>)
    ensures Streak(rs) < |rs| || rs == []
  {
    if |rs| <= 1 {
    } else {
      StreakBound(rs[..|rs| - 1]);
    }
  }

  /** So, while the loop runs, k failures in a row after a success or the start make the delay. */
  lemma DelayAfterFailures(tags: seq<string>, rs: seq<Reply>, i: nat)
    requires i < |rs| && Failed(EOF) !in rs[1..]
    requires (i == 0 || rs[i].Found?) && forall j :: i < j < |rs| ==> rs[j].Failed?
    ensures Rounds(tags, rs).delay == DelayAfter(|rs| - 1 - i)
  {
    StoppedIff(tags, rs);
    DelayIsStreak(tags, rs);
    StreakIff(rs, i);
  }

  /** io.EOF ends the loop wherever it comes from, but not the constructor. */
  lemma {:induction false} StoppedIff(tags: seq<string>, rs: seq<Reply>)
    ensures Rounds(tags, rs).stopped <==> rs != [] && Failed(EOF) in rs[1..]
  {
    if |rs| <= 1 {
    } else {
      var init, last := rs[..|rs| - 1], rs[|rs| - 1];
      StoppedIff(tags, init);
      assert rs[1..] == init[1..] + [last];
    }
  }

  /** While the loop runs, its delay depends on the streak alone, and one success resets it. */
  lemma {:induction false} DelayIsStreak(tags: seq<string>, rs: seq<Reply>)
    requires !Rounds(tags, rs).stopped
    ensures Rounds(tags, rs).delay == DelayAfter(Streak(rs))
  {
    if |rs| <= 1 {
    } else {
      var before := Rounds(tags, rs[..|rs| - 1]);
      DelayIsStreak(tags, rs[..|rs| - 1]);
      RoundDelay(tags, before, rs[|rs| - 1]);
    }
  }

  lemma RoundDelay(tags: seq<string>, p: Poller, r: Reply)
    requires !Round(tags, p, r).stopped
    ensures !p.stopped
    ensures Round(tags, p, r).delay == if r.Found? then INITIAL_DELAY else Doubled(p.delay)
  {
  }
}
