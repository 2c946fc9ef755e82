/** The consul watcher: full snapshots in, Add/Delete deltas out (client/grpc/consul_naming.go). */
module Naming {
  import opened Wrappers
  import opened Ordering
  import Text

  /** updateMsg: one call of the instancer's listener. */
  datatype Msg = Msg(instances: seq<string>, tagMap: TagMap, err: Option<Error>) {
    predicate Ok() { err.None? }
  }

  datatype Operation = Add | Delete

  /** naming.Update; a Delete carries no metadata. */
  datatype Update = Update(op: Operation, addr: string, metadata: Option<string>)

  /** The watcher's entries: nil until the first successful message. */
  type Entries = Option<set<string>>

  function Live(e: Entries): set<string> {
    match e case None => {} case Some(live) => live
  }

  /** strings.Join(tm[i], ","): a missing key reads as no tags. */
  function Label(m: Msg, addr: string): string {
    Text.Join(if addr in m.tagMap then m.tagMap[addr] else [], ",")
  }

  // ---- one message ----

  function AddOf(m: Msg, was: set<string>, addr: string): seq<Update> {
    if addr in was then [] else [Update(Add, addr, Some(Label(m, addr)))]
  }

  function DeleteOf(addr: string, now: set<string>): seq<Update> {
    if addr in now then [] else [Update(Delete, addr, None)]
  }

  /** An Add for every listed address that was not live. */
  function Adds(m: Msg, was: set<string>, listed: seq<string>): seq<Update> {
    if listed == [] then []
    else Adds(m, was, listed[..|listed| - 1]) + AddOf(m, was, listed[|listed| - 1])
  }

  /** A Delete for every visited address that is no longer listed. */
  function Deletes(order: seq<string>, now: set<string>): seq<Update> {
    if order == [] then []
    else Deletes(order[..|order| - 1], now) + DeleteOf(order[|order| - 1], now)
  }

  /** What one message makes of the entries, and the deltas it emits. */
  function UpdatesOf(e: Entries, m: Msg, order: seq<string>): seq<Update> {
    if !m.Ok() then [] else Adds(m, Live(e), m.instances) + Deletes(order, Elements(m.instances))
  }

  function NextEntries(e: Entries, m: Msg): Entries {
    if !m.Ok() then e else Some(Elements(m.instances))
  }

  lemma AddsPrefix(m: Msg, was: set<string>, listed: seq<string>, k: nat)
    requires k < |listed|
    ensures Adds(m, was, listed[..k + 1]) == Adds(m, was, listed[..k]) + AddOf(m, was, listed[k])
  {
    assert listed[..k + 1][..k] == listed[..k];
  }

  lemma DeletesPrefix(order: seq<string>, now: set<string>, k: nat)
    requires k < |order|
    ensures Deletes(order[..k + 1], now) == Deletes(order[..k], now) + DeleteOf(order[k], now)
  {
    assert order[..k + 1][..k] == order[..k];
  }

  class ConsulWatcher {
    var entries: Entries

    constructor ()
      ensures entries == None
    {
      entries := None;
    }

    /** Both branches, the first-message one on nil entries and the general one, compute the same
        function of the live set. `order` is the order of the range over the entries. */
    method MakeUpdates(msg: Msg, order: seq<string>) returns (updates: seq<Update>)
      requires Visits(order, Live(entries))
      modifies this
      ensures updates == UpdatesOf(old(entries), msg, order)
      ensures entries == NextEntries(old(entries), msg)
    {
      if msg.err.Some? {
        updates := [];
      } else if entries.None? {
        NoDuplicatesSize(order);
        updates := FirstUpdates(msg);
      } else {
        var adds, ne, toadd := FindAdded(msg);
        var dels, todel := FindDeleted(order, ne);
        updates := adds + dels;
        UpdateEntries(toadd, todel);
        assert old(Live(entries)) + (ne - old(Live(entries))) - (old(Live(entries)) - ne) == ne;
      }
    }

    /** The first snapshot: every listed address is added. */
    method FirstUpdates(msg: Msg) returns (updates: seq<Update>)
      requires entries.None?
      modifies this
      ensures updates == Adds(msg, {}, msg.instances)
      ensures entries == Some(Elements(msg.instances))
    {
      var listed := msg.instances;
      updates := [];
      entries := Some({});
      assert Elements([]) == {};
      for k := 0 to |listed|
        invariant updates == Adds(msg, {}, listed[..k])
        invariant entries.Some? && entries.value == Elements(listed[..k])
      {
        AddsPrefix(msg, {}, listed, k);
        ElementsPrefix(listed, k);
        updates := updates + [Update(Add, listed[k], Some(Label(msg, listed[k])))];
        entries := Some(entries.value + {listed[k]});
      }
      assert listed[..|listed|] == listed;
    }

    /** The later snapshots' first loop: what is listed and what of it is new. */
    method FindAdded(msg: Msg) returns (updates: seq<Update>, ne: set<string>, toadd: seq<string>)
      requires entries.Some?
      ensures updates == Adds(msg, entries.value, msg.instances)
      ensures ne == Elements(msg.instances)
      ensures Elements(toadd) == ne - entries.value
    {
      var listed := msg.instances;
      updates, ne, toadd := [], {}, [];
      for k := 0 to |listed|
        invariant updates == Adds(msg, entries.value, listed[..k])
        invariant ne == Elements(listed[..k])
        invariant Elements(toadd) == ne - entries.value
      {
        AddsPrefix(msg, entries.value, listed, k);
        ElementsPrefix(listed, k);
        ElementsSnoc(toadd, listed[k]);
        if listed[k] in entries.value {
          ne := ne + {listed[k]};
          continue;
        }
        updates := updates + [Update(Add, listed[k], Some(Label(msg, listed[k])))];
        toadd := toadd + [listed[k]];
        ne := ne + {listed[k]};
      }
      assert listed[..|listed|] == listed;
    }

    /** The second loop, over the entries: what is no longer listed. */
    method FindDeleted(order: seq<string>, ne: set<string>) returns (updates: seq<Update>, todel: seq<string>)
      ensures updates == Deletes(order, ne)
      ensures Elements(todel) == Elements(order) - ne
    {
      updates, todel := [], [];
      for k := 0 to |order|
        invariant updates == Deletes(order[..k], ne)
        invariant Elements(todel) == Elements(order[..k]) - ne
      {
        DeletesPrefix(order, ne, k);
        ElementsPrefix(order, k);
        ElementsSnoc(todel, order[k]);
        if order[k] in ne {
          continue;
        }
        updates := updates + [Update(Delete, order[k], None)];
        todel := todel + [order[k]];
      }
      assert order[..|order|] == order;
    }

    /** The last two loops bring the entries up to date. */
    method UpdateEntries(toadd: seq<string>, todel: seq<string>)
      requires entries.Some?
      modifies this
      ensures entries == Some(old(entries.value) + Elements(toadd) - Elements(todel))
    {
      for k := 0 to |toadd|
        invariant entries.Some? && entries.value == old(entries.value) + Elements(toadd[..k])
      {
        ElementsPrefix(toadd, k);
        entries := Some(entries.value + {toadd[k]});
      }
      assert toadd[..|toadd|] == toadd;
      for k := 0 to |todel|
        invariant entries.Some? && entries.value == old(entries.value) + Elements(toadd) - Elements(todel[..k])
      {
        ElementsPrefix(todel, k);
        entries := Some(entries.value - {todel[k]});
      }
      assert todel[..|todel|] == todel;
    }
  }

  // ---- a message is an exact diff ----

  function Addresses(us: seq<Update>, op: Operation): set<string> {
    set u | u in us && u.op == op :: u.addr
  }

  lemma AddressesConcat(us: seq<Update>, vs: seq<Update>, op: Operation)
    ensures Addresses(us + vs, op) == Addresses(us, op) + Addresses(vs, op)
  {
    assert forall u :: u in us + vs <==> u in us || u in vs;
  }

  lemma {:induction false} AddsExact(m: Msg, was: set<string>, listed: seq<string>)
    ensures Addresses(Adds(m, was, listed), Add) == Elements(listed) - was
    ensures Addresses(Adds(m, was, listed), Delete) == {}
  {
    if listed == [] {
    } else {
      var init, last := listed[..|listed| - 1], listed[|listed| - 1];
      AddsExact(m, was, init);
      AddressesConcat(Adds(m, was, init), AddOf(m, was, last), Add);
      AddressesConcat(Adds(m, was, init), AddOf(m, was, last), Delete);
      ElementsLast(listed);
    }
  }

  lemma {:induction false} AddsCount(m: Msg, was: set<string>, listed: seq<string>)
    requires NoDuplicates(listed)
    ensures |Adds(m, was, listed)| == |Elements(listed) - was|
  {
    if listed == [] {
    } else {
      AddsCount(m, was, listed[..|listed| - 1]);
      GrowDifference(listed, was);
    }
  }

  lemma {:induction false} DeletesExact(order: seq<string>, now: set<string>)
    ensures Addresses(Deletes(order, now), Delete) == Elements(order) - now
    ensures Addresses(Deletes(order, now), Add) == {}
  {
    if order == [] {
    } else {
      var init, last := order[..|order| - 1], order[|order| - 1];
      DeletesExact(init, now);
      AddressesConcat(Deletes(init, now), DeleteOf(last, now), Add);
      AddressesConcat(Deletes(init, now), DeleteOf(last, now), Delete);
      ElementsLast(order);
    }
  }

  lemma {:induction false} DeletesCount(order: seq<string>, now: set<string>)
    requires NoDuplicates(order)
    ensures |Deletes(order, now)| == |Elements(order) - now|
  {
    if order == [] {
    } else {
      DeletesCount(order[..|order| - 1], now);
      GrowDifference(order, now);
    }
  }

  lemma GrowDifference(s: seq<string>, out: set<string>)
    requires NoDuplicates(s) && s != []
    ensures |Elements(s) - out| == |Elements(s[..|s| - 1]) - out| + if s[|s| - 1] in out then 0 else 1
  {
    var init, last := s[..|s| - 1], s[|s| - 1];
    ElementsLast(s);
    assert last !in Elements(init);
    assert Elements(s) - out == (Elements(init) - out) + (if last in out then {} else {last});
  }

  /** Adds cover new minus old, and Deletes cover old minus new. */
  lemma ExactDiff(e: Entries, m: Msg, order: seq<string>)
    requires m.Ok() && Visits(order, Live(e))
    ensures Addresses(UpdatesOf(e, m, order), Add) == Live(NextEntries(e, m)) - Live(e)
    ensures Addresses(UpdatesOf(e, m, order), Delete) == Live(e) - Live(NextEntries(e, m))
  {
    var was, now := Live(e), Elements(m.instances);
    AddsExact(m, was, m.instances);
    DeletesExact(order, now);
    AddressesConcat(Adds(m, was, m.instances), Deletes(order, now), Add);
    AddressesConcat(Adds(m, was, m.instances), Deletes(order, now), Delete);
  }

  /** Each Delete comes once; for a list without duplicates the number of updates is the size of
      the symmetric difference. */
  lemma {:induction false} DiffSize(e: Entries, m: Msg, order: seq<string>)
    requires m.Ok() && Visits(order, Live(e))
    ensures var was, now := Live(e), Live(NextEntries(e, m));
            && |UpdatesOf(e, m, order)| == |Adds(m, was, m.instances)| + |was - now|
            && (NoDuplicates(m.instances) ==> |UpdatesOf(e, m, order)| == |(now - was) + (was - now)|)
  {
    var was, now := Live(e), Elements(m.instances);
    DeletesCount(order, now);
    if NoDuplicates(m.instances) {
      AddsCount(m, was, m.instances);
      assert |(now - was) + (was - now)| == |now - was| + |was - now|;
    }
  }

  // ---- which updates, how often, and in which order ----

  /** The update with which a message admits an address. */
  predicate Admits(m: Msg, was: set<string>, u: Update) {
    u == Update(Add, u.addr, Some(Label(m, u.addr))) && u.addr !in was
  }

  lemma AddedOnce(m: Msg, was: set<string>, addr: string, u: Update)
    ensures multiset(AddOf(m, was, addr))[u] == if Admits(m, was, u) && u.addr == addr then 1 else 0
  {
  }

  lemma Counts<T>(xs: seq<T>, ys: seq<T>, t: T)
    ensures multiset(xs + ys)[t] == multiset(xs)[t] + multiset(ys)[t]
  {
  }

  lemma {:induction false} AddsOften(m: Msg, was: set<string>, listed: seq<string>, u: Update)
    ensures multiset(Adds(m, was, listed))[u] == if Admits(m, was, u) then multiset(listed)[u.addr] else 0
  {
    if listed == [] {
    } else {
      var init, last := listed[..|listed| - 1], listed[|listed| - 1];
      AddsOften(m, was, init, u);
      AddedOnce(m, was, last, u);
      CountsOften(Adds(m, was, init), AddOf(m, was, last), u, init, last, Admits(m, was, u));
      assert listed == init + [last];
    }
  }

  lemma CountsOften(us: seq<Update>, vs: seq<Update>, u: Update, init: seq<string>, last: string, admits: bool)
    requires multiset(us)[u] == if admits then multiset(init)[u.addr] else 0
    requires multiset(vs)[u] == if admits && u.addr == last then 1 else 0
    ensures multiset(us + vs)[u] == if admits then multiset(init + [last])[u.addr] else 0
  {
    Counts(us, vs, u);
    Counts(init, [last], u.addr);
  }

  lemma {:induction false} DeletesOften(order: seq<string>, now: set<string>, u: Update)
    ensures multiset(Deletes(order, now))[u] ==
            if u == Update(Delete, u.addr, None) && u.addr !in now then multiset(order)[u.addr] else 0
  {
    if order == [] {
    } else {
      DeletesOften(order[..|order| - 1], now, u);
      assert order == order[..|order| - 1] + [order[|order| - 1]];
    }
  }

  lemma {:induction false} OnceEach(order: seq<string>, a: string)
    requires NoDuplicates(order)
    ensures multiset(order)[a] == if a in order then 1 else 0
  {
    if order == [] {
    } else {
      var init, last := order[..|order| - 1], order[|order| - 1];
      OnceEach(init, a);
      assert order == init + [last];
    }
  }

  /** How often a message gives each update: an address that is not live is added, with its label,
      for every time it is listed; a live one that is not listed is deleted once; nothing else. */
  lemma UpdatesExactly(e: Entries, m: Msg, order: seq<string>, u: Update)
    requires Visits(order, Live(e))
    ensures multiset(UpdatesOf(e, m, order))[u] ==
            if m.err.Some? then 0
            else if u == Update(Add, u.addr, Some(Label(m, u.addr))) && u.addr !in Live(e)
              then multiset(m.instances)[u.addr]
            else if u == Update(Delete, u.addr, None) && u.addr in Live(e) && u.addr !in m.instances
              then 1
            else 0
  {
    if m.Ok() {
      AddsOften(m, Live(e), m.instances, u);
      DeletesOften(order, Elements(m.instances), u);
      OnceEach(order, u.addr);
      assert u.addr in order <==> u.addr in Elements(order);
    }
  }

  /** Positions in a list, in ascending order. */
  predicate Ascending(ps: seq<nat>, n: nat) {
    (forall i :: 0 <= i < |ps| ==> ps[i] < n) && forall i, j :: 0 <= i < j < |ps| ==> ps[i] < ps[j]
  }

  /** These updates are all of one kind and concern the addresses at ascending positions of a list. */
  predicate InOrder(us: seq<Update>, op: Operation, ps: seq<nat>, addrs: seq<string>) {
    && |us| == |ps| && Ascending(ps, |addrs|)
    && forall i :: 0 <= i < |us| ==> us[i].op == op && us[i].addr == addrs[ps[i]]
  }

  lemma InOrderSnoc(us: seq<Update>, op: Operation, ps: seq<nat>, addrs: seq<string>, more: seq<Update>)
    requires addrs != [] && InOrder(us, op, ps, addrs[..|addrs| - 1])
    requires more == [] || (|more| == 1 && more[0].op == op && more[0].addr == addrs[|addrs| - 1])
    ensures InOrder(us + more, op, if more == [] then ps else ps + [|addrs| - 1], addrs)
  {
  }

  lemma {:induction false} AddsOrder(m: Msg, was: set<string>, listed: seq<string>) returns (ps: seq<nat>)
    ensures InOrder(Adds(m, was, listed), Add, ps, listed)
  {
    ps := [];
    if listed == [] {
    } else {
      var n := |listed| - 1;
      ps := AddsOrder(m, was, listed[..n]);
      InOrderSnoc(Adds(m, was, listed[..n]), Add, ps, listed, AddOf(m, was, listed[n]));
      ps := if listed[n] in was then ps else ps + [n];
    }
  }

  lemma {:induction false} DeletesOrder(order: seq<string>, now: set<string>) returns (qs: seq<nat>)
    ensures InOrder(Deletes(order, now), Delete, qs, order)
  {
    qs := [];
    if order == [] {
    } else {
      var n := |order| - 1;
      qs := DeletesOrder(order[..n], now);
      InOrderSnoc(Deletes(order[..n], now), Delete, qs, order, DeleteOf(order[n], now));
      qs := if order[n] in now then qs else qs + [n];
    }
  }

  /** The updates come Adds first, in the order of the list, and then Deletes, in that of the range. */
  lemma UpdatesInOrder(e: Entries, m: Msg, order: seq<string>) returns (ps: seq<nat>, qs: seq<nat>)
    ensures |UpdatesOf(e, m, order)| == |ps| + |qs|
    ensures InOrder(UpdatesOf(e, m, order)[..|ps|], Add, ps, m.instances)
    ensures InOrder(UpdatesOf(e, m, order)[|ps|..], Delete, qs, order)
  {
    ps, qs := [], [];
    if m.Ok() {
      var adds, dels := Adds(m, Live(e), m.instances), Deletes(order, Elements(m.instances));
      ps := AddsOrder(m, Live(e), m.instances);
      qs := DeletesOrder(order, Elements(m.instances));
      assert (adds + dels)[..|ps|] == adds && (adds + dels)[|ps|..] == dels;
    }
  }

  // ---- the metadata ----

  /** The tags of an instance can be read off its metadata exactly when there are tags and none has
      a comma; without any the metadata is empty. */
  lemma LabelRecoversIff(m: Msg, addr: string)
    ensures addr in m.tagMap ==>
              (Text.Split(Label(m, addr), ",") == m.tagMap[addr] <==>
               m.tagMap[addr] != [] && forall t :: t in m.tagMap[addr] ==> ',' !in t)
    ensures addr !in m.tagMap || m.tagMap[addr] == [] ==> Label(m, addr) == ""
  {
    if addr in m.tagMap {
      Text.SplitJoinIff(m.tagMap[addr], ',');
    }
  }

  // ---- what a consumer reconstructs ----

  /** A consumer's table of addresses and their metadata. */
  type View = map<string, Option<string>>

  function Apply(v: View, us: seq<Update>): View {
    if us == [] then v
    else
      var u, before := us[|us| - 1], Apply(v, us[..|us| - 1]);
      match u.op
      case Add => before[u.addr := u.metadata]
      case Delete => before - {u.addr}
  }

  lemma {:induction false} ApplyConcat(v: View, us: seq<Update>, ws: seq<Update>)
    ensures Apply(v, us + ws) == Apply(Apply(v, us), ws)
    decreases |ws|
  {
    if ws == [] {
      assert us + ws == us;
    } else {
      assert (us + ws)[..|us + ws| - 1] == us + ws[..|ws| - 1];
      ApplyConcat(v, us, ws[..|ws| - 1]);
    }
  }

  function Labels(m: Msg, addrs: set<string>): View {
    map a | a in addrs :: Some(Label(m, a))
  }

  lemma {:induction false} ApplyAdds(v: View, m: Msg, was: set<string>, listed: seq<string>)
    ensures Apply(v, Adds(m, was, listed)) == v + Labels(m, Elements(listed) - was)
  {
    if listed == [] {
    } else {
      var init, last := listed[..|listed| - 1], listed[|listed| - 1];
      ApplyAdds(v, m, was, init);
      ApplyConcat(v, Adds(m, was, init), AddOf(m, was, last));
      ApplyAdd(v + Labels(m, Elements(init) - was), m, was, last);
      ElementsLast(listed);
      LabelsUnion(v, m, Elements(init) - was, {last} - was);
      assert (Elements(init) - was) + ({last} - was) == Elements(listed) - was;
    }
  }

  lemma LabelsUnion(v: View, m: Msg, s: set<string>, t: set<string>)
    ensures v + Labels(m, s) + Labels(m, t) == v + Labels(m, s + t)
  {
  }

  lemma ApplyAdd(v: View, m: Msg, was: set<string>, addr: string)
    ensures Apply(v, AddOf(m, was, addr)) == v + Labels(m, {addr} - was)
  {
    assert AddOf(m, was, addr) != [] ==> Apply(v, AddOf(m, was, addr)[..0]) == v;
  }

  lemma {:induction false} ApplyDeletes(v: View, order: seq<string>, now: set<string>)
    ensures Apply(v, Deletes(order, now)) == v - (Elements(order) - now)
  {
    if order == [] {
    } else {
      var init, last := order[..|order| - 1], order[|order| - 1];
      ApplyDeletes(v, init, now);
      ApplyConcat(v, Deletes(init, now), DeleteOf(last, now));
      ApplyDelete(v - (Elements(init) - now), last, now);
      ElementsLast(order);
    }
  }

  lemma ApplyDelete(v: View, addr: string, now: set<string>)
    ensures Apply(v, DeleteOf(addr, now)) == v - ({addr} - now)
  {
    assert DeleteOf(addr, now) != [] ==> Apply(v, DeleteOf(addr, now)[..0]) == v;
  }

  /** What a snapshot makes of a consumer's table: exactly its addresses, the ones already there
      keeping the metadata they have. */
  function Absorb(v: View, m: Msg): View {
    if !m.Ok() then v
    else map a | a in Elements(m.instances) :: if a in v then v[a] else Some(Label(m, a))
  }

  lemma AbsorbInParts(v: View, m: Msg)
    requires m.Ok()
    ensures Absorb(v, m) == v + Labels(m, Elements(m.instances) - v.Keys) - (v.Keys - Elements(m.instances))
  {
  }

  /** Applying a message's deltas has the effect of the whole snapshot. */
  lemma DeltasAbsorb(e: Entries, v: View, m: Msg, order: seq<string>)
    requires v.Keys == Live(e) && Visits(order, Live(e))
    ensures Apply(v, UpdatesOf(e, m, order)) == Absorb(v, m)
    ensures Absorb(v, m).Keys == Live(NextEntries(e, m))
  {
    if m.Ok() {
      var adds := Adds(m, Live(e), m.instances);
      ApplyAdds(v, m, Live(e), m.instances);
      ApplyConcat(v, adds, Deletes(order, Elements(m.instances)));
      ApplyDeletes(Apply(v, adds), order, Elements(m.instances));
      AbsorbInParts(v, m);
    }
  }

  // ---- runs of messages ----

  function EntriesAfter(ms: seq<Msg>): Entries {
    if ms == [] then None else NextEntries(EntriesAfter(ms[..|ms| - 1]), ms[|ms| - 1])
  }

  /** The table of a consumer that saw every snapshot of a run. */
  function ViewAfter(ms: seq<Msg>): (v: View)
    ensures v.Keys == Live(EntriesAfter(ms))
  {
    if ms == [] then map[] else Absorb(ViewAfter(ms[..|ms| - 1]), ms[|ms| - 1])
  }

  /** Message j listed the address, it was not live just before, and no later snapshot dropped it. */
  predicate AdmittedBy(ms: seq<Msg>, a: string, j: nat) {
    && j < |ms|
    && ms[j].Ok() && a in ms[j].instances
    && a !in Live(EntriesAfter(ms[..j]))
    && forall k :: j < k < |ms| && ms[k].Ok() ==> a in ms[k].instances
  }

  /** The metadata of a live address is the tags of the message that last admitted it: later tag
      changes of a continuously live address never reach the consumer. */
  lemma {:induction false} MetadataHistory(ms: seq<Msg>, a: string, j: nat)
    requires AdmittedBy(ms, a, j)
    ensures a in ViewAfter(ms) && ViewAfter(ms)[a] == Some(Label(ms[j], a))
    decreases |ms|
  {
    var init := ms[..|ms| - 1];
    if j < |init| {
      assert init[..j] == ms[..j];
      assert AdmittedBy(init, a, j);
      MetadataHistory(init, a, j);
    } else {
      assert ms[..j] == init;
    }
  }

  /** Every live address has such a message, and no other address has one. */
  lemma {:induction false} LiveIffAdmitted(ms: seq<Msg>, a: string)
    ensures a in ViewAfter(ms) <==> exists j: nat :: AdmittedBy(ms, a, j)
    decreases |ms|
  {
    if j: nat :| AdmittedBy(ms, a, j) {
      MetadataHistory(ms, a, j);
    }
    if a in ViewAfter(ms) {
      var init, n := ms[..|ms| - 1], |ms| - 1;
      if a in ViewAfter(init) {
        LiveIffAdmitted(init, a);
        var j: nat :| AdmittedBy(init, a, j);
        assert init[..j] == ms[..j];
        assert forall k :: 0 <= k < n ==> init[k] == ms[k];
        assert AdmittedBy(ms, a, j);
      } else {
        assert AdmittedBy(ms, a, n);
      }
    }
  }
}
