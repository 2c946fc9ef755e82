/** The broadcasting cache of discovery states (client/sd/instancer/cache.go). */
module Cache {
  import opened Wrappers
  import opened Ordering

  /** sd.Event. A nil slice and an empty one differ under reflect.DeepEqual. */
  datatype Event = Event(instances: Option<seq<string>>, err: Option<Error>)

  const PRISTINE := Event(None, None)

  type Channel = nat

  /** sort.Strings acts on the event's slice before the comparison. */
  function Canonical(e: Event): Event {
    match e.instances
    case None => e
    case Some(s) => Event(Some(Sort(s)), e.err)
  }

  /** What the cache holds, who is registered, and everything ever sent on each channel. */
  datatype State = State(current: Event, registered: set<Channel>, sent: map<Channel, seq<Event>>)

  const FRESH := State(PRISTINE, {}, map[])

  function Received(s: State, ch: Channel): seq<Event> {
    if ch in s.sent then s.sent[ch] else []
  }

  function Deliver(s: State, chs: set<Channel>, e: Event): map<Channel, seq<Event>> {
    map ch | ch in s.sent.Keys + chs :: if ch in chs then Received(s, ch) + [e] else s.sent[ch]
  }

  datatype Call = Update(event: Event) | Register(ch: Channel) | Deregister(ch: Channel)

  function Step(s: State, c: Call): State {
    match c
    case Update(e) =>
      var e' := Canonical(e);
      if s.current == e' then s else s.(current := e', sent := Deliver(s, s.registered, e'))
    case Register(ch) =>
      s.(registered := s.registered + {ch}, sent := Deliver(s, {ch}, s.current))
    case Deregister(ch) => s.(registered := s.registered - {ch})
  }

  /** The state after a run of calls; the mutex makes each call one step. */
  function Run(s: State, calls: seq<Call>): State {
    if calls == [] then s else Step(Run(s, calls[..|calls| - 1]), calls[|calls| - 1])
  }

  class Cache {
    var current: Event
    var registered: set<Channel>
    var sent: map<Channel, seq<Event>>

    function Abs(): State
      reads this
    {
      State(current, registered, sent)
    }

    constructor ()
      ensures Abs() == FRESH
    {
      current, registered, sent := PRISTINE, {}, map[];
    }

    /** Sorts the caller's slice in place, then stores and broadcasts it unless it is already held. */
    method Update(instances: array?<string>, err: Option<Error>)
      modifies this, instances
      ensures instances != null ==> instances[..] == Sort(old(instances[..]))
      ensures Abs() == Step(old(Abs()),
                            Call.Update(Event(if instances == null then None else Some(old(instances[..])), err)))
    {
      if instances != null {
        SortStrings(instances);
      }
      var event := Event(if instances == null then None else Some(instances[..]), err);
      if current == event {
        return;
      }
      current := event;
      Broadcast(event);
    }

    method Broadcast(event: Event)
      modifies this`sent
      ensures sent == Deliver(old(Abs()), registered, event)
    {
      var remaining := registered;
      while remaining != {}
        invariant remaining <= registered
        invariant sent == Deliver(old(Abs()), registered - remaining, event)
        decreases remaining
      {
        var ch :| ch in remaining;
        sent := sent[ch := (if ch in sent then sent[ch] else []) + [event]];
        remaining := remaining - {ch};
      }
    }

    /** A new channel is handed the current state at once. */
    method Register(ch: Channel)
      modifies this
      ensures Abs() == Step(old(Abs()), Call.Register(ch))
    {
      registered := registered + {ch};
      sent := sent[ch := (if ch in sent then sent[ch] else []) + [current]];
    }

    method Deregister(ch: Channel)
      modifies this
      ensures Abs() == Step(old(Abs()), Call.Deregister(ch))
    {
      registered := registered - {ch};
    }
  }

  /** sort.Strings: rearranges the slice into ascending order, in place. The library's algorithm is
      not part of this model; by Ordering.SortedUnique its result is this one whatever it does. */
  method SortStrings(a: array<string>)
    modifies a
    ensures a[..] == Sort(old(a[..]))
  {
    var sorted := Sort(a[..]);
    SortElements(a[..]);
    forall i | 0 <= i < a.Length {
      a[i] := sorted[i];
    }
  }

  // ---- canonical form and deduplication ----

  predicate IsCanonical(e: Event) {
    e.instances.Some? ==> Sorted(e.instances.value)
  }

  /** Whatever the calls, the cached instances are sorted. */
  lemma {:induction false} AlwaysCanonical(calls: seq<Call>)
    ensures IsCanonical(Run(FRESH, calls).current)
  {
    if calls == [] {
    } else {
      AlwaysCanonical(calls[..|calls| - 1]);
      var last := calls[|calls| - 1];
      if last.Update? && last.event.instances.Some? {
        SortIsSorted(last.event.instances.value);
      }
    }
  }

  /** An update is silent exactly when it rearranges the list already held and carries the same
      error; a nil list only matches a nil list. */
  lemma SilentIffRearrangement(calls: seq<Call>, e: Event)
    ensures var s := Run(FRESH, calls);
            Step(s, Update(e)) == s <==>
            && s.current.err == e.err
            && (e.instances.None? <==> s.current.instances.None?)
            && (e.instances.Some? ==> multiset(e.instances.value) == multiset(s.current.instances.value))
  {
    AlwaysCanonical(calls);
    var held := Run(FRESH, calls).current;
    if e.instances.Some? {
      SortIsSorted(e.instances.value);
    }
    if e.instances.Some? && held.instances.Some? && multiset(e.instances.value) == multiset(held.instances.value) {
      SortedUnique(Sort(e.instances.value), held.instances.value);
    }
  }

  // ---- what a subscriber sees ----

  /** The successive different states that a run of calls goes through after `from`. */
  function Changes(from: Event, calls: seq<Call>): (r: seq<Event>) {
    if calls == [] then []
    else
      var before := Changes(from, calls[..|calls| - 1]);
      match calls[|calls| - 1]
      case Update(e) => if Last(from, before) == Canonical(e) then before else before + [Canonical(e)]
      case _ => before
  }

  function Last(from: Event, es: seq<Event>): Event {
    if es == [] then from else es[|es| - 1]
  }

  function OneMore(from: Event, changes: seq<Event>, c: Call): seq<Event> {
    if c.Update? && Last(from, changes) != Canonical(c.event) then changes + [Canonical(c.event)] else changes
  }

  lemma ChangesSnoc(from: Event, calls: seq<Call>, c: Call)
    ensures Changes(from, calls + [c]) == OneMore(from, Changes(from, calls), c)
  {
    assert (calls + [c])[..|calls|] == calls;
  }

  predicate Mentions(calls: seq<Call>, ch: Channel) {
    exists i :: 0 <= i < |calls| && (calls[i] == Register(ch) || calls[i] == Deregister(ch))
  }

  /** On top of `start` the channel has received these changes and nothing else. */
  predicate Heard(from: Event, start: seq<Event>, changes: seq<Event>, r: State, ch: Channel) {
    && ch in r.registered
    && Received(r, ch) == start + changes
    && r.current == Last(from, changes)
  }

  lemma HistoryStep(from: Event, start: seq<Event>, changes: seq<Event>, r: State, ch: Channel, c: Call)
    requires c != Register(ch) && c != Deregister(ch) && Heard(from, start, changes, r, ch)
    ensures Heard(from, start, OneMore(from, changes, c), Step(r, c), ch)
  {
    OneMoreCall(r, ch, c);
  }

  lemma {:induction false} HistoryFrom(from: Event, start: seq<Event>, r: State, ch: Channel, calls: seq<Call>)
    requires Heard(from, start, [], r, ch) && !Mentions(calls, ch)
    ensures Heard(from, start, Changes(from, calls), Run(r, calls), ch)
  {
    if calls == [] {
    } else {
      var before, last := calls[..|calls| - 1], calls[|calls| - 1];
      assert forall i :: 0 <= i < |before| ==> before[i] == calls[i];
      HistoryFrom(from, start, r, ch, before);
      assert calls == before + [last];
      assert last != Register(ch) && last != Deregister(ch);
      HistoryStep(from, start, Changes(from, before), Run(r, before), ch, last);
      ChangesSnoc(from, before, last);
    }
  }

  /** From its registration on, and as long as it is not registered again or removed, a channel
      receives the state at registration followed by every later change, in order. */
  lemma {:induction false} SubscriberHistory(s: State, ch: Channel, calls: seq<Call>)
    requires !Mentions(calls, ch)
    ensures var r := Run(Step(s, Register(ch)), calls);
            && ch in r.registered
            && Received(r, ch) == Received(s, ch) + [s.current] + Changes(s.current, calls)
            && r.current == Last(s.current, Changes(s.current, calls))
  {
    var start := Received(s, ch) + [s.current];
    assert start + [] == start;
    HistoryFrom(s.current, Received(s, ch) + [s.current], Step(s, Register(ch)), ch, calls);
  }

  /** A subscriber hears of an update if and only if it changes the state, and of no other call. */
  lemma OneMoreCall(s: State, ch: Channel, c: Call)
    requires ch in s.registered && c != Register(ch) && c != Deregister(ch)
    ensures ch in Step(s, c).registered
    ensures Step(s, c).current == if c.Update? then Canonical(c.event) else s.current
    ensures Received(Step(s, c), ch) ==
            Received(s, ch) + if Step(s, c).current == s.current then [] else [Step(s, c).current]
  {
  }

  /** Once removed, and until it is registered again, a channel receives nothing. */
  lemma {:induction false} RemovedHearsNothing(s: State, ch: Channel, calls: seq<Call>)
    requires forall i :: 0 <= i < |calls| ==> calls[i] != Register(ch)
    ensures var r := Run(Step(s, Deregister(ch)), calls);
            ch !in r.registered && Received(r, ch) == Received(s, ch)
  {
    if calls == [] {
    } else {
      var before, last := calls[..|calls| - 1], calls[|calls| - 1];
      assert forall i :: 0 <= i < |before| ==> before[i] == calls[i];
      RemovedHearsNothing(s, ch, before);
      assert last != Register(ch);
      OthersCall(Run(Step(s, Deregister(ch)), before), ch, last);
    }
  }

  lemma OthersCall(s: State, ch: Channel, c: Call)
    requires ch !in s.registered && c != Register(ch)
    ensures ch !in Step(s, c).registered && Received(Step(s, c), ch) == Received(s, ch)
  {
  }

  /** Consecutive entries of that history differ. */
  lemma {:induction false} ChangesDiffer(from: Event, calls: seq<Call>)
    ensures var h := [from] + Changes(from, calls);
            forall i :: 0 <= i < |h| - 1 ==> h[i] != h[i + 1]
  {
    if calls == [] {
    } else {
      var before := calls[..|calls| - 1];
      ChangesDiffer(from, before);
      var h := [from] + Changes(from, before);
      assert h[|h| - 1] == Last(from, Changes(from, before));
      assert Changes(from, calls) != Changes(from, before) ==>
          [from] + Changes(from, calls) == h + [Canonical(calls[|calls| - 1].event)];
    }
  }
}
