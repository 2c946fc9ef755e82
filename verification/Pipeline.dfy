/** The whole discovery pipeline as an interleaving of the polling loop, its query goroutines, the
    bounded channel and the watcher (consul_instancer.go, cache.go and consul_naming.go). */
module Pipeline {
  import opened Wrappers
  import opened Ordering
  import opened Naming
  import opened Instancer
  import opened Backoff
  import Cache
  import Text

  const CAPACITY := 1

  /** A query goroutine: asking Consul; its tag map published but its result not yet sent; done. */
  datatype Query = Asking | Published(reply: Reply) | Answered(reply: Reply)

  /** Where the goroutine of the instancer stands. */
  datatype Place =
    | Top                  // about to start a query
    | Awaiting(round: nat) // in the select of getInstances
    | Sleeping             // backing off
    | Updating             // about to update the cache
    | Notifying            // about to call the listener
    | Sending(msg: Msg)    // in the listener, sending on the channel
    | Stopped

  datatype State = State(
    place: Place,
    queries: map<nat, Query>, // every query goroutine ever started, by round
    round: nat,
    tagMap: TagMap,
    held: Cache.Event,
    lastIndex: nat,           // what the next query waits to be passed
    asks: seq<nat>,           // history: what each query waited for, by round
    delay: int,
    sleeps: seq<nat>,         // history: how long each backoff slept
    quit: bool,
    channel: seq<Msg>,
    inHand: Option<Msg>,      // received by Next, not yet turned into updates
    entries: Entries,
    replies: seq<Reply>,      // history: what the select took
    produced: seq<Msg>,       // history: the listener's calls
    consumed: seq<Msg>,       // history: what Next has returned for
    emitted: seq<Update>)     // history: the updates Next has returned

  const INITIAL := State(Top, map[], 0, map[], Cache.PRISTINE, 0, [], INITIAL_DELAY, [], false,
                         [], None, None, [], [], [], [])

  datatype Action =
    | Spawn
    | AskFails(round: nat, err: Error)
    | AskFinds(round: nat, entries: seq<ServiceEntry>, index: nat)
    | Answer(round: nat)
    | Collect
    | Stop
    | Interrupt
    | Wake
    | UpdateCache
    | Notify
    | Send
    | Receive
    | Return(order: seq<string>)

  /** The round that NewInstancer runs itself: not interruptible, and without backoff. */
  predicate FirstRound(s: State) { s.replies == [] }

  function Latest(s: State): Reply
    requires s.replies != []
  {
    s.replies[|s.replies| - 1]
  }

  predicate Enabled(s: State, a: Action) {
    match a
    case Spawn => s.place == Top
    case AskFails(r, _) => r in s.queries && s.queries[r] == Asking
    case AskFinds(r, _, _) => r in s.queries && s.queries[r] == Asking
    case Answer(r) => r in s.queries && s.queries[r].Published?
    case Collect => s.place.Awaiting? && s.place.round in s.queries && s.queries[s.place.round].Answered?
    case Stop => true
    case Interrupt => s.place.Awaiting? && s.quit && !FirstRound(s)
    case Wake => s.place == Sleeping
    case UpdateCache => s.place == Updating && s.replies != []
    case Notify => s.place == Notifying && s.replies != []
    case Send => s.place.Sending? && |s.channel| < CAPACITY
    case Receive => s.inHand == None && s.channel != []
    case Return(order) => s.inHand.Some? && Visits(order, Live(s.entries))
  }

  /** What the latest reply has the cache updated with. */
  function LatestEvent(tags: seq<string>, s: State): Cache.Event
    requires s.replies != []
  {
    match Latest(s)
    case Found(entries, _) => Cache.Event(Some(InstancesOf(Selected(entries, tags))), None)
    case Failed(err) => Cache.Event(None, Some(err))
  }

  /** What it has the listener called with: the slice that the cache has sorted, and the tag map
      that is there at that moment. */
  function LatestMsg(tags: seq<string>, s: State, tagMap: TagMap): Msg
    requires s.replies != []
  {
    match Latest(s)
    case Found(entries, _) => Msg(Sort(InstancesOf(Selected(entries, tags))), tagMap, None)
    case Failed(err) => Msg([], tagMap, Some(err))
  }

  /** After a reply is taken: io.EOF ends the loop, other errors back off first. */
  function AfterReply(first: bool, r: Reply): Place {
    if first || r.Found? then Updating
    else if r.err == EOF then Stopped
    else Sleeping
  }

  /** One step of one goroutine; an action that is not enabled does nothing. */
  function Step(tags: seq<string>, s: State, a: Action): State {
    if !Enabled(s, a) then s
    else match a
      case Spawn =>
        s.(place := Awaiting(s.round), queries := s.queries[s.round := Asking], round := s.round + 1,
           asks := s.asks + [s.lastIndex])
      case AskFails(r, err) =>
        s.(queries := s.queries[r := Answered(Failed(err))])
      case AskFinds(r, entries, index) =>
        s.(queries := s.queries[r := Published(Found(entries, index))], tagMap := TagsOf(Selected(entries, tags)))
      case Answer(r) =>
        s.(queries := s.queries[r := Answered(s.queries[r].reply)])
      case Collect =>
        var reply := s.queries[s.place.round].reply;
        s.(place := AfterReply(FirstRound(s), reply), replies := s.replies + [reply],
           lastIndex := if reply.Found? then reply.index else 0)
      case Stop => s.(quit := true)
      case Interrupt => s.(place := Stopped)
      case Wake => s.(place := Updating, sleeps := s.sleeps + [Slept(s.delay)], delay := Doubled(s.delay))
      case UpdateCache =>
        s.(place := Notifying, held := Cache.Canonical(LatestEvent(tags, s)),
           delay := if Latest(s).Found? then INITIAL_DELAY else s.delay)
      case Notify =>
        var msg := LatestMsg(tags, s, s.tagMap);
        s.(place := Sending(msg), produced := s.produced + [msg])
      case Send => s.(place := Top, channel := s.channel + [s.place.msg])
      case Receive => s.(inHand := Some(s.channel[0]), channel := s.channel[1..])
      case Return(order) =>
        var m := s.inHand.value;
        s.(inHand := None, entries := NextEntries(s.entries, m), consumed := s.consumed + [m],
           emitted := s.emitted + UpdatesOf(s.entries, m, order))
  }

  /** Every interleaving is a list of actions. */
  function Run(tags: seq<string>, actions: seq<Action>): State {
    if actions == [] then INITIAL
    else Step(tags, Run(tags, actions[..|actions| - 1]), actions[|actions| - 1])
  }

  // ---- the goroutines and the tag map ----

  predicate IsLive(s: State, r: nat) { r in s.queries && !s.queries[r].Answered? }

  /** A goroutine that is not done belongs to the latest round, which is being waited for or was
      interrupted. */
  ghost predicate LiveOk(s: State) {
    && (forall r :: r in s.queries ==> r < s.round)
    && (forall r :: IsLive(s, r) ==> r == s.round - 1 && (s.place.Awaiting? || s.place.Stopped?))
    && (s.place.Awaiting? ==> s.place.round == s.round - 1 && s.place.round in s.queries)
  }

  /** The tag map is the one the loop has last taken note of, or that of the result it is about
      to take. */
  ghost predicate TagsOk(tags: seq<string>, s: State) {
    TagsAt(tags, s, Rounds(tags, s.replies).tagMap)
  }

  predicate TagsAt(tags: seq<string>, s: State, settled: TagMap) {
    match s.place
    case Stopped => true
    case Awaiting(r) =>
      r in s.queries &&
      (match s.queries[r]
       case Asking => s.tagMap == settled
       case Published(reply) => reply.Found? && s.tagMap == TagsOf(Selected(reply.entries, tags))
       case Answered(reply) =>
         s.tagMap == if reply.Found? then TagsOf(Selected(reply.entries, tags)) else settled)
    case _ => s.tagMap == settled
  }

  /** The rounds up to the latest reply, and up to the one before. */
  function Now(tags: seq<string>, s: State): Poller { Rounds(tags, s.replies) }

  function Before(tags: seq<string>, s: State): Poller {
    if s.replies == [] then BLANK else Rounds(tags, s.replies[..|s.replies| - 1])
  }

  /** How far the polling loop is into the round of its latest reply. */
  predicate PollerOk(tags: seq<string>, s: State) {
    PollerAt(s, Now(tags, s), Before(tags, s))
  }

  predicate PollerAt(s: State, now: Poller, before: Poller) {
    && (s.place != Stopped ==> !now.stopped)
    && match s.place
       case Sleeping => MidRound(s, before) && |s.replies| > 1 && Latest(s).Failed? && s.delay == before.delay
       case Updating => MidRound(s, before) && (Latest(s).Failed? ==> s.delay == now.delay)
       case Notifying => s.replies != [] && s.held == now.held && s.delay == now.delay && s.produced == before.calls
       case _ => s.held == now.held && s.delay == now.delay && s.produced == now.calls
  }

  predicate MidRound(s: State, before: Poller) {
    s.replies != [] && s.held == before.held && s.produced == before.calls
  }

  lemma {:induction false} RoundsStep(tags: seq<string>, rs: seq<Reply>, r: Reply)
    ensures Rounds(tags, rs + [r]) == if rs == [] then Start(tags, r) else Round(tags, Rounds(tags, rs), r)
  {
    assert (rs + [r])[..|rs|] == rs;
  }

  lemma {:induction false} LiveStepOk(tags: seq<string>, s: State, a: Action)
    requires LiveOk(s)
    ensures LiveOk(Step(tags, s, a))
  {
    var s' := Step(tags, s, a);
    forall r | IsLive(s', r) ensures r == s'.round - 1 && (s'.place.Awaiting? || s'.place.Stopped?) {
      assert IsLive(s, r) || (a.Spawn? && r == s.round);
    }
  }

  lemma {:induction false} TagsStepAt(tags: seq<string>, s: State, a: Action, settled: TagMap)
    requires LiveOk(s) && TagsAt(tags, s, settled) && !a.Collect?
    ensures TagsAt(tags, Step(tags, s, a), settled)
  {
    if Enabled(s, a) && (a.AskFails? || a.AskFinds? || a.Answer?) {
      assert IsLive(s, a.round);
    }
  }

  lemma {:induction false} TagsStepOk(tags: seq<string>, s: State, a: Action)
    requires LiveOk(s) && TagsOk(tags, s) && PollerOk(tags, s)
    ensures TagsOk(tags, Step(tags, s, a))
  {
    if a.Collect? && Enabled(s, a) {
      CollectTags(tags, s);
    } else if Enabled(s, a) {
      TagsStepAt(tags, s, a, Rounds(tags, s.replies).tagMap);
    }
  }

  lemma {:induction false} CollectTagsAt(tags: seq<string>, s: State, settled: TagMap, next: TagMap)
    requires TagsAt(tags, s, settled) && Enabled(s, Collect)
    requires var r := s.queries[s.place.round].reply;
             next == if r.Found? then TagsOf(Selected(r.entries, tags)) else settled
    ensures TagsAt(tags, Step(tags, s, Collect), next)
  {
  }

  lemma {:induction false} CollectTags(tags: seq<string>, s: State)
    requires TagsOk(tags, s) && PollerOk(tags, s) && Enabled(s, Collect)
    ensures TagsOk(tags, Step(tags, s, Collect))
  {
    var r := s.queries[s.place.round].reply;
    ReplyTaken(tags, s.replies, r);
    CollectTagsAt(tags, s, Rounds(tags, s.replies).tagMap, Rounds(tags, s.replies + [r]).tagMap);
  }

  /** What a reply does to a loop that has not stopped: io.EOF stops it and changes nothing else. */
  lemma {:induction false} ReplyTaken(tags: seq<string>, rs: seq<Reply>, r: Reply)
    requires !Rounds(tags, rs).stopped
    ensures var p, p' := Rounds(tags, rs), Rounds(tags, rs + [r]);
            && (p'.stopped <==> rs != [] && r == Failed(EOF))
            && (p'.stopped ==> p'.held == p.held && p'.calls == p.calls && p'.delay == p.delay)
            && (rs == [] ==> p'.delay == p.delay)
            && p'.tagMap == if r.Found? then TagsOf(Selected(r.entries, tags)) else p.tagMap
  {
    RoundsStep(tags, rs, r);
  }

  lemma {:induction false} CollectAt(tags: seq<string>, s: State, now: Poller, before: Poller, next: Poller)
    requires PollerAt(s, now, before) && Enabled(s, Collect)
    requires var r := s.queries[s.place.round].reply;
             && (next.stopped <==> s.replies != [] && r == Failed(EOF))
             && (next.stopped ==> next.held == now.held && next.calls == now.calls && next.delay == now.delay)
             && (s.replies == [] ==> next.delay == now.delay)
    ensures PollerAt(Step(tags, s, Collect), next, now)
  {
  }

  lemma {:induction false} CollectOk(tags: seq<string>, s: State)
    requires PollerOk(tags, s) && Enabled(s, Collect)
    ensures PollerOk(tags, Step(tags, s, Collect))
  {
    var reply := s.queries[s.place.round].reply;
    var next := Rounds(tags, s.replies + [reply]);
    ReplyTaken(tags, s.replies, reply);
    CollectAt(tags, s, Now(tags, s), Before(tags, s), next);
    assert (s.replies + [reply])[..|s.replies|] == s.replies;
    assert Before(tags, Step(tags, s, Collect)) == Now(tags, s);
  }

  /** What the latest reply made of the poller that took it, unless it stopped the loop. */
  lemma {:induction false} LatestRound(tags: seq<string>, s: State)
    requires s.replies != [] && !Now(tags, s).stopped
    ensures !Before(tags, s).stopped
    ensures Now(tags, s).tagMap ==
            if Latest(s).Found? then TagsOf(Selected(Latest(s).entries, tags)) else Before(tags, s).tagMap
    ensures Now(tags, s).held == Cache.Canonical(LatestEvent(tags, s))
    ensures Now(tags, s).calls == Before(tags, s).calls + [LatestMsg(tags, s, Now(tags, s).tagMap)]
    ensures Now(tags, s).delay ==
            if Latest(s).Found? || |s.replies| == 1 then INITIAL_DELAY else Doubled(Before(tags, s).delay)
  {
  }

  lemma {:induction false} PollerStepAt(tags: seq<string>, s: State, a: Action, now: Poller, before: Poller)
    requires PollerAt(s, now, before) && (a.Wake? || a.UpdateCache? || a.Notify?)
    requires s.replies != []
    requires !now.stopped ==>
               && now.held == Cache.Canonical(LatestEvent(tags, s))
               && now.calls == before.calls + [LatestMsg(tags, s, now.tagMap)]
               && now.delay == if Latest(s).Found? || |s.replies| == 1 then INITIAL_DELAY else Doubled(before.delay)
    requires a.Notify? && s.place == Notifying ==> s.tagMap == now.tagMap
    ensures PollerAt(Step(tags, s, a), now, before)
  {
  }

  lemma {:induction false} LatestStepOk(tags: seq<string>, s: State, a: Action)
    requires TagsOk(tags, s) && PollerOk(tags, s)
    requires Enabled(s, a) && (a.Wake? || a.UpdateCache? || a.Notify?)
    ensures PollerOk(tags, Step(tags, s, a))
  {
    LatestRound(tags, s);
    PollerStepAt(tags, s, a, Now(tags, s), Before(tags, s));
  }

  lemma {:induction false} PollerStepOk(tags: seq<string>, s: State, a: Action)
    requires TagsOk(tags, s) && PollerOk(tags, s)
    ensures PollerOk(tags, Step(tags, s, a))
  {
    if !Enabled(s, a) {
    } else if a.Collect? {
      CollectOk(tags, s);
    } else if a.Wake? || a.UpdateCache? || a.Notify? {
      LatestStepOk(tags, s, a);
    } else if a.Spawn? || a.Interrupt? || a.Send? {
      SettledOk(tags, s, Step(tags, s, a));
    } else {
      BystanderOk(tags, s, a);
    }
  }

  predicate Settled(s: State) {
    s.place.Top? || s.place.Awaiting? || s.place.Sending? || s.place.Stopped?
  }

  /** Between rounds only the place changes. */
  lemma {:induction false} SettledOk(tags: seq<string>, s: State, s': State)
    requires PollerOk(tags, s) && Settled(s) && Settled(s') && s.place != Stopped
    requires s'.replies == s.replies && s'.held == s.held && s'.delay == s.delay && s'.produced == s.produced
    ensures PollerOk(tags, s')
  {
  }

  /** The other goroutines do not touch what the polling loop owns. */
  lemma {:induction false} BystanderOk(tags: seq<string>, s: State, a: Action)
    requires PollerOk(tags, s)
    requires a.AskFails? || a.AskFinds? || a.Answer? || a.Stop? || a.Receive? || a.Return?
    ensures PollerOk(tags, Step(tags, s, a))
  {
    var s' := Step(tags, s, a);
    assert s'.place == s.place && s'.replies == s.replies && s'.held == s.held;
    assert s'.delay == s.delay && s'.produced == s.produced;
  }

  lemma {:induction false} RunOk(tags: seq<string>, actions: seq<Action>)
    ensures LiveOk(Run(tags, actions)) && TagsOk(tags, Run(tags, actions)) && PollerOk(tags, Run(tags, actions))
  {
    if actions == [] {
    } else {
      var init, a := actions[..|actions| - 1], actions[|actions| - 1];
      RunOk(tags, init);
      LiveStepOk(tags, Run(tags, init), a);
      TagsStepOk(tags, Run(tags, init), a);
      PollerStepOk(tags, Run(tags, init), a);
    }
  }

  /** At most one query goroutine has anything left to do, interrupted ones included. */
  lemma {:induction false} OneLiveQuery(tags: seq<string>, actions: seq<Action>, q: nat, r: nat)
    requires IsLive(Run(tags, actions), q) && IsLive(Run(tags, actions), r)
    ensures q == r
  {
    RunOk(tags, actions);
  }

  /** What the last successful query of a run found, whether or not its result is ever taken. */
  function LastFound(tags: seq<string>, actions: seq<Action>): Option<seq<ServiceEntry>> {
    if actions == [] then None
    else
      var init, a := actions[..|actions| - 1], actions[|actions| - 1];
      if a.AskFinds? && Enabled(Run(tags, init), a) then Some(a.entries) else LastFound(tags, init)
  }

  /** After any run the tag map is the one of the last successful query, with its instances as keys. */
  lemma {:induction false} TagMapIsLastFound(tags: seq<string>, actions: seq<Action>)
    ensures LastFound(tags, actions).None? ==> Run(tags, actions).tagMap == map[]
    ensures var found := LastFound(tags, actions);
            found.Some? ==>
              && Run(tags, actions).tagMap == TagsOf(Selected(found.value, tags))
              && Run(tags, actions).tagMap.Keys == Elements(InstancesOf(Selected(found.value, tags)))
  {
    if actions == [] {
    } else {
      var init, a := actions[..|actions| - 1], actions[|actions| - 1];
      TagMapIsLastFound(tags, init);
      if a.AskFinds? {
        TagKeys(Selected(a.entries, tags));
      }
      TagMapStep(tags, Run(tags, init), a);
    }
  }

  lemma {:induction false} TagMapStep(tags: seq<string>, s: State, a: Action)
    ensures Step(tags, s, a).tagMap ==
            if a.AskFinds? && Enabled(s, a) then TagsOf(Selected(a.entries, tags)) else s.tagMap
  {
  }

  /** The interleaving decides when the listener is called, never with what: the calls are those of
      the sequential rounds on the replies taken so far, which are Consul's answers, the last call
      possibly still to come. */
  lemma {:induction false} CallsFollowReplies(tags: seq<string>, actions: seq<Action>)
    ensures var s := Run(tags, actions);
            && s.replies <= Told(tags, actions)
            && s.produced <= Rounds(tags, s.replies).calls
            && |Rounds(tags, s.replies).calls| <= |s.produced| + 1
            && (!s.place.Sleeping? && !s.place.Updating? && !s.place.Notifying? ==>
                 s.produced == Rounds(tags, s.replies).calls)
  {
    RepliesAreAnswers(tags, actions);
    RunOk(tags, actions);
    var s := Run(tags, actions);
    if s.replies != [] && !Now(tags, s).stopped {
      LatestRound(tags, s);
    }
  }

  /** Whenever the listener has been called with success, the tag map it was given had exactly the
      instances it was given as keys. */
  lemma {:induction false} ProducedCarryTheirTags(tags: seq<string>, actions: seq<Action>, m: Msg)
    requires m in Run(tags, actions).produced && m.Ok()
    ensures m.tagMap.Keys == Elements(m.instances)
  {
    CallsFollowReplies(tags, actions);
    CallsCarryTheirTags(tags, Run(tags, actions).replies);
  }

  // ---- from which index the queries ask ----

  function IndexAfter(r: Reply): nat {
    if r.Found? then r.index else 0
  }

  predicate AsksOk(s: State) {
    && |s.asks| == s.round
    && (match s.place
        case Awaiting(_) => s.round == |s.replies| + 1
        case Stopped => |s.replies| <= s.round <= |s.replies| + 1
        case _ => s.round == |s.replies|)
    && s.lastIndex == (if s.replies == [] then 0 else IndexAfter(Latest(s)))
    && forall i :: 0 <= i < |s.asks| ==> s.asks[i] == if i == 0 then 0 else IndexAfter(s.replies[i - 1])
  }

  lemma {:induction false} AsksStepOk(tags: seq<string>, s: State, a: Action)
    requires AsksOk(s)
    ensures AsksOk(Step(tags, s, a))
  {
  }

  lemma {:induction false} AsksRun(tags: seq<string>, actions: seq<Action>)
    ensures AsksOk(Run(tags, actions))
  {
    if actions == [] {
    } else {
      AsksRun(tags, actions[..|actions| - 1]);
      AsksStepOk(tags, Run(tags, actions[..|actions| - 1]), actions[|actions| - 1]);
    }
  }

  // ---- what Consul answered ----

  /** The answer that a step brings from Consul. */
  function Answers(s: State, a: Action): seq<Reply> {
    if !Enabled(s, a) then []
    else match a
      case AskFails(_, err) => [Failed(err)]
      case AskFinds(_, entries, index) => [Found(entries, index)]
      case _ => []
  }

  /** Consul's answers in a run, in order. */
  function Told(tags: seq<string>, actions: seq<Action>): seq<Reply> {
    if actions == [] then []
    else
      var init := actions[..|actions| - 1];
      Told(tags, init) + Answers(Run(tags, init), actions[|actions| - 1])
  }

  /** What a query has been answered but not yet handed over. */
  function Given(q: Query): seq<Reply> {
    if q.Asking? then [] else [q.reply]
  }

  /** The replies taken are the answers given: at most the latest one has not been taken, while its
      query is waited for or after it was interrupted. */
  predicate ToldOk(s: State, told: seq<Reply>) {
    match s.place
    case Awaiting(r) => r in s.queries && told == s.replies + Given(s.queries[r])
    case Stopped =>
      && s.replies <= told && |told| <= |s.replies| + 1 && |told| <= s.round
      && forall r :: r in s.queries && s.queries[r] == Asking ==> told == s.replies && s.round == |told| + 1
    case _ => told == s.replies
  }

  lemma {:induction false} ToldStepOk(tags: seq<string>, s: State, a: Action, told: seq<Reply>)
    requires LiveOk(s) && AsksOk(s) && ToldOk(s, told)
    ensures ToldOk(Step(tags, s, a), told + Answers(s, a))
  {
    assert forall r :: r in s.queries && s.queries[r] == Asking ==> IsLive(s, r);
    assert told + [] == told && s.replies + [] == s.replies;
    if Enabled(s, a) {
      match a
      case AskFails(r, _) => AnsweredOk(tags, s, a, told);
      case AskFinds(r, _, _) => AnsweredOk(tags, s, a, told);
      case Answer(r) => assert IsLive(s, r);
      case _ =>
    }
  }

  lemma {:induction false} AnsweredOk(tags: seq<string>, s: State, a: Action, told: seq<Reply>)
    requires LiveOk(s) && AsksOk(s) && ToldOk(s, told) && Enabled(s, a) && (a.AskFails? || a.AskFinds?)
    ensures ToldOk(Step(tags, s, a), told + Answers(s, a))
  {
    assert IsLive(s, a.round) && s.queries[a.round] == Asking;
    assert told == s.replies;
    var s' := Step(tags, s, a);
    forall r | r in s'.queries ensures s'.queries[r] != Asking {
      assert IsLive(s, r) <==> r == a.round;
    }
  }

  lemma {:induction false} ToldRun(tags: seq<string>, actions: seq<Action>)
    ensures ToldOk(Run(tags, actions), Told(tags, actions))
  {
    if actions == [] {
    } else {
      var init := actions[..|actions| - 1];
      ToldRun(tags, init);
      RunOk(tags, init);
      AsksRun(tags, init);
      ToldStepOk(tags, Run(tags, init), actions[|actions| - 1], Told(tags, init));
    }
  }

  /** In every run the loop takes each of Consul's answers as it is, in order: all of them, but for
      one that is still to be taken or came after an interrupt. */
  lemma {:induction false} RepliesAreAnswers(tags: seq<string>, actions: seq<Action>)
    ensures var s, told := Run(tags, actions), Told(tags, actions);
            && s.replies <= told && |told| <= |s.replies| + 1
            && (!s.place.Awaiting? && !s.place.Stopped? ==> told == s.replies)
            && (s.place.Awaiting? ==>
                 && s.place.round in s.queries
                 && told == s.replies + Given(s.queries[s.place.round]))
  {
    ToldRun(tags, actions);
  }

  /** In every run each query waits for a change past the index of the answer before it if that was
      a success, and for none if it was a failure or there is none before. */
  lemma {:induction false} QueriesAskFromLast(tags: seq<string>, actions: seq<Action>, i: nat)
    requires i < |Run(tags, actions).asks|
    ensures var asks, told := Run(tags, actions).asks, Told(tags, actions);
            && |told| <= |asks| <= |told| + 1
            && asks[i] == if i > 0 && told[i - 1].Found? then told[i - 1].index else 0
  {
    AsksRun(tags, actions);
    ToldRun(tags, actions);
    var s, told := Run(tags, actions), Told(tags, actions);
    assert s.replies <= told;
    assert i > 0 ==> s.replies[i - 1] == told[i - 1];
  }

  // ---- when the loop stops ----

  predicate StopOk(s: State) {
    s.place.Stopped? ==> s.replies != [] && (s.quit || (|s.replies| > 1 && Latest(s) == Failed(EOF)))
  }

  lemma {:induction false} StopRun(tags: seq<string>, actions: seq<Action>)
    ensures StopOk(Run(tags, actions)) && (Run(tags, actions).quit <==> Stop in actions)
  {
    if actions == [] {
    } else {
      var init, a := actions[..|actions| - 1], actions[|actions| - 1];
      StopRun(tags, init);
      assert actions == init + [a];
      StopStepOk(tags, Run(tags, init), a);
    }
  }

  lemma {:induction false} StopStepOk(tags: seq<string>, s: State, a: Action)
    requires StopOk(s)
    ensures StopOk(Step(tags, s, a)) && (Step(tags, s, a).quit <==> s.quit || a == Stop)
  {
  }

  /** In every run the loop has stopped only if a reply after the constructor's was io.EOF or Stop was
      called, and it has stopped if the former; the constructor's round always finishes. */
  lemma {:induction false} StopsOnlyIf(tags: seq<string>, actions: seq<Action>)
    ensures var s := Run(tags, actions);
            && (s.place.Stopped? ==> s.replies != [] && (Failed(EOF) in s.replies[1..] || Stop in actions))
            && (s.replies != [] && Failed(EOF) in s.replies[1..] ==> s.place.Stopped?)
  {
    StopRun(tags, actions);
    RunOk(tags, actions);
    var s := Run(tags, actions);
    StoppedIff(tags, s.replies);
    if |s.replies| > 1 {
      assert Latest(s) == s.replies[1..][|s.replies| - 2];
    }
  }

  // ---- what the listener is told of Consul's answers ----

  lemma {:induction false} ReportedMore(rs: seq<Reply>, told: seq<Reply>)
    requires rs <= told && |told| <= |rs| + 1
    ensures Reported(rs) <= Reported(told) <= Reported(rs) + 1
  {
    if |told| == |rs| + 1 {
      assert told[..|rs|] == rs;
    } else {
      assert told == rs;
    }
  }

  /** In every run the i-th call of the listener tells of Consul's i-th answer, and of the answers
      before the first io.EOF at most two have not been told yet. */
  lemma {:induction false} AnswersAreTold(tags: seq<string>, actions: seq<Action>)
    ensures var calls, told := Run(tags, actions).produced, Told(tags, actions);
            && |calls| <= Reported(told) <= |calls| + 2
            && forall i :: 0 <= i < |calls| ==>
                 Reports(tags, told[i], calls[i]) && (told[i].Failed? ==> SameTags(calls, i))
  {
    var s, told := Run(tags, actions), Told(tags, actions);
    RepliesAreAnswers(tags, actions);
    CallsFollowReplies(tags, actions);
    CallsReport(tags, s.replies);
    ReportedMore(s.replies, told);
    CallsPrefix(tags, s.replies, told, s.produced, Rounds(tags, s.replies));
  }

  lemma {:induction false} CallsPrefix(tags: seq<string>, rs: seq<Reply>, told: seq<Reply>, calls: seq<Msg>, p: Poller)
    requires CallsOk(tags, rs, p) && calls <= p.calls && rs <= told
    ensures forall i :: 0 <= i < |calls| ==>
              Reports(tags, told[i], calls[i]) && (told[i].Failed? ==> SameTags(calls, i))
  {
    forall i | 0 <= i < |calls|
      ensures Reports(tags, told[i], calls[i]) && (told[i].Failed? ==> SameTags(calls, i))
    {
      assert told[i] == rs[i] && calls[i] == p.calls[i];
      assert rs[i].Failed? ==> SameTags(p.calls, i);
    }
  }

  // ---- the channel and the watcher ----

  function Blocked(s: State): seq<Msg> {
    if s.place.Sending? then [s.place.msg] else []
  }

  function Taken(s: State): seq<Msg> {
    if s.inHand.Some? then [s.inHand.value] else []
  }

  predicate ChannelOk(s: State) {
    && |s.channel| <= CAPACITY
    && s.produced == s.consumed + Taken(s) + s.channel + Blocked(s)
  }

  /** The watcher's entries and its consumer's table are those of the snapshots consumed. */
  predicate ReplayOk(s: State) {
    && s.entries == EntriesAfter(s.consumed)
    && Apply(map[], s.emitted) == ViewAfter(s.consumed)
  }

  lemma {:induction false} MoveUp<T>(xs: seq<T>, none: seq<T>, x: T, ys: seq<T>)
    requires none == []
    ensures xs + none + ([x] + ys) == xs + [x] + ys
  {
  }

  lemma Shift<T>(xs: seq<T>, ys: seq<T>, y: T)
    ensures xs + ys + [y] == xs + (ys + [y]) + []
  {
  }

  lemma {:induction false} ChannelStepOk(tags: seq<string>, s: State, a: Action)
    requires ChannelOk(s)
    ensures ChannelOk(Step(tags, s, a))
  {
    if a.Receive? && Enabled(s, a) {
      MoveUp(s.consumed, [], s.channel[0], s.channel[1..]);
      assert s.channel == [s.channel[0]] + s.channel[1..];
    } else if a.Send? && Enabled(s, a) {
      Shift(s.consumed + Taken(s), s.channel, s.place.msg);
    } else if a.Notify? && Enabled(s, a) {
      assert Blocked(s) == [];
    }
  }

  lemma {:induction false} ReplayStepOk(tags: seq<string>, s: State, a: Action)
    requires ReplayOk(s)
    ensures ReplayOk(Step(tags, s, a))
  {
    if a.Return? && Enabled(s, a) {
      var m := s.inHand.value;
      assert (s.consumed + [m])[..|s.consumed|] == s.consumed;
      ApplyConcat(map[], s.emitted, UpdatesOf(s.entries, m, a.order));
      DeltasAbsorb(s.entries, ViewAfter(s.consumed), m, a.order);
    }
  }

  /** Nothing is lost, duplicated or reordered: what Next consumed, what it holds, what is buffered
      and what is blocked in the send make up what was produced. */
  lemma {:induction false} Conservation(tags: seq<string>, actions: seq<Action>)
    ensures ChannelOk(Run(tags, actions)) && ReplayOk(Run(tags, actions))
    ensures |Run(tags, actions).channel| <= 1
  {
    if actions == [] {
    } else {
      var init := actions[..|actions| - 1];
      Conservation(tags, init);
      ChannelStepOk(tags, Run(tags, init), actions[|actions| - 1]);
      ReplayStepOk(tags, Run(tags, init), actions[|actions| - 1]);
    }
  }

  // ---- end to end ----

  predicate LastSuccess(ms: seq<Msg>, i: nat) {
    i < |ms| && ms[i].Ok() && forall k :: i < k < |ms| ==> !ms[k].Ok()
  }

  lemma {:induction false} EntriesAreLastSuccess(ms: seq<Msg>, i: nat)
    requires LastSuccess(ms, i)
    ensures EntriesAfter(ms) == Some(Elements(ms[i].instances))
    decreases |ms|
  {
    if i == |ms| - 1 {
    } else {
      EntriesAreLastSuccess(ms[..|ms| - 1], i);
    }
  }

  /** Replaying every update Next has returned gives exactly the addresses of the last successful
      snapshot it consumed. */
  lemma {:induction false} ReplayIsLastSnapshot(tags: seq<string>, actions: seq<Action>, i: nat)
    requires LastSuccess(Run(tags, actions).consumed, i)
    ensures Apply(map[], Run(tags, actions).emitted).Keys == Elements(Run(tags, actions).consumed[i].instances)
  {
    Conservation(tags, actions);
    EntriesAreLastSuccess(Run(tags, actions).consumed, i);
  }

  /** From Consul to gRPC, in every run: if the i-th answer is a success and the later ones consumed
      are failures, then the addresses that a consumer has after replaying every update are those of
      exactly the entries in that answer that carry every tag but the first. */
  lemma {:induction false} ConsumerSeesConsul(tags: seq<string>, actions: seq<Action>, i: nat, a: string)
    requires i < |Run(tags, actions).consumed| && i < |Told(tags, actions)| && Told(tags, actions)[i].Found?
    requires forall k :: i < k < |Run(tags, actions).consumed| && k < |Told(tags, actions)| ==>
               Told(tags, actions)[k].Failed?
    ensures a in Apply(map[], Run(tags, actions).emitted) <==>
            exists e :: e in Told(tags, actions)[i].entries && InstanceOf(e) == a &&
              forall j :: 1 <= j < |tags| ==> tags[j] in e.tags
  {
    var s, told := Run(tags, actions), Told(tags, actions);
    AnswersAreTold(tags, actions);
    Conservation(tags, actions);
    forall k | 0 <= k < |s.consumed| ensures Reports(tags, told[k], s.consumed[k]) {
      assert s.consumed[k] == s.produced[k];
    }
    ReplayIsLastSnapshot(tags, actions, i);
    ReportedAddresses(tags, told[i], s.consumed[i], a);
    assert a in s.consumed[i].instances <==> a in Elements(s.consumed[i].instances);
  }

  lemma {:induction false} ReportedAddresses(tags: seq<string>, r: Reply, m: Msg, a: string)
    requires r.Found? && Reports(tags, r, m)
    ensures a in m.instances <==>
            exists e :: e in r.entries && InstanceOf(e) == a && forall j :: 1 <= j < |tags| ==> tags[j] in e.tags
  {
    var ps :| Kept(ps, r.entries, tags) && Shows(At(r.entries, ps), m);
    var kept := At(r.entries, ps);
    assert a in m.instances <==> a in multiset(m.instances);
    assert a in InstancesOf(kept) <==> a in multiset(InstancesOf(kept));
    KeptAddresses(tags, r.entries, ps, a);
  }

  lemma {:induction false} KeptAddresses(tags: seq<string>, es: seq<ServiceEntry>, ps: seq<nat>, a: string)
    requires Kept(ps, es, tags)
    ensures a in InstancesOf(At(es, ps)) <==> exists e :: e in es && InstanceOf(e) == a && Serves(e, tags)
  {
    var kept := At(es, ps);
    if a in InstancesOf(kept) {
      var k :| 0 <= k < |kept| && InstancesOf(kept)[k] == a;
      assert ps[k] in ps && Serves(es[ps[k]], tags);
      assert es[ps[k]] in es && InstanceOf(es[ps[k]]) == a;
    }
    if e :| e in es && InstanceOf(e) == a && Serves(e, tags) {
      var n :| 0 <= n < |es| && es[n] == e;
      var k :| 0 <= k < |ps| && ps[k] == n;
      assert InstancesOf(kept)[k] == a;
    }
  }

  predicate Pending(s: State) {
    s.place.Notifying? || s.place.Sending? || s.channel != [] || s.inHand.Some?
  }

  /** Except between the cache's update and the listener's call, the cache holds what the listener
      was last called with. */
  lemma {:induction false} HeldIsLastProduced(tags: seq<string>, actions: seq<Action>)
    requires Run(tags, actions).place != Notifying
    ensures Tells(Run(tags, actions).held, Run(tags, actions).produced)
  {
    RunOk(tags, actions);
    var s := Run(tags, actions);
    HeldIsLastCall(tags, s.replies);
    HeldIsLastCall(tags, if s.replies == [] then [] else s.replies[..|s.replies| - 1]);
    HeldAt(s, Now(tags, s), Before(tags, s));
  }

  lemma {:induction false} HeldAt(s: State, now: Poller, before: Poller)
    requires PollerAt(s, now, before) && s.place != Notifying
    requires Tells(now.held, now.calls) && Tells(before.held, before.calls)
    ensures Tells(s.held, s.produced)
  {
  }

  /** When nothing is on its way and the cache holds no error, the replayed table and the cache
      agree on the instances. */
  lemma {:induction false} QuiescentAgreement(tags: seq<string>, actions: seq<Action>)
    requires var s := Run(tags, actions); !Pending(s) && s.held.err == None
    ensures var s := Run(tags, actions);
            Apply(map[], s.emitted).Keys ==
              if s.held.instances.None? then {} else Elements(s.held.instances.value)
  {
    var s := Run(tags, actions);
    Conservation(tags, actions);
    HeldIsLastProduced(tags, actions);
    assert s.produced == s.consumed;
    var n := |s.consumed|;
    if n > 0 {
      EntriesAreLastSuccess(s.consumed, n - 1);
    }
  }

  /** The metadata of a replayed address is the tags it had in the message that last admitted it. */
  lemma {:induction false} ReplayMetadata(tags: seq<string>, actions: seq<Action>, a: string, j: nat)
    requires AdmittedBy(Run(tags, actions).consumed, a, j)
    ensures var s := Run(tags, actions);
            && a in Apply(map[], s.emitted) && a in s.consumed[j].tagMap
            && Apply(map[], s.emitted)[a] == Some(Text.Join(s.consumed[j].tagMap[a], ","))
  {
    var s := Run(tags, actions);
    Conservation(tags, actions);
    MetadataHistory(s.consumed, a, j);
    assert s.consumed[j] == s.produced[j];
    ProducedCarryTheirTags(tags, actions, s.consumed[j]);
    assert a in Elements(s.consumed[j].instances);
  }

  // ---- the time slept ----

  function Sum(ns: seq<nat>): nat {
    if ns == [] then 0 else Sum(ns[..|ns| - 1]) + ns[|ns| - 1]
  }

  lemma {:induction false} SumSnoc(ns: seq<nat>, n: nat)
    ensures Sum(ns + [n]) == Sum(ns) + n
  {
    assert (ns + [n])[..|ns|] == ns;
  }

  /** The backoffs that these replies lead to: one for each failure that neither the constructor
      takes nor ends the loop, as long as the failures in a row before it make the delay. */
  function SleepsOf(rs: seq<Reply>): seq<nat> {
    if |rs| <= 1 then []
    else
      var init, last := rs[..|rs| - 1], rs[|rs| - 1];
      SleepsOf(init) + if last.Found? || last.err == EOF then [] else [Slept(DelayAfter(Streak(init)))]
  }

  lemma {:induction false} SleepsSnoc(rs: seq<Reply>, r: Reply)
    ensures SleepsOf(rs + [r]) ==
            SleepsOf(rs) + if rs == [] || r.Found? || r.err == EOF then [] else [Slept(DelayAfter(Streak(rs)))]
  {
    assert (rs + [r])[..|rs|] == rs;
  }

  function Last(ns: seq<nat>, c: nat): seq<nat>
    requires c <= |ns|
  {
    ns[|ns| - c..]
  }

  lemma {:induction false} LastSnoc(ns: seq<nat>, c: nat, n: nat)
    requires c <= |ns|
    ensures Sum(Last(ns + [n], c + 1)) == Sum(Last(ns, c)) + n
  {
    assert Last(ns + [n], c + 1) == Last(ns, c) + [n];
    SumSnoc(Last(ns, c), n);
  }

  lemma {:induction false} RunsOn(rs: seq<Reply>)
    requires |rs| > 1 && Failed(EOF) !in rs[1..]
    ensures rs[|rs| - 1] != Failed(EOF) && Failed(EOF) !in rs[..|rs| - 1][1..]
  {
    assert rs[1..] == rs[..|rs| - 1][1..] + [rs[|rs| - 1]];
  }

  /** The backoffs of the present streak add up to what the doubling gives. */
  lemma {:induction false} StreakSleeps(rs: seq<Reply>)
    requires rs == [] || Failed(EOF) !in rs[1..]
    ensures Streak(rs) <= |SleepsOf(rs)|
    ensures Sum(Last(SleepsOf(rs), Streak(rs))) == SleptAfter(Streak(rs))
  {
    if |rs| <= 1 || rs[|rs| - 1].Found? {
      assert Last(SleepsOf(rs), 0) == [];
    } else {
      var init, last := rs[..|rs| - 1], rs[|rs| - 1];
      RunsOn(rs);
      StreakSleeps(init);
      SleepsSnoc(init, last);
      assert init + [last] == rs;
      LastSnoc(SleepsOf(init), Streak(init), Slept(DelayAfter(Streak(init))));
    }
  }

  /** The sleep that is going on, if any. */
  function Dozing(s: State): seq<nat> {
    if s.place.Sleeping? then [Slept(s.delay)] else []
  }

  lemma {:induction false} SleepsStepOk(tags: seq<string>, s: State, a: Action)
    requires s.sleeps + Dozing(s) == SleepsOf(s.replies) && !a.Collect?
    ensures var s' := Step(tags, s, a); s'.sleeps + Dozing(s') == SleepsOf(s'.replies)
  {
    var s' := Step(tags, s, a);
    assert s'.replies == s.replies && s'.sleeps + Dozing(s') == s.sleeps + Dozing(s);
  }

  lemma {:induction false} SleepsCollectOk(tags: seq<string>, s: State)
    requires s.sleeps + Dozing(s) == SleepsOf(s.replies) && PollerOk(tags, s) && Enabled(s, Collect)
    ensures var s' := Step(tags, s, Collect); s'.sleeps + Dozing(s') == SleepsOf(s'.replies)
  {
    var reply := s.queries[s.place.round].reply;
    assert s.sleeps + [] == s.sleeps;
    DelayIsStreak(tags, s.replies);
    SleepsSnoc(s.replies, reply);
  }

  lemma {:induction false} SleepsRunOk(tags: seq<string>, actions: seq<Action>)
    ensures var s := Run(tags, actions); s.sleeps + Dozing(s) == SleepsOf(s.replies)
  {
    if actions == [] {
    } else {
      var init, a := actions[..|actions| - 1], actions[|actions| - 1];
      SleepsRunOk(tags, init);
      RunOk(tags, init);
      if !a.Collect? {
        SleepsStepOk(tags, Run(tags, init), a);
      } else if Enabled(Run(tags, init), a) {
        SleepsCollectOk(tags, Run(tags, init));
      }
    }
  }

  lemma {:induction false} StillRuns(tags: seq<string>, s: State)
    requires PollerOk(tags, s) && s.place != Stopped
    ensures s.replies == [] || Failed(EOF) !in s.replies[1..]
  {
    StoppedIff(tags, s.replies);
  }

  /** In every run the loop has slept once for each failure that makes it back off, and while it
      runs the sleeps of the present streak, the one going on included, add up to what the doubled
      delays of that many failures give. */
  lemma {:induction false} SleepsByStreak(tags: seq<string>, actions: seq<Action>)
    ensures var s := Run(tags, actions);
            && s.sleeps + Dozing(s) == SleepsOf(s.replies)
            && (s.place != Stopped ==>
                 && Streak(s.replies) <= |s.sleeps + Dozing(s)|
                 && Sum(Last(s.sleeps + Dozing(s), Streak(s.replies))) == SleptAfter(Streak(s.replies)))
  {
    SleepsRunOk(tags, actions);
    RunOk(tags, actions);
    var s := Run(tags, actions);
    if s.place != Stopped {
      StillRuns(tags, s);
      StreakSleeps(s.replies);
    }
  }

  // ---- nothing gets stuck ----

  lemma {:induction false} OrderExists(keys: set<string>) returns (order: seq<string>)
    ensures Visits(order, keys)
  {
    if keys == {} {
      order := [];
    } else {
      var k :| k in keys;
      var rest := OrderExists(keys - {k});
      order := rest + [k];
      ElementsSnoc(rest, k);
      assert k !in Elements(rest);
    }
  }

  function Backlog(s: State): nat {
    |Taken(s)| + 2 * |s.channel| + 3 * |Blocked(s)|
  }

  /** The state after further actions, the first one first. */
  function Continue(tags: seq<string>, s: State, more: seq<Action>): State
    decreases |more|
  {
    if more == [] then s else Continue(tags, Step(tags, s, more[0]), more[1..])
  }

  lemma {:induction false} ContinueIsRun(tags: seq<string>, actions: seq<Action>, more: seq<Action>)
    ensures Continue(tags, Run(tags, actions), more) == Run(tags, actions + more)
    decreases |more|
  {
    if more == [] {
      assert actions + more == actions;
    } else {
      assert (actions + [more[0]])[..|actions|] == actions;
      ContinueIsRun(tags, actions + [more[0]], more[1..]);
      assert actions + [more[0]] + more[1..] == actions + more;
    }
  }

  predicate Drains(a: Action) { a.Send? || a.Receive? || a.Return? }

  lemma {:induction false} DrainStep(tags: seq<string>, s: State) returns (a: Action)
    requires ChannelOk(s) && Backlog(s) > 0
    ensures Drains(a) && ChannelOk(Step(tags, s, a))
    ensures Backlog(Step(tags, s, a)) < Backlog(s) && Step(tags, s, a).produced == s.produced
  {
    var order := OrderExists(Live(s.entries));
    a := if s.inHand.Some? then Return(order) else if s.channel != [] then Receive else Send;
    ChannelStepOk(tags, s, a);
  }

  lemma {:induction false} DrainFrom(tags: seq<string>, s: State) returns (more: seq<Action>)
    requires ChannelOk(s)
    ensures forall a :: a in more ==> Drains(a)
    ensures var s' := Continue(tags, s, more); s'.produced == s.produced && s'.consumed == s.produced
    decreases Backlog(s)
  {
    more := [];
    if Backlog(s) == 0 {
    } else {
      var a := DrainStep(tags, s);
      var rest := DrainFrom(tags, Step(tags, s, a));
      more := [a] + rest;
      assert more[1..] == rest;
    }
  }

  /** From every reachable state, sends, receives and returns alone can bring everything produced
      so far to the consumer: the pipeline never gets stuck on its own channel. */
  lemma {:induction false} CanDrain(tags: seq<string>, actions: seq<Action>)
    ensures exists more: seq<Action> ::
              && (forall a :: a in more ==> Drains(a))
              && Run(tags, actions + more).consumed == Run(tags, actions).produced
  {
    Conservation(tags, actions);
    var more := DrainFrom(tags, Run(tags, actions));
    ContinueIsRun(tags, actions, more);
  }
}
