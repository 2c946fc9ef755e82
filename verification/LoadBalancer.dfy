/** The weighted random balancer (client/http/lb/lb.go). */
module LoadBalancer {
  import opened Wrappers
  import opened Ordering
  import opened Decimal
  import Text

  const DEFAULT_WEIGHT: int := 100
  const PREFIX: string := "weight_"

  function Clamp(w: int): int {
    if w < 0 then 0 else if w > 100 then 100 else w
  }

  /** The weight a tag sets, if it sets one. */
  function Effect(tag: string): Option<int> {
    if tag == "stg" then Some(1)
    else if Text.Index(tag, PREFIX) == 0 then
      var arr := Text.Split(tag, "_");
      if |arr| == 2 then
        match Atoi(arr[1])
        case Some(w) => Some(Clamp(w))
        case None => None
      else None
    else None
  }

  /** Each effective tag replaces the weight. */
  function WeightOfTags(tags: seq<string>): int {
    if tags == [] then DEFAULT_WEIGHT
    else match Effect(tags[|tags| - 1])
      case Some(w) => w
      case None => WeightOfTags(tags[..|tags| - 1])
  }

  function Weight(tagMap: TagMap, addr: string): (w: int)
    ensures 0 <= w <= 100
  {
    if addr in tagMap then WeightBounds(tagMap[addr]); WeightOfTags(tagMap[addr]) else DEFAULT_WEIGHT
  }

  lemma {:induction false} WeightBounds(tags: seq<string>)
    ensures 0 <= WeightOfTags(tags) <= 100
  {
    if tags == [] {
    } else {
      WeightBounds(tags[..|tags| - 1]);
    }
  }

  // ---- what tags mean ----

  /** The last effective tag decides; with none the weight is 100. */
  lemma {:induction false} LastEffectiveTagDecides(tags: seq<string>, i: int)
    requires -1 <= i < |tags|
    requires forall j :: i < j < |tags| ==> Effect(tags[j]) == None
    requires i >= 0 ==> Effect(tags[i]).Some?
    ensures WeightOfTags(tags) == if i == -1 then 100 else Effect(tags[i]).value
    decreases |tags|
  {
    if i == |tags| - 1 {
    } else {
      LastEffectiveTagDecides(tags[..|tags| - 1], i);
    }
  }

  lemma AtoiHasNoUnderscore(s: string)
    requires Atoi(s).Some?
    ensures '_' !in s
  {
    var signed := s[0] == '-' || s[0] == '+';
    var digits := if signed then s[1..] else s;
    assert forall c :: c in digits ==> IsDigit(c);
    assert s == [s[0]] + s[1..];
    assert signed ==> s[0] != '_';
  }

  /** The tag stg sets the weight 1. Any other is effective exactly when it is the prefix followed by
      a machine integer, and then it sets that integer, or the bound that it is beyond. */
  lemma EffectOf(tag: string)
    ensures Effect(tag) ==
            if tag == "stg" then Some(1)
            else if "weight_" <= tag && Atoi(tag[7..]).Some? then
              var w := Atoi(tag[7..]).value;
              Some(if w < 0 then 0 else if w > 100 then 100 else w)
            else None
  {
    if tag == "stg" {
      return;
    }
    assert Text.Index(tag, PREFIX) == 0 ==> PREFIX <= tag;
    if PREFIX <= tag {
      assert Text.OccursAt(tag, PREFIX, 0);
      Text.IndexLeast(tag, PREFIX, 0);
      var rest := tag[|PREFIX|..];
      assert tag == "weight" + "_" + rest;
      Text.SplitHead("weight", "_", rest);
      Text.FirstPiece(rest, '_');
      if Atoi(rest).Some? {
        AtoiHasNoUnderscore(rest);
      }
    }
  }

  /** For every machine integer the tag printed from it sets it, kept within 0 and 100. */
  lemma WeightTag(w: int)
    requires IsInt64(w)
    ensures Effect("weight_" + Itoa(w)) == Some(if w < 0 then 0 else if w > 100 then 100 else w)
  {
    var tag := PREFIX + Itoa(w);
    assert tag[0] == 'w' && tag[|PREFIX|..] == Itoa(w);
    AtoiItoa(w);
    EffectOf(tag);
  }

  // ---- selection ----

  function Total(order: seq<string>, tagMap: TagMap): (t: int)
    ensures 0 <= t <= 100 * |order|
  {
    if order == [] then 0 else Total(order[..|order| - 1], tagMap) + Weight(tagMap, order[|order| - 1])
  }

  function Steps(order: seq<string>, tagMap: TagMap): (s: seq<int>)
    ensures |s| == |order|
  {
    if order == [] then [] else Steps(order[..|order| - 1], tagMap) + [Total(order, tagMap)]
  }

  /** The first step above the draw; the search leaves 0 if there is none. */
  function Search(steps: seq<int>, draw: int): (i: nat)
    ensures i < |steps| || i == 0
  {
    if steps == [] then 0
    else
      var i := Search(steps[..|steps| - 1], draw);
      if i < |steps| - 1 && draw < steps[i] then i
      else if draw < steps[|steps| - 1] then |steps| - 1
      else 0
  }

  /** rand.Intn panics on a bound that is not positive. */
  datatype Selection<E> = Picked(ep: E, addr: string) | NoEndpoints | Panic

  function Choose<E>(endpoints: map<string, E>, tagMap: TagMap, order: seq<string>, draw: int): Selection<E>
    requires Elements(order) == endpoints.Keys
  {
    if order == [] then NoEndpoints
    else if |order| == 1 then Picked(endpoints[order[0]], order[0])
    else if Total(order, tagMap) <= 0 then Panic
    else
      var i := Search(Steps(order, tagMap), draw);
      Picked(endpoints[order[i]], order[i])
  }

  /** `order` is the order of the range over the endpoints, `draw` what rand.Intn returns. */
  method Select<E>(endpoints: map<string, E>, tagMap: TagMap, order: seq<string>, draw: nat)
    returns (r: Selection<E>)
    requires Visits(order, endpoints.Keys)
    requires 0 < Total(order, tagMap) ==> draw < Total(order, tagMap)
    ensures r == Choose(endpoints, tagMap, order, draw)
  {
    var keys: seq<string>, steps: seq<int>, totalWeight := [], [], 0;
    for k := 0 to |order|
      invariant keys == order[..k]
      invariant steps == Steps(order[..k], tagMap) && totalWeight == Total(order[..k], tagMap)
    {
      assert order[..k + 1][..k] == order[..k];
      keys := keys + [order[k]];
      var weight := 100;
      if order[k] in tagMap {
        weight := TagLoop(tagMap[order[k]]);
      }
      totalWeight := totalWeight + weight;
      steps := steps + [totalWeight];
    }
    assert order[..|order|] == order;
    if |keys| == 0 {
      return NoEndpoints;
    }
    if |keys| == 1 {
      return Picked(endpoints[keys[0]], keys[0]);
    }
    if totalWeight <= 0 {
      return Panic;
    }
    var idx := 0;
    for i := 0 to |steps|
      invariant idx == 0 && forall j :: 0 <= j < i ==> draw >= steps[j]
    {
      if draw < steps[i] {
        idx := i;
        SearchFinds(steps, draw, i);
        break;
      }
    }
    assert steps[|steps| - 1] == totalWeight;
    return Picked(endpoints[keys[idx]], keys[idx]);
  }

  method TagLoop(tags: seq<string>) returns (weight: int)
    ensures weight == WeightOfTags(tags)
  {
    weight := 100;
    for j := 0 to |tags|
      invariant weight == WeightOfTags(tags[..j])
    {
      assert tags[..j + 1][..j] == tags[..j];
      var tag := tags[j];
      if tag == "stg" {
        weight := 1;
      } else if Text.Index(tag, PREFIX) == 0 {
        var arr := Text.Split(tag, "_");
        if |arr| == 2 {
          var parsed := Atoi(arr[1]);
          if parsed.Some? {
            var w := parsed.value;
            if w < 0 {
              w := 0;
            } else if w > 100 {
              w := 100;
            }
            weight := w;
          }
        }
      }
    }
    assert tags[..|tags|] == tags;
  }

  lemma {:induction false} SearchFinds(steps: seq<int>, draw: int, i: nat)
    requires i < |steps| && draw < steps[i] && forall j :: 0 <= j < i ==> draw >= steps[j]
    ensures Search(steps, draw) == i
    decreases |steps|
  {
    if i < |steps| - 1 {
      SearchFinds(steps[..|steps| - 1], draw, i);
    } else {
      SearchMisses(steps[..|steps| - 1], draw);
    }
  }

  lemma {:induction false} SearchMisses(steps: seq<int>, draw: int)
    requires forall j :: 0 <= j < |steps| ==> draw >= steps[j]
    ensures Search(steps, draw) == 0
  {
    if steps == [] {
    } else {
      SearchMisses(steps[..|steps| - 1], draw);
    }
  }

  // ---- the distribution ----

  lemma {:induction false} StepIsTotal(order: seq<string>, tagMap: TagMap, i: nat)
    requires i < |order|
    ensures Steps(order, tagMap)[i] == Total(order[..i + 1], tagMap)
    decreases |order|
  {
    if i < |order| - 1 {
      StepIsTotal(order[..|order| - 1], tagMap, i);
      assert order[..|order| - 1][..i + 1] == order[..i + 1];
    } else {
      assert order[..i + 1] == order;
    }
  }

  lemma {:induction false} TotalGrows(order: seq<string>, tagMap: TagMap, i: nat, j: nat)
    requires i <= j <= |order|
    ensures Total(order[..i], tagMap) <= Total(order[..j], tagMap)
    decreases j
  {
    if i == j {
    } else {
      TotalGrows(order, tagMap, i, j - 1);
      assert order[..j][..j - 1] == order[..j - 1];
    }
  }

  /** The draws that pick position i are those between the weights before it and up to it. */
  lemma PicksIff(order: seq<string>, tagMap: TagMap, draw: int, i: nat)
    requires i < |order| && 0 <= draw < Total(order, tagMap)
    ensures Search(Steps(order, tagMap), draw) == i <==>
            Total(order[..i], tagMap) <= draw < Total(order[..i + 1], tagMap)
  {
    var steps := Steps(order, tagMap);
    var found := FirstAbove(order, tagMap, draw);
    SearchFinds(steps, draw, found);
    StepIsTotal(order, tagMap, i);
    if Total(order[..i], tagMap) <= draw < Total(order[..i + 1], tagMap) {
      if found < i {
        StepIsTotal(order, tagMap, found);
        TotalGrows(order, tagMap, found + 1, i);
      }
    } else if found == i && i > 0 {
      StepIsTotal(order, tagMap, i - 1);
    }
  }

  /** A draw below the total is below some step: the search always breaks at an index. */
  lemma FirstAbove(order: seq<string>, tagMap: TagMap, draw: int) returns (i: nat)
    requires 0 <= draw < Total(order, tagMap)
    ensures i < |order| && draw < Steps(order, tagMap)[i]
    ensures forall j :: 0 <= j < i ==> draw >= Steps(order, tagMap)[j]
  {
    assert order[..|order|] == order;
    i := 0;
    while i < |order| && draw >= Steps(order, tagMap)[i]
      invariant i <= |order| && forall j :: 0 <= j < i ==> draw >= Steps(order, tagMap)[j]
    {
      i := i + 1;
    }
    if i == |order| {
      StepIsTotal(order, tagMap, |order| - 1);
    }
  }

  /** The draws below the total on which an address is picked. */
  function Draws(order: seq<string>, tagMap: TagMap, addr: string): set<int> {
    set d | 0 <= d < Total(order, tagMap) && Addr(order, tagMap, d) == addr
  }

  function Addr(order: seq<string>, tagMap: TagMap, draw: int): string {
    var i := Search(Steps(order, tagMap), draw);
    if i < |order| then order[i] else ""
  }

  function Interval(lo: int, hi: int): (r: set<int>)
    requires lo <= hi
    ensures forall d :: d in r <==> lo <= d < hi
    ensures |r| == hi - lo
    decreases hi - lo
  {
    if lo == hi then {} else Interval(lo, hi - 1) + {hi - 1}
  }

  lemma AddrIff(order: seq<string>, tagMap: TagMap, draw: int, i: nat)
    requires NoDuplicates(order) && i < |order| && 0 <= draw < Total(order, tagMap)
    ensures Addr(order, tagMap, draw) == order[i] <==>
            Total(order[..i], tagMap) <= draw < Total(order[..i + 1], tagMap)
  {
    var found := FirstAbove(order, tagMap, draw);
    SearchFinds(Steps(order, tagMap), draw, found);
    PicksIff(order, tagMap, draw, i);
  }

  lemma TotalAt(order: seq<string>, tagMap: TagMap, i: nat)
    requires i < |order|
    ensures Total(order[..i + 1], tagMap) == Total(order[..i], tagMap) + Weight(tagMap, order[i])
    ensures Total(order[..i + 1], tagMap) <= Total(order, tagMap)
  {
    assert order[..i + 1][..i] == order[..i];
    assert order[..|order|] == order;
    TotalGrows(order, tagMap, i + 1, |order|);
  }

  /** Of the draws from 0 up to the total, exactly as many pick an address as its weight. */
  lemma ExactlyWeighted(order: seq<string>, tagMap: TagMap, addr: string)
    requires NoDuplicates(order) && addr in order
    ensures |Draws(order, tagMap, addr)| == Weight(tagMap, addr)
  {
    var i :| 0 <= i < |order| && order[i] == addr;
    var lo, hi := Total(order[..i], tagMap), Total(order[..i + 1], tagMap);
    TotalAt(order, tagMap, i);
    DrawsAreInterval(order, tagMap, i);
    assert |Interval(lo, hi)| == hi - lo;
  }

  lemma DrawsAreInterval(order: seq<string>, tagMap: TagMap, i: nat)
    requires NoDuplicates(order) && i < |order|
    requires Total(order[..i], tagMap) <= Total(order[..i + 1], tagMap) <= Total(order, tagMap)
    ensures Draws(order, tagMap, order[i]) == Interval(Total(order[..i], tagMap), Total(order[..i + 1], tagMap))
  {
    var lo, hi := Total(order[..i], tagMap), Total(order[..i + 1], tagMap);
    forall d
      ensures d in Draws(order, tagMap, order[i]) <==> d in Interval(lo, hi)
    {
      if 0 <= d < Total(order, tagMap) {
        AddrIff(order, tagMap, d, i);
      }
    }
  }

  /** The draws on which Choose picks an address. */
  function ChosenOn<E>(endpoints: map<string, E>, tagMap: TagMap, order: seq<string>, addr: string): set<int>
    requires Elements(order) == endpoints.Keys
  {
    set d | 0 <= d < Total(order, tagMap) &&
            Choose(endpoints, tagMap, order, d).Picked? && Choose(endpoints, tagMap, order, d).addr == addr
  }

  lemma ChooseIsAddr<E>(endpoints: map<string, E>, tagMap: TagMap, order: seq<string>, draw: int)
    requires Visits(order, endpoints.Keys) && |order| >= 2 && 0 <= draw < Total(order, tagMap)
    ensures var addr := Addr(order, tagMap, draw);
            addr in endpoints && Choose(endpoints, tagMap, order, draw) == Picked(endpoints[addr], addr)
  {
    assert Addr(order, tagMap, draw) in Elements(order);
  }

  /** The balancer is exactly weighted: among two or more endpoints, whatever the order of the
      range, each is chosen on as many draws as its weight. */
  lemma SelectIsWeighted<E>(endpoints: map<string, E>, tagMap: TagMap, order: seq<string>, addr: string)
    requires Visits(order, endpoints.Keys) && |endpoints| >= 2 && addr in endpoints
    ensures |ChosenOn(endpoints, tagMap, order, addr)| == Weight(tagMap, addr)
  {
    NoDuplicatesSize(order);
    assert |endpoints| == |endpoints.Keys|;
    assert addr in Elements(order);
    forall d | 0 <= d < Total(order, tagMap)
      ensures d in ChosenOn(endpoints, tagMap, order, addr) <==> d in Draws(order, tagMap, addr)
    {
      ChooseIsAddr(endpoints, tagMap, order, d);
    }
    assert ChosenOn(endpoints, tagMap, order, addr) == Draws(order, tagMap, addr);
    ExactlyWeighted(order, tagMap, addr);
  }

  /** In numbers: among two or more endpoints one whose last tag is weight_w is chosen on exactly w
      draws, or on none or 100 if w is beyond these, one whose last tag is stg on one, and one
      without tags on 100. */
  lemma ChosenInNumbers<E>(endpoints: map<string, E>, tagMap: TagMap, order: seq<string>, addr: string, w: int)
    requires Visits(order, endpoints.Keys) && |endpoints| >= 2 && addr in endpoints && IsInt64(w)
    ensures addr in tagMap && tagMap[addr] != [] && tagMap[addr][|tagMap[addr]| - 1] == "weight_" + Itoa(w) ==>
              |ChosenOn(endpoints, tagMap, order, addr)| == if w < 0 then 0 else if w > 100 then 100 else w
    ensures addr in tagMap && tagMap[addr] != [] && tagMap[addr][|tagMap[addr]| - 1] == "stg" ==>
              |ChosenOn(endpoints, tagMap, order, addr)| == 1
    ensures addr !in tagMap || tagMap[addr] == [] ==> |ChosenOn(endpoints, tagMap, order, addr)| == 100
  {
    SelectIsWeighted(endpoints, tagMap, order, addr);
    WeightTag(w);
  }

  /** Among two or more endpoints the i-th in the order is chosen exactly on the draws from the sum
      of the weights before it up to the sum with its own. */
  lemma ChooseIff<E>(endpoints: map<string, E>, tagMap: TagMap, order: seq<string>, draw: int, i: nat)
    requires Visits(order, endpoints.Keys) && |endpoints| >= 2
    requires i < |order| && 0 <= draw < Total(order, tagMap)
    ensures order[i] in endpoints
    ensures Choose(endpoints, tagMap, order, draw) == Picked(endpoints[order[i]], order[i]) <==>
            Total(order[..i], tagMap) <= draw < Total(order[..i], tagMap) + Weight(tagMap, order[i])
  {
    NoDuplicatesSize(order);
    assert |endpoints| == |endpoints.Keys|;
    assert order[i] in Elements(order);
    ChooseIsAddr(endpoints, tagMap, order, draw);
    AddrIff(order, tagMap, draw, i);
    TotalAt(order, tagMap, i);
  }

  /** So no two orders of iteration give an address different chances, and an address of weight
      zero is never picked among two or more. */
  lemma OrderIsImmaterial(order: seq<string>, order': seq<string>, tagMap: TagMap, addr: string)
    requires NoDuplicates(order) && NoDuplicates(order') && Elements(order) == Elements(order')
    ensures |Draws(order, tagMap, addr)| == |Draws(order', tagMap, addr)|
    ensures Total(order, tagMap) == Total(order', tagMap)
    ensures addr in order && Weight(tagMap, addr) == 0 ==> Draws(order, tagMap, addr) == {}
  {
    SameTotal(order, order', tagMap);
    assert addr in order <==> addr in Elements(order);
    assert addr in order' <==> addr in Elements(order');
    if addr in order {
      ExactlyWeighted(order, tagMap, addr);
      ExactlyWeighted(order', tagMap, addr);
    } else {
      NeverPicked(order, tagMap, addr);
      NeverPicked(order', tagMap, addr);
    }
  }

  lemma NeverPicked(order: seq<string>, tagMap: TagMap, addr: string)
    requires addr !in order
    ensures Draws(order, tagMap, addr) == {}
  {
    forall d | 0 <= d < Total(order, tagMap) ensures Addr(order, tagMap, d) != addr {
      var found := FirstAbove(order, tagMap, d);
      SearchFinds(Steps(order, tagMap), d, found);
    }
  }

  lemma {:induction false} SameTotal(order: seq<string>, order': seq<string>, tagMap: TagMap)
    requires NoDuplicates(order) && NoDuplicates(order') && Elements(order) == Elements(order')
    ensures Total(order, tagMap) == Total(order', tagMap)
    decreases |order|
  {
    NoDuplicatesSize(order);
    NoDuplicatesSize(order');
    if order == [] {
    } else {
      var last := order[|order| - 1];
      assert last in Elements(order');
      var i :| 0 <= i < |order'| && order'[i] == last;
      var without := order'[..i] + order'[i + 1..];
      TotalWithout(order', tagMap, i);
      ElementsLast(order);
      assert last !in order[..|order| - 1];
      ElementsWithout(order', i);
      SameTotal(order[..|order| - 1], without, tagMap);
    }
  }

  lemma ElementsWithout(s: seq<string>, i: nat)
    requires i < |s| && NoDuplicates(s)
    ensures Elements(s[..i] + s[i + 1..]) == Elements(s) - {s[i]}
    ensures NoDuplicates(s[..i] + s[i + 1..])
  {
    assert s == s[..i] + [s[i]] + s[i + 1..];
  }

  lemma {:induction false} TotalWithout(order: seq<string>, tagMap: TagMap, i: nat)
    requires i < |order|
    ensures Total(order, tagMap) == Total(order[..i] + order[i + 1..], tagMap) + Weight(tagMap, order[i])
    decreases |order|
  {
    var n := |order| - 1;
    if i < n {
      var init := order[..n];
      TotalWithout(init, tagMap, i);
      var rest := order[..i] + order[i + 1..];
      assert rest[..|rest| - 1] == init[..i] + init[i + 1..];
      assert rest[|rest| - 1] == order[n];
    } else {
      assert order[..i] + order[i + 1..] == order[..n];
    }
  }

  lemma {:induction false} ZeroTotalIff(order: seq<string>, tagMap: TagMap)
    ensures Total(order, tagMap) <= 0 <==> forall a :: a in order ==> Weight(tagMap, a) == 0
  {
    if order == [] {
    } else {
      ZeroTotalIff(order[..|order| - 1], tagMap);
      assert order == order[..|order| - 1] + [order[|order| - 1]];
    }
  }

  /** Select panics exactly on two or more endpoints that all weigh nothing, fails exactly on none,
      and a single endpoint is picked whatever its weight. */
  lemma PanicIff<E>(endpoints: map<string, E>, tagMap: TagMap, order: seq<string>, draw: int)
    requires Visits(order, endpoints.Keys)
    ensures var r := Choose(endpoints, tagMap, order, draw);
            && (r == Panic <==> |endpoints| >= 2 && forall a :: a in endpoints ==> Weight(tagMap, a) == 0)
            && (r == NoEndpoints <==> |endpoints| == 0)
            && (r.Picked? ==> r.addr in endpoints && r.ep == endpoints[r.addr])
  {
    NoDuplicatesSize(order);
    assert |endpoints| == |endpoints.Keys|;
    assert forall a :: a in order <==> a in endpoints;
    ZeroTotalIff(order, tagMap);
  }
}
