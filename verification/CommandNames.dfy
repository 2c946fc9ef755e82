/** The dash-joined texts by which clients, circuits and metrics name each other
    (client/http/endpoint.go, client/http/middleware). */
module CommandNames {
  import opened Text

  // HTTP methods are called verbs here, `method` being a keyword.

  const DASH: char := '-'

  predicate DashFree(s: string) { DASH !in s }

  /** normal: dashes become underscores. */
  function Normal(s: string): string { Replace(s, '-', '_') }

  function Dashed(a: string, b: string): string { a + [DASH] + b }

  function Fields(s: string): seq<string> { Split(s, [DASH]) }

  /** What endpointClient.init passes to the circuit breaker. */
  function CommandName(source: string, host: string, uri: string, verb: string): string {
    Dashed(Dashed(Dashed(Normal(source), Normal(host)), Normal(uri)), verb)
  }

  /** The per-address command of the breaker. */
  function Command(commandName: string, addr: string): string {
    Dashed(commandName, addr)
  }

  function Key(addr: string, uri: string, verb: string): string {
    Dashed(Dashed(addr, uri), verb)
  }

  /** The key the breaker takes apart its command name for; it indexes segments 2 and 3. */
  function BreakerKey(commandName: string, addr: string): string
    requires |Fields(commandName)| >= 4
  {
    Key(addr, Fields(commandName)[2], Fields(commandName)[3])
  }

  /** The key that resolveHost looks up and that the closer cleans up: nothing is normalised. */
  function EndpointKey(addr: string, uri: string, verb: string): string {
    Key(addr, uri, verb)
  }

  datatype Labels = Labels(src: string, tgt: string, uri: string, verb: string, addr: string)

  /** The metrics collector reads the first five segments of a command. */
  function CollectorLabels(cmd: string): Labels
    requires |Fields(cmd)| >= 5
  {
    var f := Fields(cmd);
    Labels(f[0], f[1], f[2], f[3], f[4])
  }

  // ---- printing and taking apart ----

  lemma FieldsDashed(a: string, b: string)
    ensures Fields(Dashed(a, b)) == Fields(a) + Fields(b)
  {
    SplitAppend(a, DASH, b);
  }

  lemma FieldsSingle(s: string)
    ensures DashFree(s) <==> Fields(s) == [s]
  {
    FirstPiece(s, DASH);
  }

  /** The texts are the same but for dashes and underscores. */
  predicate DashAlike(s: string, t: string) {
    |s| == |t| && forall i :: 0 <= i < |s| ==> s[i] == t[i] || {s[i], t[i]} == {'-', '_'}
  }

  /** These are the texts that have one normal form. */
  lemma NormalIff(s: string, t: string)
    ensures Normal(s) == Normal(t) <==>
            |s| == |t| && forall i :: 0 <= i < |s| ==> s[i] == t[i] || {s[i], t[i]} == {'-', '_'}
  {
    if Normal(s) == Normal(t) {
      assert |Normal(s)| == |s| && |Normal(t)| == |t|;
      forall i | 0 <= i < |s| ensures s[i] == t[i] || {s[i], t[i]} == {'-', '_'} {
        assert Normal(s)[i] == Normal(t)[i];
        SameChar(s[i], t[i]);
      }
    } else if DashAlike(s, t) {
      forall i | 0 <= i < |s| ensures Normal(s)[i] == Normal(t)[i] {
        SameChar(s[i], t[i]);
      }
    }
  }

  lemma SameChar(c: char, d: char)
    ensures (if c == '-' then '_' else c) == (if d == '-' then '_' else d) <==> c == d || {c, d} == {'-', '_'}
  {
    if {c, d} == {'-', '_'} {
      assert c in {'-', '_'} && d in {'-', '_'} && '-' in {c, d} && '_' in {c, d};
    }
    if (c == '-' && d == '_') || (c == '_' && d == '-') {
      assert {c, d} == {'-', '_'};
    }
  }

  /** A name and a key as they are printed. */
  lemma NamePrinted()
    ensures CommandName("my-app", "user", "/user-info", "GET") == "my_app-user-/user_info-GET"
    ensures EndpointKey("10.0.0.1:80", "/user-info", "GET") == "10.0.0.1:80-/user-info-GET"
  {
    assert Normal("my-app") == "my_app" && Normal("user") == "user" && Normal("/user-info") == "/user_info";
  }

  lemma FieldsNormal(s: string)
    ensures Fields(Normal(s)) == [Normal(s)]
  {
    ReplaceFree(s, '-', '_');
    FieldsSingle(Normal(s));
  }

  /** Whatever the source, the host and the uri, the name's first segments are their normal forms,
      and the rest are the segments of the method. */
  lemma CommandNameFields(source: string, host: string, uri: string, verb: string)
    ensures Fields(CommandName(source, host, uri, verb)) ==
            [Normal(source), Normal(host), Normal(uri)] + Fields(verb)
  {
    var sh := Dashed(Normal(source), Normal(host));
    FieldsNormal(source);
    FieldsNormal(host);
    FieldsNormal(uri);
    FieldsDashed(Normal(source), Normal(host));
    FieldsDashed(sh, Normal(uri));
    FieldsDashed(Dashed(sh, Normal(uri)), verb);
  }

  /** So the breaker never runs out of segments, and this is the key it makes. */
  lemma BreakerKeyOf(source: string, host: string, uri: string, verb: string, addr: string)
    ensures var name := CommandName(source, host, uri, verb);
            && |Fields(name)| >= 4
            && BreakerKey(name, addr) == Key(addr, Normal(uri), Fields(verb)[0])
  {
    CommandNameFields(source, host, uri, verb);
  }

  /** The collector recovers what was printed exactly when the method and the address have no dash. */
  lemma CollectorRecoversIff(source: string, host: string, uri: string, verb: string, addr: string)
    ensures var cmd := Command(CommandName(source, host, uri, verb), addr);
            && |Fields(cmd)| >= 5
            && (CollectorLabels(cmd) == Labels(Normal(source), Normal(host), Normal(uri), verb, addr)
                <==> DashFree(verb) && DashFree(addr))
  {
    CommandNameFields(source, host, uri, verb);
    FieldsDashed(CommandName(source, host, uri, verb), addr);
    FirstPiece(verb, DASH);
    FirstPiece(addr, DASH);
  }

  // ---- what a key determines ----

  lemma KeyFields(addr: string, uri: string, verb: string)
    requires DashFree(uri) && DashFree(verb)
    ensures Fields(Key(addr, uri, verb)) == Fields(addr) + [uri, verb]
  {
    FieldsSingle(uri);
    FieldsSingle(verb);
    FieldsDashed(addr, uri);
    FieldsDashed(Dashed(addr, uri), verb);
  }

  lemma FieldsInjective(a: string, b: string)
    requires Fields(a) == Fields(b)
    ensures a == b
  {
    JoinSplit(a, [DASH]);
    JoinSplit(b, [DASH]);
  }

  lemma AppendedPair<T>(xs: seq<T>, a: T, b: T, ys: seq<T>, c: T, d: T)
    requires xs + [a, b] == ys + [c, d]
    ensures xs == ys && a == c && b == d
  {
    assert |xs| == |ys|;
    assert xs == (xs + [a, b])[..|xs|] == (ys + [c, d])[..|ys|] == ys;
    assert (xs + [a, b])[|xs|] == a && (xs + [a, b])[|xs| + 1] == b;
  }

  /** For dash-free uris and methods a key determines its address, uri and method, whatever dashes
      the address has. */
  lemma KeyInjective(addr: string, uri: string, verb: string, addr': string, uri': string, verb': string)
    requires DashFree(uri) && DashFree(verb) && DashFree(uri') && DashFree(verb')
    requires Key(addr, uri, verb) == Key(addr', uri', verb')
    ensures addr == addr' && uri == uri' && verb == verb'
  {
    KeyFields(addr, uri, verb);
    KeyFields(addr', uri', verb');
    AppendedPair(Fields(addr), uri, verb, Fields(addr'), uri', verb');
    FieldsInjective(addr, addr');
  }

  lemma SameLengthParts(p: string, a: string, b: string, x: string, y: string)
    requires |a| == |b| && p + a + x == p + b + y
    ensures a == b && x == y
  {
    assert (p + a + x)[|p|..|p| + |a|] == a && (p + b + y)[|p|..|p| + |b|] == b;
    assert (p + a + x)[|p| + |a|..] == x && (p + b + y)[|p| + |b|..] == y;
  }

  /** The breaker files an endpoint under the key by which resolveHost and the closer ask for it
      exactly when neither the uri nor the method contains a dash. */
  lemma KeysAgreeIff(source: string, host: string, uri: string, verb: string, addr: string)
    ensures var name := CommandName(source, host, uri, verb);
            && |Fields(name)| >= 4
            && (BreakerKey(name, addr) == EndpointKey(addr, uri, verb) <==> DashFree(uri) && DashFree(verb))
  {
    BreakerKeyOf(source, host, uri, verb, addr);
    ReplaceFree(uri, '-', '_');
    FirstPiece(verb, DASH);
    var first := Fields(verb)[0];
    if Key(addr, Normal(uri), first) == Key(addr, uri, verb) {
      Regroup(addr + [DASH], Normal(uri), [DASH], first);
      Regroup(addr + [DASH], uri, [DASH], verb);
      assert Key(addr, uri, verb) == (addr + [DASH]) + uri + ([DASH] + verb);
      assert Key(addr, Normal(uri), first) == (addr + [DASH]) + Normal(uri) + ([DASH] + first);
      SameLengthParts(addr + [DASH], Normal(uri), uri, [DASH] + first, [DASH] + verb);
      assert ([DASH] + first)[1..] == first && ([DASH] + verb)[1..] == verb;
    }
  }

  // ---- what a command determines ----

  /** The longer method starts with the shorter one and a dash. */
  predicate Extends(verb: string, longer: string) {
    Dashed(verb, "") <= longer
  }

  lemma ExtensionHasDash(verb: string, longer: string)
    requires Extends(verb, longer)
    ensures longer == Dashed(verb, longer[|verb| + 1..]) && !DashFree(longer)
  {
    assert longer[|verb|] == Dashed(verb, "")[|verb|];
  }

  lemma DashedExtends(verb: string, rest: string)
    ensures Extends(verb, verb + [DASH] + rest)
  {
  }

  lemma ExtendsByFields(verb: string, longer: string, more: seq<string>)
    requires more != [] && Fields(longer) == Fields(verb) + more
    ensures Extends(verb, longer)
  {
    JoinSplit(longer, [DASH]);
    JoinSplit(verb, [DASH]);
    JoinAppend(Fields(verb), more, [DASH]);
    DashedExtends(verb, Join(more, [DASH]));
  }

  lemma SameConcatenation<T>(xs: seq<T>, xs': seq<T>, ys: seq<T>, ys': seq<T>)
    requires xs + xs' == ys + ys' && |xs| <= |ys|
    ensures ys == xs + ys[|xs|..]
    ensures |xs| == |ys| ==> xs == ys && xs' == ys'
  {
    assert xs == (xs + xs')[..|xs|] == (ys + ys')[..|xs|] == ys[..|xs|];
    assert |xs| == |ys| ==> xs' == (xs + xs')[|xs|..] && ys' == (ys + ys')[|ys|..];
  }

  lemma SameFields(verb: string, addr: string, verb': string, addr': string)
    requires Fields(verb) + Fields(addr) == Fields(verb') + Fields(addr')
    requires !Extends(verb, verb') && |Fields(verb)| <= |Fields(verb')|
    ensures verb == verb' && addr == addr'
  {
    SameConcatenation(Fields(verb), Fields(addr), Fields(verb'), Fields(addr'));
    var more := Fields(verb')[|Fields(verb)|..];
    if more != [] {
      ExtendsByFields(verb, verb', more);
    } else {
      FieldsInjective(verb, verb');
      FieldsInjective(addr, addr');
    }
  }

  /** Unless one method extends the other, a command determines its normalised fields, its method
      and its address. */
  lemma CommandInjective(source: string, host: string, uri: string, verb: string, addr: string,
                         source': string, host': string, uri': string, verb': string, addr': string)
    requires !Extends(verb, verb') && !Extends(verb', verb)
    requires Command(CommandName(source, host, uri, verb), addr) ==
             Command(CommandName(source', host', uri', verb'), addr')
    ensures Normal(source) == Normal(source') && Normal(host) == Normal(host')
    ensures Normal(uri) == Normal(uri') && verb == verb' && addr == addr'
  {
    CommandFields(source, host, uri, verb, addr);
    CommandFields(source', host', uri', verb', addr');
    var f := [Normal(source), Normal(host), Normal(uri)];
    var f' := [Normal(source'), Normal(host'), Normal(uri')];
    SameConcatenation(f, Fields(verb) + Fields(addr), f', Fields(verb') + Fields(addr'));
    assert f[0] == f'[0] && f[1] == f'[1] && f[2] == f'[2];
    if |Fields(verb)| <= |Fields(verb')| {
      SameFields(verb, addr, verb', addr');
    } else {
      SameFields(verb', addr', verb, addr);
    }
  }

  lemma CommandFields(source: string, host: string, uri: string, verb: string, addr: string)
    ensures Fields(Command(CommandName(source, host, uri, verb), addr)) ==
            [Normal(source), Normal(host), Normal(uri)] + (Fields(verb) + Fields(addr))
  {
    CommandNameFields(source, host, uri, verb);
    FieldsDashed(CommandName(source, host, uri, verb), addr);
  }

  /** A method that extends another gives one command two keys. */
  lemma ExtendingMethodsCollide(source: string, host: string, uri: string, verb: string, longer: string)
    requires Extends(verb, longer)
    ensures var addr := Dashed(longer[|verb| + 1..], "");
            && Command(CommandName(source, host, uri, verb), addr) ==
               Command(CommandName(source, host, uri, longer), "")
            && |Fields(CommandName(source, host, uri, verb))| >= 4
            && |Fields(CommandName(source, host, uri, longer))| >= 4
            && BreakerKey(CommandName(source, host, uri, verb), addr) !=
               BreakerKey(CommandName(source, host, uri, longer), "")
  {
    var rest := longer[|verb| + 1..];
    ExtensionHasDash(verb, longer);
    BreakerKeyOf(source, host, uri, verb, Dashed(rest, ""));
    BreakerKeyOf(source, host, uri, longer, "");
    FieldsDashed(verb, rest);
    var prefix := Dashed(Dashed(Normal(source), Normal(host)), Normal(uri)) + [DASH];
    assert CommandName(source, host, uri, longer) == prefix + (verb + [DASH] + rest);
    assert CommandName(source, host, uri, verb) == prefix + verb;
    assert prefix + verb + [DASH] + (rest + [DASH]) == prefix + (verb + [DASH] + rest) + [DASH];
    var first := Fields(verb)[0];
    assert |Key(Dashed(rest, ""), Normal(uri), first)| == |rest| + 1 + |Key("", Normal(uri), first)|;
  }

  // ---- which lookups hit ----

  /** Whatever the dashes, resolveHost and the closer ask for the key of a breaker exactly when the
      segments of their address, uri and method are the breaker's address segments, its normalised
      uri and the first segment of its method. */
  lemma LookupHitsIff(addr: string, uri: string, verb: string,
                      source: string, host: string, uri': string, verb': string, addr': string)
    ensures var name := CommandName(source, host, uri', verb');
            && |Fields(name)| >= 4
            && (EndpointKey(addr, uri, verb) == BreakerKey(name, addr') <==>
                Fields(addr) + Fields(uri) + Fields(verb) == Fields(addr') + [Normal(uri'), Fields(verb')[0]])
  {
    BreakerKeyOf(source, host, uri', verb', addr');
    FirstFieldDashFree(verb');
    FieldsNormal(uri');
    FieldsSingle(Normal(uri'));
    KeyFields(addr', Normal(uri'), Fields(verb')[0]);
    FieldsDashed(addr, uri);
    FieldsDashed(Dashed(addr, uri), verb);
    if Fields(addr) + Fields(uri) + Fields(verb) == Fields(addr') + [Normal(uri'), Fields(verb')[0]] {
      FieldsInjective(EndpointKey(addr, uri, verb), Key(addr', Normal(uri'), Fields(verb')[0]));
    }
  }

  lemma FirstFieldDashFree(s: string)
    ensures DashFree(Fields(s)[0])
  {
    SplitPiecesFree(s, [DASH]);
    FreeOfChar(Fields(s)[0], DASH);
  }

  /** So among dash-free addresses a uri or method with a dash asks for a key no breaker makes. */
  lemma DashedLookupMisses(uri: string, verb: string, addr: string,
                           source: string, host: string, uri': string, verb': string, addr': string)
    requires DashFree(addr) && DashFree(addr') && !(DashFree(uri) && DashFree(verb))
    ensures var name := CommandName(source, host, uri', verb');
            |Fields(name)| >= 4 && BreakerKey(name, addr') != EndpointKey(addr, uri, verb)
  {
    LookupHitsIff(addr, uri, verb, source, host, uri', verb', addr');
    FieldsSingle(addr');
    FieldsSingle(addr);
    FirstPiece(uri, DASH);
    FirstPiece(verb, DASH);
  }

  /** With a dash in an address it can ask for another endpoint's: here that of a-b and c. */
  lemma DashedAddressHit()
    ensures |Fields(CommandName("s", "h", "c", "GET"))| >= 4
    ensures EndpointKey("a", "b-c", "GET") == BreakerKey(CommandName("s", "h", "c", "GET"), "a-b")
  {
    BreakerKeyOf("s", "h", "c", "GET", "a-b");
    FieldsSingle("GET");
    FirstPiece("GET", DASH);
    assert Normal("c") == "c";
    assert Key("a", "b-c", "GET") == "a-b-c-GET" == Key("a-b", "c", "GET");
  }
}
