/** The discovery setting as text: printed by the application, parsed by the client
    (app/app.go, client/http/client.go). */
module DiscoveryConfig {
  import opened Wrappers
  import opened Text

  /** The three entries of the parsed map. */
  datatype Config = Config(type_: string, address: string, datacenter: string)

  function ParseSDCfg(cfg: string): Option<Config> {
    if cfg == "" then None
    else
      var segs := Split(cfg, "::");
      if |segs| < 2 then None
      else if segs[0] == "consul" then
        var parts := Split(segs[1], "/");
        if |parts| != 2 then None else Some(Config(segs[0], parts[0], parts[1]))
      else None
  }

  function Print(address: string, datacenter: string): string {
    "consul" + "::" + (address + "/" + datacenter)
  }

  /** Neither separator occurs. */
  predicate Plain(s: string) { '/' !in s && Free(s, "::") }

  lemma PrintedSegments(address: string, datacenter: string)
    ensures Split(Print(address, datacenter), "::") == ["consul"] + Split(address + "/" + datacenter, "::")
  {
    SplitHead("consul", "::", address + "/" + datacenter);
  }

  lemma OccursInPart(a: string, b: string, i: int)
    ensures OccursAt(a, "::", i) ==> OccursAt(a + b, "::", i)
    ensures OccursAt(b, "::", i) ==> OccursAt(a + b, "::", |a| + i)
  {
    if OccursAt(a, "::", i) {
      assert (a + b)[i..i + 2] == a[i..i + 2];
    }
    if OccursAt(b, "::", i) {
      assert (a + b)[|a| + i..|a| + i + 2] == b[i..i + 2];
    }
  }

  /** An occurrence of the double colon does not reach across the slash. */
  lemma OccursOnOneSide(a: string, b: string, i: int)
    requires OccursAt(a + ("/" + b), "::", i)
    ensures OccursAt(a, "::", i) || OccursAt(b, "::", i - |a| - 1)
  {
    var s := a + ("/" + b);
    var cut := s[i..i + 2];
    assert s[i] == cut[0] && s[i + 1] == cut[1];
    assert s[|a|] == '/';
    if i + 2 <= |a| {
      assert a[i..i + 2] == cut;
    } else {
      assert b[i - |a| - 1..i - |a| + 1] == cut;
    }
  }

  lemma FreeInWhole(a: string, b: string)
    requires Free(a, "::") && Free(b, "::")
    ensures Free(a + ("/" + b), "::")
  {
    var s := a + ("/" + b);
    var i := Index(s, "::");
    if i != -1 {
      OccursOnOneSide(a, b, i);
      if OccursAt(a, "::", i) { IndexLeast(a, "::", i); } else { IndexLeast(b, "::", i - |a| - 1); }
    }
  }

  lemma FreeInParts(a: string, b: string)
    requires Free(a + b, "::")
    ensures Free(a, "::") && Free(b, "::")
  {
    var j, k := Index(a, "::"), Index(b, "::");
    OccursInPart(a, b, j);
    OccursInPart(a, b, k);
    if j != -1 { IndexLeast(a + b, "::", j); }
    if k != -1 { IndexLeast(a + b, "::", |a| + k); }
  }

  lemma SplitPair(a: string, b: string)
    ensures Split(a + "/" + b, "/") == Split(a, "/") + Split(b, "/")
  {
    SplitAppend(a, '/', b);
  }

  lemma PlainRoundTrip(address: string, datacenter: string)
    requires Plain(address) && Plain(datacenter)
    ensures ParseSDCfg(Print(address, datacenter)) == Some(Config("consul", address, datacenter))
  {
    var seg := address + ("/" + datacenter);
    FreeInWhole(address, datacenter);
    assert Print(address, datacenter)[..8] == "consul::" && Print(address, datacenter)[8..] == seg;
    ParsedIff(Print(address, datacenter), Config("consul", address, datacenter));
  }

  /** The part of the text that is cut at the slash: the first piece around double colons. */
  lemma RoundTripPlain(address: string, datacenter: string)
    requires ParseSDCfg(Print(address, datacenter)) == Some(Config("consul", address, datacenter))
    ensures Plain(address) && Plain(datacenter)
  {
    PrintedSegments(address, datacenter);
    var seg := Split(address + "/" + datacenter, "::")[0];
    assert Split(Print(address, datacenter), "::")[1] == seg;
    var parts := Split(seg, "/");
    assert |parts| == 2 && parts[0] == address && parts[1] == datacenter;
    PiecesPlain(seg, address, datacenter);
    SplitPiecesFree(address + "/" + datacenter, "::");
    assert address + ("/" + datacenter) == seg;
    FreeInParts(address, "/" + datacenter);
    FreeInParts("/", datacenter);
  }

  lemma PiecesPlain(seg: string, a: string, b: string)
    requires |Split(seg, "/")| == 2 && Split(seg, "/")[0] == a && Split(seg, "/")[1] == b
    ensures seg == a + ("/" + b) && '/' !in a && '/' !in b
  {
    JoinSplit(seg, "/");
    JoinCons(a, [b], "/");
    assert Split(seg, "/") == [a] + [b];
    SplitPiecesFree(seg, "/");
    FreeOfChar(a, '/');
    FreeOfChar(b, '/');
  }

  /** Parsing what was printed gives back the address and the datacenter exactly when neither
      contains a slash or a double colon. */
  lemma RoundTripIff(address: string, datacenter: string)
    ensures ParseSDCfg(Print(address, datacenter)) == Some(Config("consul", address, datacenter)) <==>
            Plain(address) && Plain(datacenter)
  {
    if Plain(address) && Plain(datacenter) {
      PlainRoundTrip(address, datacenter);
    }
    if ParseSDCfg(Print(address, datacenter)) == Some(Config("consul", address, datacenter)) {
      RoundTripPlain(address, datacenter);
    }
  }

  // ---- what is accepted ----

  predicate EndsWithColon(s: string) { s != "" && s[|s| - 1] == ':' }

  lemma FirstBeforeEnd(seg: string, i: nat)
    requires Free(seg, "::") && i < |seg| && OccursAt(seg + "::", "::", i)
    ensures EndsWithColon(seg)
  {
    var s := seg + "::";
    assert s[i] == s[i..i + 2][0] && s[i] == seg[i];
    if i + 2 <= |seg| {
      assert seg[i..i + 2] == s[i..i + 2];
      IndexLeast(seg, "::", i);
    }
  }

  /** After a text without double colons, a double colon is the first exactly unless a colon stands
      before it. */
  lemma FirstDoubleColon(seg: string)
    requires Free(seg, "::")
    ensures Index(seg + "::", "::") == |seg| <==> !EndsWithColon(seg)
  {
    var s := seg + "::";
    assert s[|seg|..|seg| + 2] == "::";
    IndexLeast(s, "::", |seg|);
    if EndsWithColon(seg) {
      ColonBefore(seg);
    } else if Index(s, "::") < |seg| {
      FirstBeforeEnd(seg, Index(s, "::"));
    }
  }

  lemma ColonBefore(seg: string)
    requires EndsWithColon(seg)
    ensures Index(seg + "::", "::") < |seg|
  {
    var s, i := seg + "::", |seg| - 1;
    assert s[i..i + 2] == "::";
    IndexLeast(s, "::", i);
  }

  /** The text after the type starts with this piece, and it is cut off there. */
  predicate Begins(rest: string, seg: string) {
    Free(seg, "::") && (rest == seg || (!EndsWithColon(seg) && seg + "::" <= rest))
  }

  lemma BeginsIff(rest: string, seg: string)
    ensures Split(rest, "::")[0] == seg <==> Begins(rest, seg)
  {
    var i := Index(rest, "::");
    if Begins(rest, seg) && rest != seg {
      FirstDoubleColon(seg);
      assert rest == seg + "::" + rest[|seg| + 2..];
      LeftmostStays(seg, "::", rest[|seg| + 2..]);
    }
    if Split(rest, "::")[0] == seg {
      SplitPiecesFree(rest, "::");
      if i != -1 {
        LeftmostIn(rest, "::", i);
        FirstDoubleColon(seg);
        Cut(rest, "::", i);
      }
    }
  }

  lemma PairIff(seg: string, a: string, b: string)
    ensures Split(seg, "/") == [a, b] <==> seg == a + ("/" + b) && '/' !in a && '/' !in b
  {
    if Split(seg, "/") == [a, b] {
      PiecesPlain(seg, a, b);
    }
    if seg == a + ("/" + b) && '/' !in a && '/' !in b {
      assert seg == a + "/" + b;
      SplitPair(a, b);
      FirstPiece(a, '/');
      FirstPiece(b, '/');
    }
  }

  /** A text starts with the type exactly when its first piece is the type and there are more. */
  lemma TypeIff(cfg: string)
    ensures |Split(cfg, "::")| >= 2 && Split(cfg, "::")[0] == "consul" <==> "consul::" <= cfg
    ensures "consul::" <= cfg ==> Split(cfg, "::") == ["consul"] + Split(cfg[8..], "::")
  {
    if "consul::" <= cfg {
      assert cfg == "consul" + "::" + cfg[8..];
      SplitHead("consul", "::", cfg[8..]);
    }
    var i := Index(cfg, "::");
    if i != -1 && cfg[..i] == "consul" {
      Cut(cfg, "::", i);
    }
  }

  /** Parsing gives exactly the type consul, and an address and a datacenter without slashes that
      stand after it on both sides of a slash, up to the end or to a double colon, after which
      anything may follow. Every other text is refused. */
  lemma ParsedIff(cfg: string, c: Config)
    ensures ParseSDCfg(cfg) == Some(c) <==>
            && c.type_ == "consul" && '/' !in c.address && '/' !in c.datacenter
            && "consul::" <= cfg && Begins(cfg[8..], c.address + ("/" + c.datacenter))
  {
    TypeIff(cfg);
    if "consul::" <= cfg {
      var segs := Split(cfg, "::");
      assert segs[1] == Split(cfg[8..], "::")[0];
      BeginsIff(cfg[8..], segs[1]);
      BeginsIff(cfg[8..], c.address + ("/" + c.datacenter));
      PairIff(segs[1], c.address, c.datacenter);
    }
  }
}
