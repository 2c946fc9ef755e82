/** Go's strings.Index, strings.Split, strings.Join and strings.Replace, and the facts about
    them on which the names and the configuration text of the client rest. */
module Text {

  predicate OccursAt(s: string, sep: string, i: int) {
    0 <= i && i + |sep| <= |s| && s[i..i + |sep|] == sep
  }

  function IndexFrom(s: string, sep: string, i: nat): (r: int)
    requires 0 < |sep| && i <= |s|
    ensures r == -1 || (i <= r && OccursAt(s, sep, r))
    decreases |s| - i
  {
    if i == |s| then -1
    else if OccursAt(s, sep, i) then i
    else IndexFrom(s, sep, i + 1)
  }

  function Index(s: string, sep: string): (r: int)
    requires 0 < |sep|
    ensures r == -1 || OccursAt(s, sep, r)
  {
    IndexFrom(s, sep, 0)
  }

  /** Index finds the leftmost occurrence: none lies before any other. */
  lemma IndexLeast(s: string, sep: string, j: nat)
    requires 0 < |sep| && OccursAt(s, sep, j)
    ensures 0 <= Index(s, sep) <= j
  {
    IndexFromLeast(s, sep, 0, j);
  }

  lemma {:induction false} IndexFromLeast(s: string, sep: string, i: nat, j: nat)
    requires 0 < |sep| && OccursAt(s, sep, j) && i <= j
    ensures i <= IndexFrom(s, sep, i) <= j
    decreases j - i
  {
    if i == j || OccursAt(s, sep, i) {
    } else {
      IndexFromLeast(s, sep, i + 1, j);
    }
  }

  /** No occurrence of the separator. */
  predicate Free(s: string, sep: string)
    requires 0 < |sep|
  {
    Index(s, sep) == -1
  }

  /** Cuts at the leftmost separator first, as strings.Split does. */
  function Split(s: string, sep: string): (r: seq<string>)
    requires 0 < |sep|
    ensures |r| >= 1
    decreases |s|
  {
    var i := Index(s, sep);
    if i == -1 then [s] else [s[..i]] + Split(s[i + |sep|..], sep)
  }

  function Join(parts: seq<string>, sep: string): string {
    if |parts| == 0 then ""
    else if |parts| == 1 then parts[0]
    else parts[0] + sep + Join(parts[1..], sep)
  }

  function Replace(s: string, old_: char, new_: char): string {
    seq(|s|, i requires 0 <= i < |s| => if s[i] == old_ then new_ else s[i])
  }

  /** An occurrence starts with the separator's first character. */
  lemma OccursFirst(s: string, sep: string, i: int)
    requires 0 < |sep| && OccursAt(s, sep, i)
    ensures s[i] == sep[0]
  {
    assert s[i] == s[i..i + |sep|][0];
  }

  lemma FreeOfChar(s: string, c: char)
    ensures Free(s, [c]) <==> c !in s
  {
    if c in s {
      var i :| 0 <= i < |s| && s[i] == c;
      assert s[i..i + 1] == [c];
      IndexLeast(s, [c], i);
    } else if Index(s, [c]) != -1 {
      OccursFirst(s, [c], Index(s, [c]));
    }
  }

  /** A part without the separator's first character is cut off whole. */
  lemma SplitHead(p: string, sep: string, rest: string)
    requires 0 < |sep| && sep[0] !in p
    ensures Split(p + sep + rest, sep) == [p] + Split(rest, sep)
  {
    var s := p + sep + rest;
    assert s[|p|..|p| + |sep|] == sep;
    IndexLeast(s, sep, |p|);
    var i := Index(s, sep);
    OccursFirst(s, sep, i);
    assert forall k :: 0 <= k < |p| ==> s[k] == p[k];
    assert s[..|p|] == p && s[|p| + |sep|..] == rest;
  }

  lemma JoinCons(p: string, parts: seq<string>, sep: string)
    requires |parts| >= 1
    ensures Join([p] + parts, sep) == p + sep + Join(parts, sep)
  {
    assert ([p] + parts)[1..] == parts;
  }

  lemma {:induction false} JoinAppend(xs: seq<string>, ys: seq<string>, sep: string)
    requires xs != [] && ys != []
    ensures Join(xs + ys, sep) == Join(xs, sep) + sep + Join(ys, sep)
  {
    if |xs| == 1 {
      JoinCons(xs[0], ys, sep);
      assert xs == [xs[0]];
    } else {
      JoinAppend(xs[1..], ys, sep);
      JoinCons(xs[0], xs[1..] + ys, sep);
      JoinCons(xs[0], xs[1..], sep);
      assert xs + ys == [xs[0]] + (xs[1..] + ys) && xs == [xs[0]] + xs[1..];
    }
  }

  lemma Cut(s: string, sep: string, i: int)
    requires OccursAt(s, sep, i)
    ensures s == s[..i] + sep + s[i + |sep|..]
  {
  }

  /** Joining undoes splitting. */
  lemma {:induction false} JoinSplit(s: string, sep: string)
    requires 0 < |sep|
    ensures Join(Split(s, sep), sep) == s
    decreases |s|
  {
    var i := Index(s, sep);
    if i == -1 {
    } else {
      var rest := s[i + |sep|..];
      JoinSplit(rest, sep);
      JoinCons(s[..i], Split(rest, sep), sep);
      Cut(s, sep, i);
    }
  }

  /** No piece contains the separator. */
  lemma {:induction false} SplitPiecesFree(s: string, sep: string)
    requires 0 < |sep|
    ensures forall p :: p in Split(s, sep) ==> Free(p, sep)
    decreases |s|
  {
    var i := Index(s, sep);
    if i == -1 {
    } else {
      var head := s[..i];
      SplitPiecesFree(s[i + |sep|..], sep);
      var j := Index(head, sep);
      if j != -1 {
        assert head[j..j + |sep|] == s[j..j + |sep|];
        IndexLeast(s, sep, j);
      }
    }
  }

  /** Every piece but the last ends where the first separator after it begins, and the last has none. */
  predicate LeftmostCuts(parts: seq<string>, sep: string)
    requires 0 < |sep|
  {
    && parts != []
    && (forall i :: 0 <= i < |parts| - 1 ==> Index(parts[i] + sep, sep) == |parts[i]|)
    && Free(parts[|parts| - 1], sep)
  }

  lemma LeftmostStays(p: string, sep: string, rest: string)
    requires 0 < |sep| && Index(p + sep, sep) == |p|
    ensures Index(p + sep + rest, sep) == |p|
  {
    var s := p + sep + rest;
    assert s[|p|..|p| + |sep|] == sep;
    IndexLeast(s, sep, |p|);
    var i := Index(s, sep);
    assert (p + sep)[i..i + |sep|] == s[i..i + |sep|];
    IndexLeast(p + sep, sep, i);
  }

  lemma LeftmostIn(s: string, sep: string, i: nat)
    requires 0 < |sep| && Index(s, sep) == i
    ensures Index(s[..i] + sep, sep) == i
  {
    var h := s[..i] + sep;
    assert h[i..i + |sep|] == sep;
    IndexLeast(h, sep, i);
    var j := Index(h, sep);
    assert h == s[..i + |sep|];
    assert s[j..j + |sep|] == h[j..j + |sep|];
    IndexLeast(s, sep, j);
  }

  lemma CutsCons(p: string, rest: seq<string>, sep: string)
    requires 0 < |sep| && LeftmostCuts(rest, sep) && Index(p + sep, sep) == |p|
    ensures LeftmostCuts([p] + rest, sep)
  {
    var parts := [p] + rest;
    forall i | 0 <= i < |parts| - 1 ensures Index(parts[i] + sep, sep) == |parts[i]| {
      assert i > 0 ==> parts[i] == rest[i - 1];
    }
  }

  lemma CutsTail(parts: seq<string>, sep: string)
    requires 0 < |sep| && LeftmostCuts(parts, sep) && |parts| > 1
    ensures LeftmostCuts(parts[1..], sep) && Index(parts[0] + sep, sep) == |parts[0]|
  {
    var rest := parts[1..];
    forall i | 0 <= i < |rest| - 1 ensures Index(rest[i] + sep, sep) == |rest[i]| {
      assert rest[i] == parts[i + 1];
    }
  }

  lemma {:induction false} SplitCuts(s: string, sep: string)
    requires 0 < |sep|
    ensures LeftmostCuts(Split(s, sep), sep)
    decreases |s|
  {
    var i := Index(s, sep);
    if i == -1 {
    } else {
      SplitCuts(s[i + |sep|..], sep);
      LeftmostIn(s, sep, i);
      CutsCons(s[..i], Split(s[i + |sep|..], sep), sep);
    }
  }

  lemma SplitLeftmost(p: string, sep: string, rest: string)
    requires 0 < |sep| && Index(p + sep, sep) == |p|
    ensures Split(p + sep + rest, sep) == [p] + Split(rest, sep)
  {
    LeftmostStays(p, sep, rest);
    var s := p + sep + rest;
    assert s[..|p|] == p && s[|p| + |sep|..] == rest;
  }

  lemma SplitFree(s: string, sep: string)
    requires 0 < |sep| && Free(s, sep)
    ensures Split(s, sep) == [s]
  {
  }

  lemma {:induction false} SplitJoin(parts: seq<string>, sep: string)
    requires 0 < |sep| && LeftmostCuts(parts, sep)
    ensures Split(Join(parts, sep), sep) == parts
  {
    if |parts| == 1 {
      SplitFree(parts[0], sep);
      assert parts == [parts[0]];
    } else {
      var p, rest := parts[0], parts[1..];
      CutsTail(parts, sep);
      SplitJoin(rest, sep);
      SplitLeftmost(p, sep, Join(rest, sep));
      JoinCons(p, rest, sep);
      assert parts == [p] + rest;
    }
  }

  /** Splitting is the one way to write a text as pieces between separators with every cut at the
      leftmost separator. */
  lemma SplitIff(s: string, sep: string, parts: seq<string>)
    requires 0 < |sep|
    ensures Split(s, sep) == parts <==> LeftmostCuts(parts, sep) && Join(parts, sep) == s
  {
    SplitCuts(s, sep);
    JoinSplit(s, sep);
    if LeftmostCuts(parts, sep) && Join(parts, sep) == s {
      SplitJoin(parts, sep);
    }
  }

  lemma CutAtChar(p: string, c: char)
    ensures Index(p + [c], [c]) == |p| <==> c !in p
  {
    var s := p + [c];
    assert s[|p|..|p| + 1] == [c];
    IndexLeast(s, [c], |p|);
    if c in p {
      var j :| 0 <= j < |p| && p[j] == c;
      assert s[j..j + 1] == [c];
      IndexLeast(s, [c], j);
    } else {
      OccursFirst(s, [c], Index(s, [c]));
    }
  }

  /** Splitting undoes joining at a character exactly when there is a piece and none contains it. */
  lemma SplitJoinIff(parts: seq<string>, c: char)
    ensures Split(Join(parts, [c]), [c]) == parts <==> parts != [] && forall p :: p in parts ==> c !in p
  {
    SplitPiecesFree(Join(parts, [c]), [c]);
    forall p: string ensures Free(p, [c]) <==> c !in p {
      FreeOfChar(p, c);
    }
    if parts != [] && forall p :: p in parts ==> c !in p {
      forall i | 0 <= i < |parts| - 1 ensures Index(parts[i] + [c], [c]) == |parts[i]| {
        CutAtChar(parts[i], c);
      }
      SplitJoin(parts, [c]);
    }
  }

  /** For a one-character separator, splitting distributes over a joint at the separator. */
  lemma {:induction false} SplitAppend(a: string, c: char, b: string)
    ensures Split(a + [c] + b, [c]) == Split(a, [c]) + Split(b, [c])
    decreases |a|
  {
    FreeOfChar(a, c);
    if c !in a {
      SplitHead(a, [c], b);
    } else {
      var head, rest := CutAtFirst(a, c);
      SplitAppend(rest, c, b);
      Regroup(head + [c], rest, [c], b);
      SplitAppendStep(head, [c], rest, rest + [c] + b, Split(b, [c]));
    }
  }

  lemma SplitAppendStep(head: string, sep: string, rest: string, tail: string, parts: seq<string>)
    requires 0 < |sep| && sep[0] !in head
    requires Split(tail, sep) == Split(rest, sep) + parts
    ensures Split(head + sep + tail, sep) == Split(head + sep + rest, sep) + parts
  {
    SplitHead(head, sep, rest);
    SplitHead(head, sep, tail);
    ConsAppend(head, Split(rest, sep), parts);
  }

  lemma ConsAppend<T>(x: T, xs: seq<T>, ys: seq<T>)
    ensures [x] + (xs + ys) == [x] + xs + ys
  {
  }

  lemma Regroup<T>(p: seq<T>, q: seq<T>, r: seq<T>, s: seq<T>)
    ensures p + q + r + s == p + (q + r + s)
  {
  }

  lemma CutAtFirst(a: string, c: char) returns (head: string, rest: string)
    requires c in a
    ensures a == head + [c] + rest && c !in head
  {
    FreeOfChar(a, c);
    var i := Index(a, [c]);
    head, rest := a[..i], a[i + 1..];
    OccursFirst(a, [c], i);
    if c in head {
      var j :| 0 <= j < |head| && head[j] == c;
      assert a[j..j + 1] == [c];
      IndexLeast(a, [c], j);
    }
  }

  /** The first piece is the whole text exactly when the text has no separator. */
  lemma FirstPiece(s: string, c: char)
    ensures Split(s, [c])[0] == s <==> c !in s
    ensures |Split(s, [c])| == 1 <==> c !in s
  {
    FreeOfChar(s, c);
  }

  lemma ReplaceFree(s: string, old_: char, new_: char)
    requires old_ != new_
    ensures old_ !in Replace(s, old_, new_)
    ensures Replace(s, old_, new_) == s <==> old_ !in s
  {
    if old_ in s {
      var i :| 0 <= i < |s| && s[i] == old_;
      assert Replace(s, old_, new_)[i] == new_;
    }
  }
}
