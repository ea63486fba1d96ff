/**
 MQTT topics as the client compares them: cut after their last '/', in place, in
 NUL-terminated buffers.
 */
module Topics {
  import opened Common

  const NUL: char := '\0'

  /** A string a C function can take, with the '/' that the cutting loops stop at. */
  predicate IsTopic(t: string) {
    '/' in t && NUL !in t
  }

  /** Everything up to and including the last '/'. */
  function Path(t: string): string {
    if t == "" || t[|t| - 1] == '/' then t else Path(t[..|t| - 1])
  }

  /** The C string at the start of a buffer. */
  function CString(s: seq<char>): string {
    if s == [] || s[0] == NUL then "" else [s[0]] + CString(s[1..])
  }

  lemma {:induction false} CStringOf(t: string, rest: seq<char>)
    requires NUL !in t
    ensures CString(t + [NUL] + rest) == t
  {
    if t != "" {
      assert (t + [NUL] + rest)[1..] == t[1..] + [NUL] + rest;
      CStringOf(t[1..], rest);
    } else {
      assert t + [NUL] + rest == [NUL] + rest;
    }
  }

  /** A path is a prefix ending in '/', and what it leaves off has none. */
  lemma {:induction false} PathShape(t: string)
    requires '/' in t
    ensures Path(t) <= t && Path(t) != "" && Path(t)[|Path(t)| - 1] == '/'
    ensures '/' !in t[|Path(t)|..]
  {
    var n := |t| - 1;
    if t[n] != '/' {
      assert t == t[..n] + [t[n]];
      PathShape(t[..n]);
      assert t[|Path(t)|..] == t[..n][|Path(t)|..] + [t[n]];
    }
  }

  /** ... and there is only one such prefix. */
  lemma {:induction false} PathIs(p: string, rest: string)
    requires p != "" && p[|p| - 1] == '/' && '/' !in rest
    ensures Path(p + rest) == p
  {
    if rest == "" {
      assert p + rest == p;
    } else {
      assert (p + rest)[..|p + rest| - 1] == p + rest[..|rest| - 1];
      PathIs(p, rest[..|rest| - 1]);
    }
  }

  // ---- matchTopic ----

  /** Where the walk backwards from position `p` of a topic and its NUL comes to a '/'; -1 is in
      front of the buffer. */
  function Walk(t: string, p: int): (q: int)
    requires -1 <= p <= |t|
    ensures -1 <= q <= p
    decreases p + 1
  {
    if p < 0 || (t + [NUL])[p] == '/' then p else Walk(t, p - 1)
  }

  lemma {:induction false} WalkFinds(t: string, p: int)
    requires -1 <= p < |t|
    ensures if '/' in t[..p + 1] then Walk(t, p) + 1 == |Path(t[..p + 1])| else Walk(t, p) == -1
  {
    if p >= 0 {
      assert t[..p + 1] == t[..p] + [t[p]];
      assert t[..p + 1][..p] == t[..p];
      WalkFinds(t, p - 1);
    }
  }

  /** The walk stays inside the buffer exactly when there is a '/' to stop it. */
  lemma WalkStaysInsideExactly(t: string)
    ensures Walk(t, |t|) >= 0 <==> '/' in t
    ensures '/' in t ==> Walk(t, |t|) + 1 == |Path(t)|
  {
    WalkFinds(t, |t| - 1);
    assert t[..|t|] == t;
    assert Walk(t, |t|) == Walk(t, |t| - 1);
    if '/' in t {
      PathShape(t);
    }
  }

  /** A legal topic on which it does not. */
  lemma ATopicOfOneLevelIsWalkedOff()
    ensures Walk("temperature", |"temperature"|) == -1
  {
    var t := "temperature";
    WalkStaysInsideExactly(t);
    assert forall k :: 0 <= k < |t| ==> t[k] != '/';
  }

  /** One of the two loops of matchTopic: everything after the last '/' becomes NUL. Without one
      the loop leaves the buffer at its front; here it is stopped, and says so. */
  method Truncate(a: array<char>, ghost t: string) returns (inside: bool)
    requires NUL !in t && a[..] == t + [NUL]
    modifies a
    ensures inside <==> Walk(t, |t|) >= 0
    ensures inside ==> '/' in t && CString(a[..]) == Path(t)
    ensures !inside ==> forall k :: 0 <= k < a.Length ==> a[k] == NUL
  {
    var p := a.Length - 1;
    assert a[..p + 1] == t + [NUL];
    while 0 <= p && a[p] != '/'
      invariant -1 <= p < a.Length
      invariant a[..p + 1] == (t + [NUL])[..p + 1]
      invariant forall k :: p < k < a.Length ==> a[k] == NUL
      invariant Walk(t, |t|) == Walk(t, p)
      decreases p
    {
      assert a[..p + 1] == a[..p] + [a[p]];
      assert a[p] == (t + [NUL])[p];
      a[p] := NUL;
      p := p - 1;
    }
    inside := 0 <= p;
    WalkStaysInsideExactly(t);
    if inside {
      PathShape(t);
      assert a[p] == (t + [NUL])[p];
      assert Walk(t, p) == p;
      assert Path(t) == t[..p + 1] == a[..p + 1];
      assert a[..] == t[..p + 1] + [NUL] + a[p + 2..];
      CStringOf(t[..p + 1], a[p + 2..]);
    }
  }

  /** None: one of the loops has left its buffer. */
  method MatchTopic(topic1: string, topic2: string) returns (rc: Option<bool>)
    requires NUL !in topic1 && NUL !in topic2
    ensures rc == if '/' in topic1 && '/' in topic2 then Some(Path(topic1) == Path(topic2)) else None
  {
    WalkStaysInsideExactly(topic1);
    WalkStaysInsideExactly(topic2);
    var t1 := new char[|topic1| + 1](i requires 0 <= i <= |topic1| => if i < |topic1| then topic1[i] else NUL);
    var t2 := new char[|topic2| + 1](i requires 0 <= i <= |topic2| => if i < |topic2| then topic2[i] else NUL);
    var inside := Truncate(t1, topic1);
    if !inside {
      return None;
    }
    inside := Truncate(t2, topic2);
    if !inside {
      return None;
    }
    rc := Some(CString(t1[..]) == CString(t2[..]));
  }

  // ---- the topic of a received message ----

  /** What mqtt_checkAvail makes of it. */
  function Rewritten(t: string): string {
    Path(t) + "#"
  }

  /** Rewriting keeps the path, so a lookup cannot tell the difference, and does nothing twice. */
  lemma RewritingKeepsThePath(t: string)
    requires IsTopic(t)
    ensures IsTopic(Rewritten(t)) && Path(Rewritten(t)) == Path(t)
    ensures Rewritten(Rewritten(t)) == Rewritten(t)
  {
    PathShape(t);
    PathIs(Path(t), "#");
    assert forall k :: 0 <= k < |Path(t)| ==> Path(t)[k] == t[k];
    assert Rewritten(t)[|Path(t)| - 1] == '/';
  }

  /** strrchr(s, '/') as an index; None is NULL. */
  method LastSlash(buf: array<char>, ghost t: string) returns (k: Option<nat>)
    requires NUL !in t && t + [NUL] <= buf[..]
    ensures k.Some? <==> '/' in t
    ensures k.Some? ==> k.value + 1 == |Path(t)| <= |t|
  {
    var i := 0;
    k := None;
    while buf[i] != NUL
      invariant i <= |t| < buf.Length && t + [NUL] <= buf[..]
      invariant k.Some? <==> '/' in t[..i]
      invariant k.Some? ==> k.value < i && t[k.value] == '/' && '/' !in t[k.value + 1..i]
      decreases |t| - i
    {
      assert buf[i] == buf[..][i] == (t + [NUL])[i];
      assert t[..i + 1] == t[..i] + [t[i]];
      if buf[i] == '/' {
        k := Some(i);
      }
      i := i + 1;
    }
    assert buf[i] == buf[..][i] == (t + [NUL])[i];
    assert t[..i] == t;
    if k.Some? {
      PathIs(t[..k.value + 1], t[k.value + 1..]);
      assert t == t[..k.value + 1] + t[k.value + 1..];
    }
  }

  /** The rewriting in the global topic buffer, which must have room for it. Without a '/' there
      is no place to write to: the code writes through a NULL pointer, and this says so. */
  method Rewrite(buf: array<char>, ghost t: string) returns (inside: bool)
    requires NUL !in t && t + [NUL] <= buf[..] && |Path(t)| + 1 < buf.Length
    modifies buf
    ensures inside <==> '/' in t
    ensures inside ==> CString(buf[..]) == Path(t) + "#"
    ensures !inside ==> buf[..] == old(buf[..])
  {
    var last := LastSlash(buf, t);
    if last.None? {
      return false;
    }
    var k := last.value;
    ghost var was := buf[..];
    buf[k + 1] := '#';
    buf[k + 2] := NUL;
    PathShape(t);
    assert was[..k + 1] == Path(t);
    assert buf[..] == Rewritten(t) + [NUL] + buf[k + 3..];
    RewritingKeepsThePath(t);
    CStringOf(Rewritten(t), buf[k + 3..]);
    return true;
  }

  // ---- section 4.7 of MQTT 3.1.1 ----

  /** A topic split at every '/'. */
  function Levels(t: string): (ls: seq<string>)
    ensures |ls| >= 1
  {
    if t == "" then [""]
    else
      var r := Levels(t[1..]);
      if t[0] == '/' then [""] + r else [[t[0]] + r[0]] + r[1..]
  }

  /** Whether the levels of a topic filter match those of a topic: '+' stands for one level,
      a closing '#' for any number of them, none included. */
  predicate LevelsMatch(f: seq<string>, t: seq<string>) {
    if f == [] then t == []
    else if f == ["#"] then true
    else t != [] && (f[0] == "+" || f[0] == t[0]) && LevelsMatch(f[1..], t[1..])
  }

  predicate MqttMatches(filter: string, topic: string) {
    LevelsMatch(Levels(filter), Levels(topic))
  }

  lemma {:induction false} LevelsOfOne(x: string)
    requires '/' !in x
    ensures Levels(x) == [x]
  {
    if x != "" {
      assert x[0] in x && x == [x[0]] + x[1..];
      LevelsOfOne(x[1..]);
    }
  }

  lemma {:induction false} LevelsJoin(a: string, b: string)
    ensures Levels(a + "/" + b) == Levels(a) + Levels(b)
  {
    if a == "" {
      assert a + "/" + b == "/" + b;
      assert ("/" + b)[1..] == b;
    } else {
      assert (a + "/" + b)[1..] == a[1..] + "/" + b;
      LevelsJoin(a[1..], b);
    }
  }

  /** Topics with the same levels are the same. */
  lemma {:induction false} LevelsTellApart(a: string, b: string)
    requires Levels(a) == Levels(b)
    ensures a == b
  {
    if a != "" && b != "" {
      var ra, rb := Levels(a[1..]), Levels(b[1..]);
      FirstLevel(a);
      FirstLevel(b);
      assert Levels(a)[1..] == if a[0] == '/' then ra else ra[1..];
      assert Levels(b)[1..] == if b[0] == '/' then rb else rb[1..];
      if a[0] != '/' {
        assert Levels(a)[0][1..] == ra[0] && Levels(b)[0][1..] == rb[0];
        assert ra == [ra[0]] + ra[1..] && rb == [rb[0]] + rb[1..];
      }
      LevelsTellApart(a[1..], b[1..]);
    } else if a != "" {
      FirstLevel(a);
    } else if b != "" {
      FirstLevel(b);
    }
  }

  lemma FirstLevel(t: string)
    requires t != ""
    ensures if t[0] == '/' then Levels(t)[0] == "" && |Levels(t)| > 1 else Levels(t)[0] != "" && Levels(t)[0][0] == t[0]
  {
  }

  predicate NoWildcards(ls: seq<string>) {
    forall k :: 0 <= k < |ls| ==> ls[k] != "+" && ls[k] != "#"
  }

  lemma {:induction false} OnlyTheLastLevelIsWild(p: seq<string>, t: seq<string>)
    requires NoWildcards(p)
    ensures LevelsMatch(p + ["#"], t) <==> p <= t
  {
    if p == [] {
      assert p + ["#"] == ["#"];
    } else {
      assert (p + ["#"])[0] == p[0] && (p + ["#"])[1..] == p[1..] + ["#"];
      if t != [] {
        OnlyTheLastLevelIsWild(p[1..], t[1..]);
        assert t == [t[0]] + t[1..] && p == [p[0]] + p[1..];
      }
    }
  }

  /**
   For a filter `p/#` with no other wildcard, the client's comparison is MQTT matching
   restricted to the topics one level below p: it accepts nothing MQTT would not, and misses
   p itself and everything deeper.
   */
  lemma MatchIsMqttOneLevelDown(p: string, topic: string)
    requires NoWildcards(Levels(p))
    ensures Path(topic) == Path(p + "/#") <==>
            MqttMatches(p + "/#", topic) && |Levels(topic)| == |Levels(p)| + 1
  {
    assert p + "/#" == (p + "/") + "#" == p + "/" + "#";
    PathIs(p + "/", "#");
    LevelsJoin(p, "#");
    LevelsOfOne("#");
    OnlyTheLastLevelIsWild(Levels(p), Levels(topic));
    if Path(topic) == p + "/" {
      BelowByPath(p, topic);
    }
    if Levels(p) <= Levels(topic) && |Levels(topic)| == |Levels(p)| + 1 {
      BelowByLevels(p, topic);
    }
  }

  /** The last level of a received topic becomes '#', and with it the topic has become a filter
      that matches p and everything below it, at any depth, and nothing else. */
  lemma RewrittenIsTheFilterBelow(p: string, x: string, u: string)
    requires '/' !in x && NoWildcards(Levels(p))
    ensures Rewritten(p + "/" + x) == p + "/#"
    ensures MqttMatches(Rewritten(p + "/" + x), u) <==> Levels(p) <= Levels(u)
  {
    PathIs(p + "/", x);
    assert p + "/" + "#" == p + "/#";
    LevelsJoin(p, "#");
    LevelsOfOne("#");
    OnlyTheLastLevelIsWild(Levels(p), Levels(u));
  }

  /** Whatever comes below p. */
  lemma EverythingBelowMatches(p: string, x: string, v: string)
    requires '/' !in x && NoWildcards(Levels(p))
    ensures MqttMatches(Rewritten(p + "/" + x), p + "/" + v)
  {
    RewrittenIsTheFilterBelow(p, x, p + "/" + v);
    LevelsJoin(p, v);
  }

  lemma BelowByPath(p: string, topic: string)
    requires Path(topic) == p + "/"
    ensures exists x :: Levels(topic) == Levels(p) + [x]
  {
    HasSlash(topic);
    PathShape(topic);
    var x := topic[|p| + 1..];
    assert topic == p + "/" + x;
    LevelsJoin(p, x);
    LevelsOfOne(x);
  }

  lemma {:induction false} HasSlash(t: string)
    requires Path(t) != ""
    ensures '/' in t
  {
    if t != "" && t[|t| - 1] != '/' {
      HasSlash(t[..|t| - 1]);
    }
  }

  lemma BelowByLevels(p: string, topic: string)
    requires Levels(p) <= Levels(topic) && |Levels(topic)| == |Levels(p)| + 1
    ensures Path(topic) == p + "/"
  {
    var x := Levels(topic)[|Levels(p)|];
    LevelsHaveNoSlash(topic);
    LevelsJoin(p, x);
    LevelsOfOne(x);
    assert Levels(topic) == Levels(p) + [x];
    LevelsTellApart(topic, p + "/" + x);
    PathIs(p + "/", x);
  }

  lemma {:induction false} LevelsHaveNoSlash(t: string)
    ensures forall k :: 0 <= k < |Levels(t)| ==> '/' !in Levels(t)[k]
  {
    if t != "" {
      LevelsHaveNoSlash(t[1..]);
    }
  }
}
