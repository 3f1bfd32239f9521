/** Topic filters against topic names: `topic_matches` (include/aero/broker/topic_match.hpp), the wildcard rules of
    section 4.7 of MQTT 3.1.1. */
module TopicMatch {

  // ----- levels -----

  /** The first '/' at or after `start`, or the length. */
  function Slash(s: string, start: nat): (pos: nat)
    requires start <= |s|
    ensures start <= pos <= |s| && (pos < |s| ==> s[pos] == '/')
    ensures forall i :: start <= i < pos ==> s[i] != '/'
    decreases |s| - start
  {
    if start == |s| || s[start] == '/' then start else Slash(s, start + 1)
  }

  /** The levels of `s` from `start` on. */
  function LevelsFrom(s: string, start: nat): (r: seq<string>)
    requires start <= |s|
    ensures |r| >= 1 && forall i :: 0 <= i < |r| ==> '/' !in r[i]
    decreases |s| - start
  {
    var pos := Slash(s, start);
    if pos == |s| then [s[start..]] else [s[start..pos]] + LevelsFrom(s, pos + 1)
  }

  function Levels(s: string): seq<string> {
    LevelsFrom(s, 0)
  }

  /** Levels put together again, with '/' between them. */
  function Join(levels: seq<string>): string
    requires |levels| >= 1
  {
    if |levels| == 1 then levels[0] else levels[0] + "/" + Join(levels[1..])
  }

  lemma {:induction false} JoinMore(first: string, rest: seq<string>)
    requires |rest| >= 1
    ensures Join([first] + rest) == first + "/" + Join(rest)
  {
    assert ([first] + rest)[1..] == rest;
  }

  lemma {:induction false} JoinLevels(s: string, start: nat)
    requires start <= |s|
    ensures Join(LevelsFrom(s, start)) == s[start..]
    decreases |s| - start
  {
    hide Slash;
    var pos := Slash(s, start);
    if pos < |s| {
      JoinLevels(s, pos + 1);
      JoinMore(s[start..pos], LevelsFrom(s, pos + 1));
      CutAtSlash(s, start, pos);
    }
  }

  lemma {:induction false} CutAtSlash(s: string, start: nat, pos: nat)
    requires start <= pos < |s| && s[pos] == '/'
    ensures s[start..] == s[start..pos] + "/" + s[pos + 1..]
  {
  }

  /** No two names have the same levels. */
  lemma {:induction false} LevelsInjective(a: string, b: string)
    requires Levels(a) == Levels(b)
    ensures a == b
  {
    JoinLevels(a, 0);
    JoinLevels(b, 0);
    assert a[0..] == a && b[0..] == b;
  }

  /** Splitting off the level at `start`. */
  lemma {:induction false} LevelsAt(s: string, start: nat, parts: seq<string>)
    requires start <= |s|
    ensures var pos := Slash(s, start);
            parts + LevelsFrom(s, start) ==
            if pos == |s| then parts + [s[start..]] else parts + [s[start..pos]] + LevelsFrom(s, pos + 1)
  {
    hide Slash;
    var pos := Slash(s, start);
    if pos < |s| {
      hide LevelsFrom;
      LevelsNext(s, start);
      Regroup(parts, s[start..pos], LevelsFrom(s, pos + 1));
    }
  }

  lemma {:induction false} LevelsNext(s: string, start: nat)
    requires start <= |s| && Slash(s, start) < |s|
    ensures LevelsFrom(s, start) == [s[start..Slash(s, start)]] + LevelsFrom(s, Slash(s, start) + 1)
  {
    hide Slash;
  }

  lemma {:induction false} Regroup(a: seq<string>, x: string, b: seq<string>)
    ensures a + ([x] + b) == a + [x] + b
  {
  }

  /** `split` */
  method Split(s: string) returns (parts: seq<string>)
    ensures parts == Levels(s)
  {
    hide Slash, LevelsFrom;
    parts := [];
    var start := 0;
    while true
      invariant start <= |s|
      invariant parts + LevelsFrom(s, start) == LevelsFrom(s, 0)
      decreases |s| - start
    {
      var pos := Find(s, start);
      LevelsAt(s, start, parts);
      if pos == |s| {
        parts := parts + [s[start..]];
        break;
      }
      parts := parts + [s[start..pos]];
      start := pos + 1;
    }
  }

  /** `find('/', start)` */
  method Find(s: string, start: nat) returns (pos: nat)
    requires start <= |s|
    ensures pos == Slash(s, start)
  {
    pos := start;
    while pos < |s| && s[pos] != '/'
      invariant start <= pos <= |s| && Slash(s, start) == Slash(s, pos)
    {
      pos := pos + 1;
    }
  }

  // ----- matching -----

  /** The first `n` levels agree, '+' standing for any one level. */
  ghost predicate Agree(f: seq<string>, t: seq<string>, n: nat) {
    n <= |f| && n <= |t| && forall i :: 0 <= i < n ==> f[i] == "+" || f[i] == t[i]
  }

  /** The levels before some '#' agree. */
  ghost predicate HashMatches(f: seq<string>, t: seq<string>) {
    exists h :: 0 <= h < |f| && f[h] == "#" && Agree(f, t, h)
  }

  /** All levels agree, or those before some '#'. */
  ghost predicate Matches(filter: string, topic: string) {
    var f, t := Levels(filter), Levels(topic);
    HashMatches(f, t) || (|f| == |t| && Agree(f, t, |f|))
  }

  /** If levels disagree at `i` before any '#', nothing later can match. */
  lemma {:induction false} Mismatch(f: seq<string>, t: seq<string>, i: nat)
    requires i < |f| && (forall k :: 0 <= k <= i ==> f[k] != "#")
    requires i < |t| ==> f[i] != "+" && f[i] != t[i]
    ensures !HashMatches(f, t) && !(|f| == |t| && Agree(f, t, |f|))
  {
  }

  /** `topic_matches` */
  method TopicMatches(filter: string, topic: string) returns (r: bool)
    ensures r <==> Matches(filter, topic)
  {
    var f := Split(filter);
    var t := Split(topic);
    var i := 0;
    while i < |f|
      invariant i <= |f| && Agree(f, t, i)
      invariant forall k :: 0 <= k < i ==> f[k] != "#"
    {
      hide Levels;
      if f[i] == "#" { return true; }
      if i >= |t| {
        Mismatch(f, t, i);
        return false;
      }
      if f[i] != "+" && f[i] != t[i] {
        Mismatch(f, t, i);
        return false;
      }
      i := i + 1;
    }
    r := i == |t|;
  }

  predicate HasWildcard(filter: string) {
    '+' in filter || '#' in filter
  }

  /** A wildcard level needs a wildcard character. */
  lemma {:induction false} LevelChars(s: string, start: nat, i: nat, c: char)
    requires start <= |s| && i < |LevelsFrom(s, start)| && c in LevelsFrom(s, start)[i]
    ensures c in s
    decreases |s| - start
  {
    var pos := Slash(s, start);
    if pos < |s| && i > 0 {
      LevelChars(s, pos + 1, i - 1, c);
    }
  }

  lemma {:induction false} PlainLevel(filter: string, i: nat)
    requires !HasWildcard(filter) && i < |Levels(filter)|
    ensures Levels(filter)[i] != "+" && Levels(filter)[i] != "#"
  {
    if Levels(filter)[i] == "+" { LevelChars(filter, 0, i, '+'); }
    if Levels(filter)[i] == "#" { LevelChars(filter, 0, i, '#'); }
  }

  /** Without '+' and '#' a filter matches its own text and nothing else. */
  lemma {:induction false} PlainFilter(filter: string, topic: string)
    requires !HasWildcard(filter)
    ensures Matches(filter, topic) <==> filter == topic
  {
    hide Levels, HasWildcard;
    var f, t := Levels(filter), Levels(topic);
    forall i | 0 <= i < |f| ensures f[i] != "+" && f[i] != "#" { PlainLevel(filter, i); }
    if Matches(filter, topic) {
      assert f == t;
      LevelsInjective(filter, topic);
    }
  }

  // ----- wildcards on names -----

  lemma {:induction false} SlashJoined(a: string, b: string, start: nat)
    requires start <= |a|
    ensures Slash(a + "/" + b, start) == Slash(a, start)
    decreases |a| - start
  {
    if start < |a| && a[start] != '/' { SlashJoined(a, b, start + 1); }
  }

  lemma {:induction false} LevelsShifted(a: string, b: string, start: nat)
    requires start <= |b|
    ensures LevelsFrom(a + "/" + b, |a| + 1 + start) == LevelsFrom(b, start)
    decreases |b| - start
  {
    hide Slash;
    var s, k := a + "/" + b, |a| + 1;
    SlashShifted(a, b, start);
    var pos := Slash(b, start);
    if pos < |b| {
      assert s[k + start..k + pos] == b[start..pos];
      LevelsShifted(a, b, pos + 1);
    } else {
      assert s[k + start..] == b[start..];
    }
  }

  lemma {:induction false} SlashShifted(a: string, b: string, start: nat)
    requires start <= |b|
    ensures Slash(a + "/" + b, |a| + 1 + start) == |a| + 1 + Slash(b, start)
    decreases |b| - start
  {
    if start < |b| && b[start] != '/' { SlashShifted(a, b, start + 1); }
  }

  lemma {:induction false} LevelsJoined(a: string, b: string, start: nat)
    requires start <= |a|
    ensures LevelsFrom(a + "/" + b, start) == LevelsFrom(a, start) + Levels(b)
    decreases |a| - start
  {
    hide Slash, LevelsFrom;
    var s := a + "/" + b;
    SlashJoined(a, b, start);
    var pos := Slash(a, start);
    assert s[start..pos] == a[start..pos];
    LevelsNext(s, start);
    if pos < |a| {
      LevelsJoined(a, b, pos + 1);
      LevelsNext(a, start);
    } else {
      LevelsShifted(a, b, 0);
      assert a[start..pos] == a[start..];
      LastLevel(a, start);
    }
  }

  lemma {:induction false} LastLevel(s: string, start: nat)
    requires start <= |s| && Slash(s, start) == |s|
    ensures LevelsFrom(s, start) == [s[start..]]
  {
    hide Slash;
  }

  lemma {:induction false} OneLevel(w: string)
    requires '/' !in w
    ensures Levels(w) == [w]
  {
  }

  /** `name/#` matches the name itself and everything below it, and nothing else. */
  lemma {:induction false} HashBelow(name: string, topic: string)
    requires !HasWildcard(name)
    ensures Matches(name + "/#", topic) <==> topic == name || name + "/" <= topic
  {
    hide HasWildcard, LevelsFrom;
    var f, t, n := Levels(name), Levels(topic), |Levels(name)|;
    assert name + "/#" == name + "/" + "#";
    LevelsJoined(name, "#", 0);
    OneLevel("#");
    forall i | 0 <= i < n ensures f[i] != "+" && f[i] != "#" { PlainLevel(name, i); }
    assert Matches(name + "/#", topic) <==> n <= |t| && f == t[..n] by { PlainPrefix(f, t); }
    if n <= |t| && f == t[..n] { Below(name, topic); }
    if name + "/" <= topic {
      var rest := topic[|name| + 1..];
      assert topic == name + "/" + rest;
      LevelsJoined(name, rest, 0);
    }
  }

  lemma {:induction false} PlainPrefix(f: seq<string>, t: seq<string>)
    requires forall i :: 0 <= i < |f| ==> f[i] != "+" && f[i] != "#"
    ensures var g := f + ["#"];
            HashMatches(g, t) || (|g| == |t| && Agree(g, t, |g|)) <==> |f| <= |t| && f == t[..|f|]
  {
    var g := f + ["#"];
    assert g[|f|] == "#" && forall i :: 0 <= i < |f| ==> g[i] == f[i];
  }

  lemma {:induction false} Below(name: string, topic: string)
    requires var f, t := Levels(name), Levels(topic); |f| <= |t| && f == t[..|f|]
    ensures topic == name || name + "/" <= topic
  {
    hide LevelsFrom;
    var f, t := Levels(name), Levels(topic);
    JoinLevels(name, 0);
    JoinLevels(topic, 0);
    assert name[0..] == name && topic[0..] == topic;
    if |f| == |t| {
      assert f == t;
    } else {
      assert t == f + t[|f|..];
      JoinBoth(f, t[|f|..]);
    }
  }

  lemma {:induction false} JoinBoth(a: seq<string>, b: seq<string>)
    requires |a| >= 1 && |b| >= 1
    ensures Join(a + b) == Join(a) + "/" + Join(b)
    decreases |a|
  {
    if |a| == 1 {
      assert a + b == [a[0]] + b;
      JoinMore(a[0], b);
    } else {
      assert a + b == [a[0]] + (a[1..] + b);
      JoinMore(a[0], a[1..] + b);
      JoinBoth(a[1..], b);
    }
  }

  /** `a/+/b` matches exactly `a/w/b` for one level `w`. */
  lemma {:induction false} PlusOneLevel(a: string, b: string, topic: string)
    requires !HasWildcard(a) && !HasWildcard(b)
    ensures Matches(a + "/+/" + b, topic) <==> exists w :: '/' !in w && topic == a + "/" + w + "/" + b
  {
    hide HasWildcard, LevelsFrom, Matches;
    var f, g := Levels(a), Levels(b);
    assert a + "/+/" + b == (a + "/" + "+") + "/" + b;
    ThreeParts(a, "+", b);
    forall i | 0 <= i < |f| ensures f[i] != "+" && f[i] != "#" { PlainLevel(a, i); }
    forall i | 0 <= i < |g| ensures g[i] != "+" && g[i] != "#" { PlainLevel(b, i); }
    if Matches(a + "/+/" + b, topic) {
      var w := Middle(f, g, topic, a + "/+/" + b);
      ThreeParts(a, w, b);
      LevelsInjective(topic, (a + "/" + w) + "/" + b);
    }
    forall w | '/' !in w && topic == a + "/" + w + "/" + b ensures Matches(a + "/+/" + b, topic) {
      ThreeParts(a, w, b);
      MiddleMatches(f, g, w, topic, a + "/+/" + b);
    }
  }

  lemma {:induction false} ThreeParts(a: string, w: string, b: string)
    requires '/' !in w
    ensures Levels((a + "/" + w) + "/" + b) == Levels(a) + [w] + Levels(b)
  {
    hide LevelsFrom;
    LevelsJoined(a + "/" + w, b, 0);
    LevelsJoined(a, w, 0);
    OneLevel(w);
  }

  lemma {:induction false} Middle(f: seq<string>, g: seq<string>, topic: string, filter: string) returns (w: string)
    requires Levels(filter) == f + ["+"] + g && Matches(filter, topic)
    requires (forall i :: 0 <= i < |f| ==> f[i] != "+" && f[i] != "#")
    requires (forall i :: 0 <= i < |g| ==> g[i] != "+" && g[i] != "#")
    ensures '/' !in w && Levels(topic) == f + [w] + g
  {
    hide LevelsFrom;
    var t := Levels(topic);
    MiddleLevels(f, g, t);
    w := t[|f|];
  }

  lemma {:induction false} MiddleLevels(f: seq<string>, g: seq<string>, t: seq<string>)
    requires (forall i :: 0 <= i < |f| ==> f[i] != "+" && f[i] != "#")
    requires (forall i :: 0 <= i < |g| ==> g[i] != "+" && g[i] != "#")
    requires var all := f + ["+"] + g; HashMatches(all, t) || (|all| == |t| && Agree(all, t, |all|))
    ensures |t| == |f| + 1 + |g| && t == f + [t[|f|]] + g
  {
    var all := f + ["+"] + g;
    forall i | 0 <= i < |all| ensures all[i] != "#" {
      assert all[i] == if i < |f| then f[i] else if i == |f| then "+" else g[i - |f| - 1];
    }
    forall i | 0 <= i < |all| && i != |f| ensures t[i] == all[i] {
      assert all[i] == if i < |f| then f[i] else g[i - |f| - 1];
    }
  }

  lemma {:induction false} MiddleMatches(f: seq<string>, g: seq<string>, w: string, topic: string, filter: string)
    requires Levels(filter) == f + ["+"] + g && Levels(topic) == f + [w] + g
    ensures Matches(filter, topic)
  {
    hide LevelsFrom;
  }
}
