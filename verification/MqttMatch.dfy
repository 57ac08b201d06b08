/** Which published topics a subscription's filter takes. */
module MqttMatch {
  import opened Text
  import Seqs

  // ---------- Levels ----------

  /** The place of the first slash, or the text's length. */
  function Slash(s: string): (n: nat)
    ensures n <= |s| && '/' !in s[..n] && (n < |s| ==> s[n] == '/')
  {
    if s == "" || s[0] == '/' then 0 else 1 + Slash(s[1..])
  }

  /** A topic or filter as its levels. */
  function Levels(s: string): (r: seq<string>)
    ensures r != []
    decreases |s|
  {
    var n := Slash(s);
    if n == |s| then [s] else [s[..n]] + Levels(s[n + 1..])
  }

  lemma JoinCons(level: string, levels: seq<string>)
    requires levels != []
    ensures Join([level] + levels, "/") == level + "/" + Join(levels, "/")
  {
    assert ([level] + levels)[1..] == levels;
  }

  /** The levels, joined again, are the text, and no level holds a slash. */
  lemma {:induction false} LevelsJoin(s: string)
    ensures Join(Levels(s), "/") == s
    ensures forall k | 0 <= k < |Levels(s)| :: '/' !in Levels(s)[k]
    decreases |s|
  {
    var n := Slash(s);
    if n == |s| {
      assert s[..n] == s;
    } else {
      var rest := s[n + 1..];
      LevelsJoin(rest);
      JoinCons(s[..n], Levels(rest));
      Seqs.SplitAt(s, n);
      Seqs.Associate(s[..n], "/", rest);
    }
  }

  // ---------- The matcher ----------

  predicate LevelMatches(f: string, t: string) {
    f == "+" || f == t
  }

  /** The place of the first multi-level wildcard, or the number of levels. */
  function FirstHash(fl: seq<string>): (n: nat)
    ensures n <= |fl| && (n < |fl| ==> fl[n] == "#") && forall i | 0 <= i < n :: fl[i] != "#"
  {
    if fl == [] || fl[0] == "#" then 0 else 1 + FirstHash(fl[1..])
  }

  /** Levels up to the multi-level wildcard match one by one; with a wildcard there may be
      more, or none, of the topic left, without one there is nothing left. */
  predicate Matches(fl: seq<string>, tl: seq<string>) {
    var n := FirstHash(fl);
    && n <= |tl|
    && (forall i | 0 <= i < n :: LevelMatches(fl[i], tl[i]))
    && (n == |fl| ==> |tl| == n)
  }

  lemma SelfMatches(fl: seq<string>)
    ensures Matches(fl, fl)
  {
  }

  method TopicMatchesFilter(filter: string, topic: string) returns (r: bool)
    ensures r == Matches(Levels(filter), Levels(topic))
  {
    if filter == topic {
      SelfMatches(Levels(filter));
      return true;
    }
    var fl, tl := Levels(filter), Levels(topic);
    for i := 0 to |fl|
      invariant i <= FirstHash(fl) && i <= |tl|
      invariant forall k | 0 <= k < i :: LevelMatches(fl[k], tl[k])
    {
      var f := fl[i];
      if f == "#" {
        assert FirstHash(fl) == i;
        return true;
      } else if f == "+" {
        if i >= |tl| {
          return false;
        }
      } else {
        if i >= |tl| || tl[i] != f {
          return false;
        }
      }
    }
    return |fl| == |tl|;
  }

  // ---------- The standard's definition ----------

  /** Sections 4.7.1.2 and 4.7.1.3 of MQTT 5.0, level by level: the multi-level wildcard stands
      for the parent and any levels below it, the single-level one for one level. */
  predicate Standard(fl: seq<string>, tl: seq<string>) {
    if fl == [] then tl == []
    else if fl == ["#"] then true
    else tl != [] && (fl[0] == "+" || fl[0] == tl[0]) && Standard(fl[1..], tl[1..])
  }

  /** The matcher gives the standard's answer for every filter whose multi-level wildcard is,
      as the standard demands, its last level. */
  lemma {:induction false} MatchesIsStandard(fl: seq<string>, tl: seq<string>)
    requires forall i | 0 <= i < |fl| - 1 :: fl[i] != "#"
    ensures Matches(fl, tl) <==> Standard(fl, tl)
  {
    if fl != [] && fl[0] != "#" {
      if tl != [] {
        MatchesIsStandard(fl[1..], tl[1..]);
        MatchesStep(fl, tl);
      }
    } else if fl != [] {
      assert |fl| == 1;
      assert fl == ["#"];
    }
  }

  lemma MatchesStep(fl: seq<string>, tl: seq<string>)
    requires fl != [] && tl != [] && fl[0] != "#"
    ensures Matches(fl, tl) <==> LevelMatches(fl[0], tl[0]) && Matches(fl[1..], tl[1..])
  {
    if LevelMatches(fl[0], tl[0]) && Matches(fl[1..], tl[1..]) {
      forall i | 0 <= i < FirstHash(fl)
        ensures LevelMatches(fl[i], tl[i])
      {
        if i > 0 {
          assert LevelMatches(fl[1..][i - 1], tl[1..][i - 1]);
        }
      }
    }
    if Matches(fl, tl) {
      forall i | 0 <= i < FirstHash(fl[1..])
        ensures LevelMatches(fl[1..][i], tl[1..][i])
      {
        assert LevelMatches(fl[i + 1], tl[i + 1]);
      }
    }
  }

  /** A filter whose multi-level wildcard is not the last level is read as if it were. */
  lemma RestAfterHashIsIgnored(fl: seq<string>, tl: seq<string>)
    ensures var n := FirstHash(fl); n < |fl| ==> (Matches(fl, tl) <==> Matches(fl[..n + 1], tl))
  {
    var n := FirstHash(fl);
    if n < |fl| {
      FirstHashAt(fl[..n + 1], n);
    }
  }

  lemma {:induction false} FirstHashAt(fl: seq<string>, n: nat)
    requires n < |fl| && fl[n] == "#" && forall i | 0 <= i < n :: fl[i] != "#"
    ensures FirstHash(fl) == n
  {
    if n > 0 {
      FirstHashAt(fl[1..], n - 1);
    }
  }

  // ---------- Wildcards as places to fill ----------

  /** How many single-level wildcards there are. */
  function Places(fl: seq<string>): nat {
    if fl == [] then 0 else (if fl[0] == "+" then 1 else 0) + Places(fl[1..])
  }

  /** The levels with `subs` put in, one after the other, for the single-level wildcards. */
  function Fill(fl: seq<string>, subs: seq<string>): (r: seq<string>)
    requires |subs| == Places(fl)
    ensures |r| == |fl|
  {
    if fl == [] then []
    else if fl[0] == "+" then [subs[0]] + Fill(fl[1..], subs[1..])
    else [fl[0]] + Fill(fl[1..], subs)
  }

  predicate LevelsMatch(fl: seq<string>, tl: seq<string>) {
    |fl| == |tl| && forall i | 0 <= i < |fl| :: LevelMatches(fl[i], tl[i])
  }

  lemma LevelsMatchCons(fl: seq<string>, tl: seq<string>)
    requires fl != [] && tl != []
    ensures LevelsMatch(fl, tl) <==> LevelMatches(fl[0], tl[0]) && LevelsMatch(fl[1..], tl[1..])
  {
    if LevelMatches(fl[0], tl[0]) && LevelsMatch(fl[1..], tl[1..]) {
      forall i | 0 <= i < |fl|
        ensures LevelMatches(fl[i], tl[i])
      {
        if i > 0 {
          assert LevelMatches(fl[1..][i - 1], tl[1..][i - 1]);
        }
      }
    }
    if LevelsMatch(fl, tl) {
      forall i | 0 <= i < |fl| - 1
        ensures LevelMatches(fl[1..][i], tl[1..][i])
      {
        assert LevelMatches(fl[i + 1], tl[i + 1]);
      }
    }
  }

  lemma {:induction false} FilledMatch(fl: seq<string>, subs: seq<string>)
    requires |subs| == Places(fl)
    ensures LevelsMatch(fl, Fill(fl, subs))
  {
    if fl != [] {
      var rest := if fl[0] == "+" then subs[1..] else subs;
      FilledMatch(fl[1..], rest);
      assert Fill(fl, subs)[1..] == Fill(fl[1..], rest);
      LevelsMatchCons(fl, Fill(fl, subs));
    }
  }

  lemma {:induction false} MatchIsFilled(fl: seq<string>, tl: seq<string>) returns (subs: seq<string>)
    requires LevelsMatch(fl, tl)
    ensures |subs| == Places(fl) && Fill(fl, subs) == tl
  {
    subs := [];
    if fl != [] {
      LevelsMatchCons(fl, tl);
      var rest := MatchIsFilled(fl[1..], tl[1..]);
      subs := if fl[0] == "+" then [tl[0]] + rest else rest;
      assert fl[0] == "+" ==> subs[1..] == rest;
      assert tl == [tl[0]] + tl[1..];
    }
  }

  lemma MatchesByPrefix(fl: seq<string>, tl: seq<string>)
    ensures var n := FirstHash(fl);
            Matches(fl, tl) <==> n <= |tl| && LevelsMatch(fl[..n], tl[..n]) && (n == |fl| ==> |tl| == n)
  {
    var n := FirstHash(fl);
    if n <= |tl| {
      assert forall i | 0 <= i < n :: fl[..n][i] == fl[i] && tl[..n][i] == tl[i];
      if LevelsMatch(fl[..n], tl[..n]) {
        forall i | 0 <= i < n
          ensures LevelMatches(fl[i], tl[i])
        {
          assert LevelMatches(fl[..n][i], tl[..n][i]);
        }
      }
    }
  }

  /** A topic that the filter becomes. */
  ghost predicate IsInstance(fl: seq<string>, tl: seq<string>, subs: seq<string>, rest: seq<string>) {
    var n := FirstHash(fl);
    |subs| == Places(fl[..n]) && tl == Fill(fl[..n], subs) + rest && (n == |fl| ==> rest == [])
  }

  lemma MatchIsInstance(fl: seq<string>, tl: seq<string>) returns (subs: seq<string>, rest: seq<string>)
    requires Matches(fl, tl)
    ensures IsInstance(fl, tl, subs, rest)
  {
    var n := FirstHash(fl);
    MatchesByPrefix(fl, tl);
    subs := MatchIsFilled(fl[..n], tl[..n]);
    rest := tl[n..];
    Seqs.Prefix(tl[..n], tl);
  }

  lemma InstanceMatches(fl: seq<string>, tl: seq<string>, subs: seq<string>, rest: seq<string>)
    requires IsInstance(fl, tl, subs, rest)
    ensures Matches(fl, tl)
  {
    var n := FirstHash(fl);
    FilledMatch(fl[..n], subs);
    assert tl[..n] == Fill(fl[..n], subs);
    MatchesByPrefix(fl, tl);
  }

  /** A filter takes exactly the topics it becomes when a level is put in for each single-level
      wildcard, and any levels, or none, for the multi-level one. */
  lemma MatchesAreInstances(fl: seq<string>, tl: seq<string>)
    ensures Matches(fl, tl) <==> exists subs, rest :: IsInstance(fl, tl, subs, rest)
  {
    if Matches(fl, tl) {
      var subs, rest := MatchIsInstance(fl, tl);
    }
    if subs, rest :| IsInstance(fl, tl, subs, rest) {
      InstanceMatches(fl, tl, subs, rest);
    }
  }

  // ---------- Shared subscriptions ----------

  const SHARE := "$share/"

  /** The filter without the shared-subscription prefix and its group. */
  function Inner(topic: string): string {
    if SHARE <= topic && Slash(topic[|SHARE|..]) < |topic| - |SHARE|
    then topic[|SHARE| + Slash(topic[|SHARE|..]) + 1..] else topic
  }

  lemma {:induction false} SlashAt(a: string, b: string)
    requires '/' !in a
    ensures Slash(a + "/" + b) == |a|
  {
    if a != "" {
      assert (a + "/" + b)[1..] == a[1..] + "/" + b;
      SlashAt(a[1..], b);
    }
  }

  lemma InnerOf(rest: string)
    ensures Inner(SHARE + rest) == if Slash(rest) < |rest| then rest[Slash(rest) + 1..] else SHARE + rest
  {
    Seqs.Drop(SHARE, rest, if Slash(rest) < |rest| then Slash(rest) + 1 else 0);
  }

  /** Section 4.8.2 of MQTT 5.0: the inner filter comes out, for every group name. */
  lemma InnerFilter(group: string, filter: string)
    requires '/' !in group
    ensures Inner("$share/" + (group + "/" + filter)) == filter
  {
    SlashAt(group, filter);
    InnerOf(group + "/" + filter);
  }

  /** A text that is not of that form is left alone. */
  lemma OnlySharesAreStripped(topic: string) returns (group: string)
    requires Inner(topic) != topic
    ensures '/' !in group && topic == SHARE + (group + "/" + Inner(topic))
  {
    var rest := topic[|SHARE|..];
    group := rest[..Slash(rest)];
    Seqs.Prefix(SHARE, topic);
    InnerOf(rest);
    Seqs.SplitAt(rest, Slash(rest));
    Seqs.Associate(group, "/", Inner(topic));
  }
}
