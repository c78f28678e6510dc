/** Topic levels, and the three match rules of the broker: the one live delivery follows, the one the
    search for retained messages follows, and the one of section 4.7 of MQTT 3.1.1. */
module TopicMatch {
  import opened Common

  type Level = string

  /** A topic name or a topic filter, split at the separators. */
  type Path = seq<Level>

  const MWC: Level := "#"
  const SWC: Level := "+"

  // ---------------------------------------------------------------- splitting at '/'

  function Split(s: string): (ls: Path)
    ensures |ls| > 0
  {
    if s == "" then [""]
    else
      var rest := Split(s[1..]);
      if s[0] == '/' then [""] + rest else [[s[0]] + rest[0]] + rest[1..]
  }

  function Join(ls: Path): string
    requires |ls| > 0
  {
    if |ls| == 1 then ls[0] else ls[0] + "/" + Join(ls[1..])
  }

  /** Splitting loses nothing: a table keyed by levels is a table keyed by topic strings. */
  lemma {:induction false} JoinSplit(s: string)
    ensures Join(Split(s)) == s
    ensures forall l <- Split(s) :: '/' !in l
  {
    if s != "" {
      JoinSplit(s[1..]);
      var rest := Split(s[1..]);
      if s[0] == '/' {
        assert Split(s)[1..] == rest;
        assert s == "" + "/" + s[1..];
      } else {
        assert Split(s)[1..] == rest[1..];
        assert s == [s[0]] + s[1..];
        if |rest| > 1 {
          assert [s[0]] + (rest[0] + "/" + Join(rest[1..])) == ([s[0]] + rest[0]) + "/" + Join(rest[1..]);
        }
      }
    }
  }

  /** The wildcard part of packet.ValidTopic. */
  predicate ValidTopic(s: string) {
    '#' !in s && '+' !in s
  }

  predicate WildcardFree(t: Path) {
    forall i | 0 <= i < |t| :: t[i] != MWC && t[i] != SWC
  }

  lemma {:induction false} ValidTopicIsWildcardFree(s: string)
    requires ValidTopic(s)
    ensures WildcardFree(Split(s))
    ensures forall l <- Split(s) :: '#' !in l && '+' !in l
  {
    if s != "" {
      ValidTopicIsWildcardFree(s[1..]);
      assert '#' in MWC && '+' in SWC;
    }
  }

  // ---------------------------------------------------------------- the rules

  predicate Dollar(l: Level) {
    l != "" && l[0] == '$'
  }

  /** Every level of `f` is `+` or equal to the level of `t` at the same depth. */
  predicate Fits(f: Path, t: Path)
    requires |f| <= |t|
  {
    forall i | 0 <= i < |f| :: f[i] == SWC || f[i] == t[i]
  }

  predicate EndsMulti(f: Path) {
    f != [] && f[|f| - 1] == MWC
  }

  /** A final `#` covers its parent and everything below it, except where the first level it would
      have to swallow is empty. */
  predicate Matches(f: Path, t: Path) {
    || (|f| == |t| && Fits(f, t))
    || (EndsMulti(f) && |f| - 1 <= |t| && Fits(f[..|f| - 1], t) && (|f| <= |t| ==> t[|f| - 1] != ""))
  }

  /** Live delivery: on top of Matches, a topic whose first level starts with `$` is reached only by
      filters that spell that level out. */
  predicate LiveMatch(f: Path, t: Path) {
    Matches(f, t) && (t != [] && Dollar(t[0]) ==> f != [] && f[0] == t[0])
  }

  /** Section 4.7 of MQTT 3.1.1. */
  predicate StandardMatch(f: Path, t: Path) {
    && (|| (|f| == |t| && Fits(f, t))
        || (EndsMulti(f) && |f| - 1 <= |t| && Fits(f[..|f| - 1], t)))
    && (t != [] && Dollar(t[0]) ==> f != [] && f[0] != MWC && f[0] != SWC)
  }

  /** What every filter the subscribe regular expression accepts satisfies: `#` only as last level. */
  predicate WellFormedFilter(f: Path) {
    f != [] && forall i | 0 <= i < |f| - 1 :: f[i] != MWC
  }

  /** The number of levels before the first `#`. */
  function Cut(f: Path): (n: nat)
    ensures n <= |f|
    ensures forall i | 0 <= i < n :: f[i] != MWC
    ensures n < |f| ==> f[n] == MWC
  {
    if f == [] || f[0] == MWC then 0 else 1 + Cut(f[1..])
  }

  /** Retained lookup, for any filter at all: everything after the first `#` is ignored, a leading `#`
      skips the topics whose first level is empty or starts with `$`, any other `#` skips nothing. */
  predicate RetainedMatch(f: Path, t: Path) {
    if f != [] && f[0] == MWC then t != [] && t[0] != "" && !Dollar(t[0])
    else if Cut(f) < |f| then Cut(f) <= |t| && Fits(f[..Cut(f)], t)
    else |f| == |t| && Fits(f, t)
  }

  /** Live delivery is narrower than the standard by exactly the empty next level. */
  lemma LiveVersusStandard(f: Path, t: Path)
    requires WildcardFree(t)
    ensures LiveMatch(f, t) <==>
            StandardMatch(f, t) && !(EndsMulti(f) && |f| <= |t| && t[|f| - 1] == "")
  {
    if |f| == |t| && Fits(f, t) && f != [] {
      assert f[|f| - 1] == SWC || f[|f| - 1] == t[|f| - 1];
    }
    if EndsMulti(f) && |f| > 1 && |f| - 1 <= |t| && Fits(f[..|f| - 1], t) {
      assert f[..|f| - 1][0] == f[0];
    }
  }

  /** Everything live delivery would match is found among the retained messages, and the only extra
      hits are a leading `+` against a `$` topic and a non-leading `#` against an empty next level. */
  lemma RetainedVersusLive(f: Path, t: Path)
    requires WellFormedFilter(f) && WildcardFree(t) && t != []
    ensures LiveMatch(f, t) ==> RetainedMatch(f, t)
    ensures RetainedMatch(f, t) && !LiveMatch(f, t) <==>
            && RetainedMatch(f, t)
            && (|| (f[0] == SWC && Dollar(t[0]))
                || (|f| > 1 && EndsMulti(f) && |f| <= |t| && t[|f| - 1] == ""))
  {
    var c := Cut(f);
    assert c < |f| ==> c == |f| - 1;
    if c > 0 && c < |f| && c <= |t| && Fits(f[..c], t) {
      assert f[..c][0] == f[0];
    }
  }

  /** The wildcards spelled out: `#` alone reaches every topic whose first level is not empty and does not start
      with `$`, and `+` alone every topic of one level, in live delivery without those that start with `$`. */
  lemma WildcardsSpelled(t: Path)
    requires t != [] && forall i | 0 <= i < |t| :: t[i] != "#" && t[i] != "+"
    ensures LiveMatch(["#"], t) <==> t[0] != "" && t[0][0] != '$'
    ensures LiveMatch(["+"], t) <==> |t| == 1 && (t[0] == "" || t[0][0] != '$')
    ensures RetainedMatch(["#"], t) <==> t[0] != "" && t[0][0] != '$'
    ensures RetainedMatch(["+"], t) <==> |t| == 1
    ensures LiveMatch(t, t) && RetainedMatch(t, t)
  {
    assert ["#"][..0] == [] && Fits([], t);
    assert Cut(["+"]) == 1 && Cut(t) == |t| by { NoCut(t); NoCut(["+"]); }
  }

  lemma {:induction false} NoCut(f: Path)
    requires forall i | 0 <= i < |f| :: f[i] != MWC
    ensures Cut(f) == |f|
  {
    if f != [] { NoCut(f[1..]); }
  }

  // ---------------------------------------------------------------- the walk live search makes

  predicate PrefixClosed(dom: set<Path>) {
    forall p <- dom :: p != [] ==> p[..|p| - 1] in dom
  }

  function Here(dom: set<Path>, p: Path): seq<Path> {
    if p in dom then [p] else []
  }

  /** The nodes whose subscribers live search collects, in order, when it stands at `p` with the
      levels `t` still to go, in a tree whose nodes are `dom`. */
  function Visits(dom: set<Path>, p: Path, t: Path): seq<Path>
    decreases |t|
  {
    if t == [] then [p] + Here(dom, p + [MWC])
    else
      (if t[0] != "" then Here(dom, p + [MWC]) else [])
      + (if p + [t[0]] in dom then Visits(dom, p + [t[0]], t[1..]) else [])
      + (if p + [SWC] in dom then Visits(dom, p + [SWC], t[1..]) else [])
  }

  /** The whole of live search, `$` topics included. */
  function Search(dom: set<Path>, t: Path): seq<Path>
    requires t != []
  {
    if !Dollar(t[0]) then Visits(dom, [], t)
    else if [t[0]] in dom then Visits(dom, [t[0]], t[1..])
    else []
  }

  /** Every filter that could match the topic, in the order live search comes to them: at each level `#`, then
      the level itself, then `+`. */
  function Walk(p: Path, t: Path): seq<Path>
    decreases |t|
  {
    if t == [] then [p, p + [MWC]]
    else (if t[0] != "" then [p + [MWC]] else []) + Walk(p + [t[0]], t[1..]) + Walk(p + [SWC], t[1..])
  }

  function WalkFor(t: Path): seq<Path>
    requires t != []
  {
    if !Dollar(t[0]) then Walk([], t) else Walk([t[0]], t[1..])
  }

  lemma {:induction false} WalkBelow(p: Path, t: Path)
    ensures forall i {:trigger Walk(p, t)[i]} | 0 <= i < |Walk(p, t)| :: p <= Walk(p, t)[i]
    decreases |t|
  {
    if t != [] {
      WalkBelow(p + [t[0]], t[1..]);
      WalkBelow(p + [SWC], t[1..]);
      var a, b := Walk(p + [t[0]], t[1..]), Walk(p + [SWC], t[1..]);
      forall i | 0 <= i < |a| ensures p <= a[i] { assert p + [t[0]] <= a[i]; }
      forall i | 0 <= i < |b| ensures p <= b[i] { assert p + [SWC] <= b[i]; }
    }
  }

  /** At a level, `#` comes before the level itself, and that before `+`. */
  function Rank(l: Level): nat {
    if l == "#" then 0 else if l == "+" then 2 else 1
  }

  /** `f` comes before `g`: it is the shorter of two that agree, or of lower rank where they first differ. */
  ghost predicate Before(f: Path, g: Path) {
    exists k: nat :: k <= |f| && k < |g| && f[..k] == g[..k] && (k == |f| || Rank(f[k]) < Rank(g[k]))
  }

  ghost predicate Ascending(w: seq<Path>) {
    forall i, j | 0 <= i < j < |w| :: Before(w[i], w[j])
  }

  lemma AscendingConcat(a: seq<Path>, b: seq<Path>)
    requires Ascending(a) && Ascending(b)
    requires forall i, j | 0 <= i < |a| && 0 <= j < |b| :: Before(a[i], b[j])
    ensures Ascending(a + b)
  {
  }

  lemma BranchBefore(p: Path, l: Level, m: Level, f: Path, g: Path)
    requires Rank(l) < Rank(m) && p + [l] <= f && p + [m] <= g
    ensures Before(f, g)
  {
    var k := |p|;
    assert f[k] == (p + [l])[k] == l && g[k] == (p + [m])[k] == m;
    assert f[..k] == (p + [l])[..k] == p && g[..k] == (p + [m])[..k] == p;
  }

  lemma BranchesBefore(p: Path, l: Level, m: Level, a: seq<Path>, b: seq<Path>)
    requires Rank(l) < Rank(m)
    requires forall i {:trigger a[i]} | 0 <= i < |a| :: p + [l] <= a[i]
    requires forall i {:trigger b[i]} | 0 <= i < |b| :: p + [m] <= b[i]
    ensures forall i, j | 0 <= i < |a| && 0 <= j < |b| :: Before(a[i], b[j])
  {
    forall i, j | 0 <= i < |a| && 0 <= j < |b| ensures Before(a[i], b[j]) {
      BranchBefore(p, l, m, a[i], b[j]);
    }
  }

  /** Live search comes to the filters in ascending order. */
  lemma {:induction false} WalkAscends(p: Path, t: Path)
    requires forall i | 0 <= i < |t| :: t[i] != "#" && t[i] != "+"
    ensures Ascending(Walk(p, t))
    decreases |t|
  {
    hide Before, Rank;
    if t == [] {
      ShorterFirst(p, MWC);
    } else {
      var l, rest := t[0], t[1..];
      var a: seq<Path> := if l != "" then [p + [MWC]] else [];
      var b, c := Walk(p + [l], rest), Walk(p + [SWC], rest);
      Ranks(l);
      WalkAscends(p + [l], rest);
      WalkAscends(p + [SWC], rest);
      WalkBelow(p + [l], rest);
      WalkBelow(p + [SWC], rest);
      BranchesBefore(p, l, SWC, b, c);
      BranchesBefore(p, MWC, l, a, b);
      BranchesBefore(p, MWC, SWC, a, c);
      AscendingConcat(a, b);
      AscendingConcat(a + b, c);
    }
  }

  lemma Ranks(l: Level)
    requires l != "#" && l != "+"
    ensures Rank(MWC) < Rank(l) < Rank(SWC)
  {
  }

  lemma ShorterFirst(p: Path, l: Level)
    ensures Before(p, p + [l])
  {
    assert (p + [l])[..|p|] == p[..|p|];
  }

  lemma MatchesStep(r: Path, t: Path)
    requires WildcardFree(t) && t != []
    ensures Matches(r, t) <==>
            || (r == [MWC] && t[0] != "")
            || (r != [] && (r[0] == SWC || r[0] == t[0]) && Matches(r[1..], t[1..]))
  {
    if r != [] {
      var r', t' := r[1..], t[1..];
      assert forall i | 0 < i < |r| :: r[i] == r'[i - 1];
      assert forall i | 0 < i < |t| :: t[i] == t'[i - 1];
      if |r| == |t| {
        assert Fits(r, t) <==> ((r[0] == SWC || r[0] == t[0]) && Fits(r', t')) by {
          if Fits(r, t) {
            forall i | 0 <= i < |r'| ensures r'[i] == SWC || r'[i] == t'[i] {
              assert r[i + 1] == SWC || r[i + 1] == t[i + 1];
            }
          }
        }
      }
      if |r| > 1 && |r| - 1 <= |t| {
        var q, q' := r[..|r| - 1], r'[..|r'| - 1];
        assert q[0] == r[0] && q[1..] == q';
        assert forall i | 0 < i < |q| :: q[i] == q'[i - 1];
        assert Fits(q, t) <==> ((r[0] == SWC || r[0] == t[0]) && Fits(q', t')) by {
          if Fits(q, t) {
            forall i | 0 <= i < |q'| ensures q'[i] == SWC || q'[i] == t'[i] {
              assert q[i + 1] == SWC || q[i + 1] == t[i + 1];
            }
          }
        }
      }
    }
  }

  lemma PrefixOf(dom: set<Path>, p: Path, f: Path)
    requires PrefixClosed(dom) && f in dom && p <= f
    ensures p in dom
    decreases |f|
  {
    if p != f {
      var g := f[..|f| - 1];
      assert p == g[..|p|];
      PrefixOf(dom, p, g);
    }
  }

  ghost predicate VisitsExactly(v: seq<Path>, dom: set<Path>, p: Path, t: Path) {
    && NoDup(v)
    && forall f :: f in v <==> f in dom && p <= f && Matches(f[|p|..], t)
  }

  lemma {:induction false} VisitsExact(dom: set<Path>, p: Path, t: Path)
    requires PrefixClosed(dom) && p in dom && WildcardFree(t)
    ensures VisitsExactly(Visits(dom, p, t), dom, p, t)
    decreases |t|
  {
    var v := Visits(dom, p, t);
    if t == [] {
      forall f ensures f in v <==> f in dom && p <= f && Matches(f[|p|..], t) {
        assert f in v <==> f == p || (f == p + [MWC] && f in dom);
        assert p <= p + [MWC];
        if p <= f {
          assert f == p + f[|p|..];
          assert Matches(f[|p|..], t) <==> f[|p|..] == [] || f[|p|..] == [MWC];
        }
      }
    } else {
      var a := if t[0] != "" then Here(dom, p + [MWC]) else [];
      var b := if p + [t[0]] in dom then Visits(dom, p + [t[0]], t[1..]) else [];
      var c := if p + [SWC] in dom then Visits(dom, p + [SWC], t[1..]) else [];
      if p + [t[0]] in dom { VisitsExact(dom, p + [t[0]], t[1..]); }
      if p + [SWC] in dom { VisitsExact(dom, p + [SWC], t[1..]); }
      Branch(dom, p, t[0], t[1..], b);
      Branch(dom, p, SWC, t[1..], c);
      ThreeBranches(dom, p, t, a, b, c);
    }
  }

  ghost predicate IsBranch(dom: set<Path>, p: Path, l: Level, t: Path, b: seq<Path>) {
    && NoDup(b)
    && forall f :: f in b <==> f in dom && p <= f && |f| > |p| && f[|p|] == l && Matches(f[|p| + 1..], t)
  }

  lemma ThreeBranches(dom: set<Path>, p: Path, t: Path, a: seq<Path>, b: seq<Path>, c: seq<Path>)
    requires WildcardFree(t) && t != []
    requires a == if t[0] != "" then Here(dom, p + [MWC]) else []
    requires IsBranch(dom, p, t[0], t[1..], b) && IsBranch(dom, p, SWC, t[1..], c)
    ensures VisitsExactly(a + b + c, dom, p, t)
  {
    forall f ensures f in a + b + c <==> f in dom && p <= f && Matches(f[|p|..], t) {
      assert f in a + b + c <==> f in a || f in b || f in c;
      if p <= f {
        var r := f[|p|..];
        assert f == p + r;
        MatchesStep(r, t);
        assert |f| > |p| ==> r[0] == f[|p|] && r[1..] == f[|p| + 1..];
        assert f in a <==> t[0] != "" && r == [MWC] && f in dom;
      } else {
        assert f !in a;
      }
    }
    assert forall f <- a :: f == p + [MWC] && f[|p|] == MWC;
    NoDupConcat(a, b);
    NoDupConcat(a + b, c);
  }

  /** One branch of the walk holds exactly the matches that continue with `l`. */
  lemma Branch(dom: set<Path>, p: Path, l: Level, t: Path, b: seq<Path>)
    requires PrefixClosed(dom)
    requires p + [l] in dom ==> VisitsExactly(b, dom, p + [l], t)
    requires p + [l] !in dom ==> b == []
    ensures IsBranch(dom, p, l, t, b)
  {
    forall f ensures f in b <==> f in dom && p <= f && |f| > |p| && f[|p|] == l && Matches(f[|p| + 1..], t) {
      if f in dom && p <= f && |f| > |p| && f[|p|] == l {
        assert p + [l] <= f;
        PrefixOf(dom, p + [l], f);
      }
    }
  }

  lemma SearchFromRoot(dom: set<Path>, t: Path)
    requires PrefixClosed(dom) && [] in dom && WildcardFree(t) && t != [] && !Dollar(t[0])
    ensures var v := Visits(dom, [], t); NoDup(v) && forall f :: f in v <==> f in dom && LiveMatch(f, t)
  {
    hide Visits, NoDup, PrefixClosed, WildcardFree, Matches;
    VisitsExact(dom, [], t);
    var v := Visits(dom, [], t);
    forall f ensures f in v <==> f in dom && LiveMatch(f, t) {
      assert f[0..] == f;
    }
  }

  lemma SearchDollar(dom: set<Path>, t: Path, b: seq<Path>)
    requires PrefixClosed(dom) && [] in dom && WildcardFree(t) && t != [] && Dollar(t[0])
    requires b == if [t[0]] in dom then Visits(dom, [t[0]], t[1..]) else []
    ensures NoDup(b) && forall f :: f in b <==> f in dom && LiveMatch(f, t)
  {
    hide Visits;
    if [t[0]] in dom { VisitsExact(dom, [t[0]], t[1..]); }
    assert [] + [t[0]] == [t[0]];
    Branch(dom, [], t[0], t[1..], b);
    forall f ensures f in b <==> f in dom && LiveMatch(f, t) {
      MatchesStep(f, t);
      assert t[0][0] == '$' && MWC[0] == '#';
    }
  }

  /** Live search visits each node whose path matches the topic once, and no other node. */
  lemma SearchExact(dom: set<Path>, t: Path)
    requires PrefixClosed(dom) && [] in dom && WildcardFree(t) && t != []
    ensures NoDup(Search(dom, t))
    ensures forall f :: f in Search(dom, t) <==> f in dom && LiveMatch(f, t)
  {
    hide Visits, LiveMatch, NoDup, PrefixClosed, WildcardFree;
    if !Dollar(t[0]) {
      SearchFromRoot(dom, t);
    } else {
      SearchDollar(dom, t, Search(dom, t));
    }
  }

  // ---------------------------------------------------------------- the walk retained search makes

  /** What retained search reaches from a node: `levels` are still to be matched, `r` leads from the node
      down to the topic. Below a full match it also looks under a child called `#`. */
  predicate WalkHits(levels: Path, r: Path) {
    if levels == [] then r == [] || r[0] == MWC
    else if levels[0] == MWC then true
    else r != [] && (levels[0] == SWC || r[0] == levels[0]) && WalkHits(levels[1..], r[1..])
  }

  lemma {:induction false} WalkHitsIsRetainedMatch(f: Path, t: Path)
    requires WildcardFree(t) && (f != [] ==> f[0] != MWC)
    ensures WalkHits(f, t) <==> RetainedMatch(f, t)
  {
    if f != [] && t != [] {
      var f', t' := f[1..], t[1..];
      assert forall i | 0 < i < |f| :: f[i] == f'[i - 1];
      assert forall i | 0 < i < |t| :: t[i] == t'[i - 1];
      if |f| <= |t| { FitsStep(f, t); }
      if Cut(f) <= |t| {
        FitsStep(f[..Cut(f)], t);
        assert f[..Cut(f)][1..] == f'[..Cut(f')];
      }
      if f' != [] && f'[0] == MWC {
        assert Cut(f') == 0;
      } else {
        WalkHitsIsRetainedMatch(f', t');
      }
    }
  }

  lemma FitsStep(f: Path, t: Path)
    requires f != [] && |f| <= |t|
    ensures Fits(f, t) <==> (f[0] == SWC || f[0] == t[0]) && Fits(f[1..], t[1..])
  {
    if Fits(f, t) {
      forall i | 0 <= i < |f[1..]| ensures f[1..][i] == SWC || f[1..][i] == t[1..][i] {
        assert f[i + 1] == SWC || f[i + 1] == t[i + 1];
      }
    } else {
      assert forall i | 0 < i < |f| :: f[i] == f[1..][i - 1] && t[i] == t[1..][i - 1];
    }
  }
}
