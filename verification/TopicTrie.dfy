/** The subscription and retained-message tree of topics/mem: nodes with parent pointers, changed in
    place, shared by subscriptions and retained messages. */
module TopicTrie {
  import opened Common
  import opened TopicMatch
  import opened TopicModel
  import opened Answers

  /** A path as the tree grows it, from the root down. */
  datatype Trail = Top | Below(up: Trail, last: Level)

  function TrailOf(f: Path): Trail {
    if f == [] then Top else Below(TrailOf(f[..|f| - 1]), f[|f| - 1])
  }

  function Levels(t: Trail): (f: Path)
    ensures TrailOf(f) == t
  {
    match t
    case Top => []
    case Below(up, l) =>
      var f := Levels(up) + [l];
      assert f[..|f| - 1] == Levels(up);
      f
  }

  lemma {:induction false} LevelsOfTrail(f: Path)
    ensures Levels(TrailOf(f)) == f
  {
    if f != [] {
      LevelsOfTrail(f[..|f| - 1]);
      assert f == f[..|f| - 1] + [f[|f| - 1]];
    }
  }

  class Node {
    var retained: Option<Message>
    var subs: Subs
    var parent: Node?
    var children: map<Level, Node>
    ghost const path: Trail

    constructor (parent: Node?, ghost path: Trail)
      ensures retained == None && subs == map[] && children == map[]
      ensures this.parent == parent && this.path == path
    {
      retained, subs, children := None, map[], map[];
      this.parent := parent;
      this.path := path;
    }
  }

  /** The subscribers as the tree sees them: how often each is held, and what each was handed. */
  class Subscribers {
    var held: multiset<SubscriberId>
    var delivered: seq<Delivery>

    constructor ()
      ensures held == multiset{} && delivered == []
    {
      held, delivered := multiset{}, [];
    }
  }

  /** The subscribers are held once more for every entry that `e1` has and `e0` has not. */
  ghost predicate Counted(h0: multiset<SubscriberId>, e0: Entries, h1: multiset<SubscriberId>, e1: Entries) {
    forall id :: h1[id] + |Lookup(e0, id)| == h0[id] + |Lookup(e1, id)|
  }

  ghost predicate NoEmpty(e: Entries) {
    forall id <- e :: e[id] != []
  }

  class Provider {
    const allowOverlapping: bool
    const hub: Subscribers
    var root: Node
    ghost var at: map<Trail, Node>
    ghost var nodes: set<Node>

    // ---------------------------------------------------------------- shape and meaning

    ghost predicate Covered()
      reads this
    {
      forall p <- at :: at[p] in nodes && at[p].path == p
    }

    /** The node at `p` hangs below its parent under its last level and points back to that parent, and
        its children hang where they should. */
    ghost predicate NodeOk(p: Trail)
      requires Covered() && p in at
      reads this, nodes
    {
      && (forall l <- at[p].children :: Below(p, l) in at && at[p].children[l] == at[Below(p, l)])
      && (p.Top? ==> at[p].parent == null)
      && (p.Below? ==> p.up in at && p.last in at[p.up].children && at[p].parent == at[p.up])
    }

    ghost predicate Shape()
      reads this, nodes
      ensures Shape() ==> Covered()
    {
      && Covered()
      && Top in at && at[Top] == root
      && (forall p {:trigger NodeOk(p)} | p in at :: NodeOk(p))
    }

    ghost predicate Empty(n: Node)
      reads n
    {
      n.subs == map[] && n.children == map[] && n.retained == None
    }

    /** No non-root node is left without subscribers, children or a retained message, `q` aside. */
    ghost predicate PrunedExcept(q: Trail)
      requires Covered()
      reads this, nodes
    {
      forall p <- at :: p.Below? && p != q ==> !Empty(at[p])
    }

    ghost predicate Pruned()
      requires Covered()
      reads this, nodes
    {
      PrunedExcept(Top)
    }

    ghost function Names(): set<Path>
      reads this
    {
      set p | p in at :: Levels(p)
    }

    ghost function SubsOf(f: Path): Subs
      requires Covered()
      reads this, nodes
    {
      if TrailOf(f) in at then at[TrailOf(f)].subs else map[]
    }

    ghost function RetainedOf(f: Path): Option<Message>
      requires Covered()
      reads this, nodes
    {
      if TrailOf(f) in at then at[TrailOf(f)].retained else None
    }

    /** What the tree stands for. */
    ghost function Abs(): Flat
      requires Covered()
      reads this, nodes
    {
      Flat(map f | f in Names() && SubsOf(f) != map[] :: SubsOf(f),
           map f | f in Names() && RetainedOf(f).Some? :: RetainedOf(f).value)
    }

    lemma AbsAt(f: Path)
      requires Covered()
      ensures f in Names() <==> TrailOf(f) in at
      ensures f in Abs().subs <==> SubsOf(f) != map[]
      ensures SubsAt(Abs(), f) == SubsOf(f)
      ensures f in Abs().retained <==> RetainedOf(f).Some?
      ensures f in Abs().retained ==> RetainedOf(f) == Some(Abs().retained[f])
    {
      LevelsOfTrail(f);
    }

    /** `s` says about `f` what the tree says. */
    ghost predicate Agrees(s: Flat, f: Path)
      requires Covered()
      reads this, nodes
    {
      && (f in s.subs <==> SubsOf(f) != map[]) && (f in s.subs ==> s.subs[f] == SubsOf(f))
      && RetainedOf(f) == if f in s.retained then Some(s.retained[f]) else None
    }

    lemma AbsAgrees()
      requires Covered()
      ensures forall f :: Agrees(Abs(), f)
    {
      forall f ensures Agrees(Abs(), f) { AbsAt(f); }
    }

    lemma AbsIs(s: Flat)
      requires Covered() && forall f :: Agrees(s, f)
      ensures Abs() == s
    {
      var a := Abs();
      AbsAgrees();
      forall f
        ensures (f in a.subs <==> f in s.subs) && (f in a.subs ==> a.subs[f] == s.subs[f])
        ensures (f in a.retained <==> f in s.retained) && (f in a.retained ==> a.retained[f] == s.retained[f])
      {
        assert Agrees(a, f) && Agrees(s, f);
      }
      assert a.subs == s.subs && a.retained == s.retained;
    }

    ghost predicate Valid()
      reads this, nodes
    {
      Shape() && forall t <- Abs().retained :: WildcardFree(t)
    }

    constructor (allowOverlapping: bool, hub: Subscribers)
      ensures Valid() && Pruned() && Abs() == Flat(map[], map[]) && fresh(nodes)
      ensures this.allowOverlapping == allowOverlapping && this.hub == hub
    {
      this.allowOverlapping := allowOverlapping;
      this.hub := hub;
      var r := new Node(null, Top);
      root := r;
      at, nodes := map[Top := r], {r};
    }

    // ---------------------------------------------------------------- walking down

    method AddChild(n: Node, l: Level) returns (c: Node)
      requires Shape() && n.path in at && at[n.path] == n && l !in n.children
      modifies this`at, this`nodes, n`children
      ensures Shape() && fresh(c) && c.path == Below(n.path, l) && c.path !in old(at)
      ensures at == old(at)[c.path := c] && nodes == old(nodes) + {c} && l in n.children
      ensures c.subs == map[] && c.retained == None
    {
      ghost var q := Below(n.path, l);
      assert NodeOk(n.path) && (q in at ==> NodeOk(q));
      c := new Node(n, q);
      n.children := n.children[l := c];
      ghost var was := at;
      at, nodes := at[q := c], nodes + {c};
      forall p | p in at ensures NodeOk(p) {
        assert p in was ==> old(NodeOk(p));
      }
    }

    method ChildOrNew(n: Node, l: Level) returns (c: Node)
      requires Shape() && n.path in at && at[n.path] == n
      modifies this`at, this`nodes, n`children
      ensures Shape() && c.path == Below(n.path, l) && c.path in at && at[c.path] == c
      ensures Grown(old(at))
      ensures old(nodes) <= nodes && fresh(nodes - old(nodes))
      ensures old(PrunedExcept(n.path)) ==> PrunedExcept(c.path)
    {
      if l in n.children {
        assert NodeOk(n.path);
        c := n.children[l];
      } else {
        c := AddChild(n, l);
      }
      assert !Empty(n);
    }

    /** The nodes of `was` are all still there, and the new ones hold nothing. */
    ghost predicate Grown(was: map<Trail, Node>)
      requires Covered()
      reads this, nodes
    {
      && (forall p <- was :: p in at && at[p] == was[p])
      && (forall p <- at :: p !in was ==> at[p].subs == map[] && at[p].retained == None)
    }

    method LeafInsertNode(levels: Path) returns (n: Node)
      requires Shape()
      modifies this`at, this`nodes, nodes`children
      ensures Shape() && n.path == TrailOf(levels) && n.path in at && n == at[n.path]
      ensures Abs() == old(Abs()) && old(nodes) <= nodes && fresh(nodes - old(nodes))
      ensures n.subs == old(SubsOf(levels))
      ensures old(Pruned()) ==> PrunedExcept(n.path)
    {
      ghost var was := Abs();
      AbsAgrees();
      n := root;
      for i := 0 to |levels|
        invariant Shape() && n.path == TrailOf(levels[..i]) && n.path in at && n == at[n.path]
        invariant Grown(old(at)) && old(nodes) <= nodes && fresh(nodes - old(nodes))
        invariant old(Pruned()) ==> PrunedExcept(n.path)
      {
        assert levels[..i + 1][..i] == levels[..i];
        n := ChildOrNew(n, levels[i]);
      }
      assert levels[..|levels|] == levels;
      forall f ensures Agrees(was, f) { assert old(Agrees(was, f)); }
      AbsIs(was);
    }

    lemma Ancestors(f: Path, i: nat)
      requires Shape() && TrailOf(f) in at && i <= |f|
      ensures TrailOf(f[..i]) in at
      decreases |f|
    {
      if i == |f| {
        assert f[..i] == f;
      } else {
        assert NodeOk(TrailOf(f));
        assert f[..|f| - 1][..i] == f[..i];
        Ancestors(f[..|f| - 1], i);
      }
    }

    method LeafSearchNode(levels: Path) returns (n: Node?)
      requires Shape()
      ensures n != null <==> TrailOf(levels) in at
      ensures n != null ==> n == at[TrailOf(levels)]
    {
      var r := root;
      for i := 0 to |levels|
        invariant TrailOf(levels[..i]) in at && r == at[TrailOf(levels[..i])]
      {
        ghost var p, q := TrailOf(levels[..i]), TrailOf(levels[..i + 1]);
        assert levels[..i + 1][..i] == levels[..i];
        assert NodeOk(p) && (q in at ==> NodeOk(q));
        if levels[i] !in r.children {
          if TrailOf(levels) in at { Ancestors(levels, i + 1); }
          return null;
        }
        r := r.children[levels[i]];
      }
      assert levels[..|levels|] == levels;
      return r;
    }

    // ---------------------------------------------------------------- pruning up

    method DropLeaf(n: Node, l: Level)
      requires Shape() && n.path in at && at[n.path] == n && n.children == map[]
      requires n.path.Below? && l == n.path.last
      modifies this`at, nodes`children
      ensures Shape() && at == old(at) - {n.path}
      ensures n.path.up in at && n.parent == at[n.path.up]
      ensures forall p <- at :: p != n.path.up ==> at[p].children == old(at[p].children)
    {
      ghost var q := n.path;
      assert NodeOk(q);
      n.parent.children := n.parent.children - {l};
      at := at - {q};
      forall p | p in at ensures NodeOk(p) {
        assert old(NodeOk(p));
      }
    }

    /** All nodes of `was` except `gone`, which held nothing. */
    ghost predicate Shrunk(was: map<Trail, Node>, gone: set<Trail>)
      reads this, was.Values
    {
      && at.Keys == was.Keys - gone && gone <= was.Keys
      && (forall p <- at :: at[p] == was[p])
      && (forall p <- gone :: was[p].subs == map[] && was[p].retained == None)
    }

    /** One turn of the pruning loop: take an empty node off its parent. */
    method DropIfEmpty(n: Node, l: Level) returns (clean: bool, ghost gone: set<Trail>)
      requires Shape() && n.path in at && at[n.path] == n && (n.path.Below? ==> l == n.path.last)
      modifies this`at, nodes`children
      ensures Shape() && clean == old(Empty(n))
      ensures gone == if clean && n.path.Below? then {n.path} else {}
      ensures Shrunk(old(at), gone)
      ensures old(PrunedExcept(n.path)) ==> PrunedExcept(if n.path.Below? then n.path.up else Top)
      ensures n.parent == null <==> n.path.Top?
      ensures n.path.Below? ==> n.path.up in at && n.parent == at[n.path.up]
    {
      clean := n.subs == map[] && n.children == map[] && n.retained == None;
      gone := {};
      assert NodeOk(n.path);
      if clean && n.parent != null {
        DropLeaf(n, l);
        gone := {n.path};
      }
    }

    /** Which paths have been reported as cleaned, the root aside. */
    ghost predicate Reported(cleaned: seq<Path>, gone: set<Trail>) {
      forall f {:trigger TrailOf(f)} :: f in cleaned && f != [] <==> TrailOf(f) in gone
    }

    lemma ReportedMore(cleaned: seq<Path>, gone: set<Trail>, f: Path, clean: bool)
      requires Reported(cleaned, gone)
      ensures Reported(if clean then cleaned + [f] else cleaned, gone + if clean && f != [] then {TrailOf(f)} else {})
    {
      forall g ensures TrailOf(g) == TrailOf(f) ==> g == f {
        LevelsOfTrail(f);
        LevelsOfTrail(g);
      }
    }

    /** One turn of the climb, at the node `level` levels down. */
    method ClimbOne(n: Node, levels: Path, level: nat, done: seq<Path>, ghost was: map<Trail, Node>, ghost before: set<Trail>)
      returns (cleaned: seq<Path>, ghost gone: set<Trail>)
      requires Shape() && Shrunk(was, before) && Reported(done, before)
      requires level <= |levels| && n.path == TrailOf(levels[..level]) && n.path in at && at[n.path] == n
      modifies this`at, nodes`children
      ensures Shape() && Shrunk(was, gone) && Reported(cleaned, gone)
      ensures n.parent == null <==> level == 0
      ensures level > 0 ==> var up := TrailOf(levels[..level - 1]); up in at && n.parent == at[up] && at[up].path == up
      ensures old(PrunedExcept(n.path)) ==> PrunedExcept(if level > 0 then TrailOf(levels[..level - 1]) else Top)
    {
      hide PrunedExcept;
      assert level > 0 ==> levels[..level][..level - 1] == levels[..level - 1];
      var clean, out := DropIfEmpty(n, if level == 0 then "" else levels[level - 1]);
      ReportedMore(done, before, levels[..level], clean);
      cleaned := if clean then done + [levels[..level]] else done;
      gone := before + out;
      assert level > 0 ==> NodeOk(n.path.up);
    }

    /** The pruning loop: from a node up to the root. */
    method Climb(leaf: Node, levels: Path) returns (cleaned: seq<Path>, ghost gone: set<Trail>)
      requires Shape() && leaf.path == TrailOf(levels) && leaf.path in at && at[leaf.path] == leaf
      modifies this`at, nodes`children
      ensures Shape() && Shrunk(old(at), gone)
      ensures old(PrunedExcept(leaf.path)) ==> Pruned()
      ensures Reported(cleaned, gone)
    {
      cleaned, gone := [], {};
      var n: Node? := leaf;
      var level := |levels|;
      assert levels[..level] == levels;
      while n != null
        invariant Shape() && Shrunk(old(at), gone) && Reported(cleaned, gone)
        invariant -1 <= level <= |levels| && (n == null <==> level == -1)
        invariant n != null ==> n.path == TrailOf(levels[..level]) && n.path in at && n == at[n.path]
        invariant old(PrunedExcept(leaf.path)) ==> PrunedExcept(if n == null then Top else n.path)
        decreases level
      {
        cleaned, gone := ClimbOne(n, levels, level, cleaned, old(at), gone);
        n := n.parent;
        level := level - 1;
      }
    }

    /** Pruning changes no answer, reports exactly the nodes it removed (and the root when everything
        is gone), and leaves no empty node behind. */
    method Prune(leaf: Node, levels: Path) returns (cleaned: seq<Path>)
      requires Valid() && leaf.path == TrailOf(levels) && leaf.path in at && at[leaf.path] == leaf
      modifies this`at, nodes`children
      ensures Valid() && Abs() == old(Abs())
      ensures old(PrunedExcept(leaf.path)) ==> Pruned()
      ensures forall f :: f in cleaned && f != [] <==> TrailOf(f) in old(at) && TrailOf(f) !in at
    {
      ghost var was := Abs();
      AbsAgrees();
      ghost var gone;
      cleaned, gone := Climb(leaf, levels);
      forall f ensures Agrees(was, f) { assert old(Agrees(was, f)); }
      AbsIs(was);
    }

    // ---------------------------------------------------------------- subscriptions and retained messages

    method PutSubs(n: Node, m: Subs)
      requires Valid() && n.path in at && at[n.path] == n
      modifies n`subs
      ensures n.subs == m && Valid() && Abs() == WithSubs(old(Abs()), Levels(n.path), m)
    {
      ghost var was := Abs();
      AbsAgrees();
      n.subs := m;
      ghost var s := WithSubs(was, Levels(n.path), m);
      forall f ensures Agrees(s, f) {
        LevelsOfTrail(f);
        assert old(Agrees(was, f));
      }
      AbsIs(s);
      forall p | p in at ensures NodeOk(p) { assert old(NodeOk(p)); }
    }

    method SubscriptionInsert(filter: string, id: SubscriberId, p: Params) returns (existed: bool)
      requires Valid()
      modifies this`at, this`nodes, nodes`children, nodes`subs
      ensures Valid() && old(nodes) <= nodes && fresh(nodes - old(nodes))
      ensures Abs() == FlatSubscribe(old(Abs()), Split(filter), id, p)
      ensures existed <==> id in SubsAt(old(Abs()), Split(filter))
      ensures old(Pruned()) ==> Pruned()
    {
      var levels := Split(filter);
      LevelsOfTrail(levels);
      AbsAgrees();
      assert Agrees(Abs(), levels);
      var n := LeafInsertNode(levels);
      existed := id in n.subs;
      PutSubs(n, n.subs[id := p]);
      assert id in n.subs;
    }

    method RemoveFrom(n: Node, who: Option<SubscriberId>) returns (found: bool)
      requires Valid() && n.path in at && at[n.path] == n
      modifies n`subs
      ensures Valid() && Abs() == FlatUnsubscribe(old(Abs()), Levels(n.path), who)
      ensures found <==> (who.Some? ==> who.value in old(n.subs))
      ensures old(Pruned()) ==> PrunedExcept(n.path)
    {
      AbsAgrees();
      assert Agrees(Abs(), Levels(n.path));
      found := true;
      if who == None {
        PutSubs(n, map[]);
      } else if who.value in n.subs {
        PutSubs(n, n.subs - {who.value});
      } else {
        found := false;
        assert n.subs - {who.value} == n.subs;
        SameSubs(Abs(), Levels(n.path));
      }
    }

    /** Where there is no node, there are no subscriptions. */
    lemma NodeSubs(levels: Path)
      requires Covered()
      ensures TrailOf(levels) !in at ==> levels !in Abs().subs
      ensures TrailOf(levels) in at ==> SubsAt(Abs(), levels) == at[TrailOf(levels)].subs
    {
      AbsAt(levels);
    }

    lemma NobodyThere(s: Flat, f: Path, who: Option<SubscriberId>)
      requires f !in s.subs
      ensures FlatUnsubscribe(s, f, who) == s && SubsAt(s, f) == map[]
    {
      var none: Subs := map[];
      assert who.Some? ==> none - {who.value} == none;
      assert s.subs - {f} == s.subs;
    }

    method SubscriptionRemove(topic: string, who: Option<SubscriberId>) returns (found: bool, cleaned: seq<Path>)
      requires Valid()
      modifies this`at, nodes`children, nodes`subs
      ensures Valid()
      ensures Abs() == FlatUnsubscribe(old(Abs()), Split(topic), who)
      ensures who.Some? ==> (found <==> who.value in SubsAt(old(Abs()), Split(topic)))
      ensures who.None? ==> (found <==> TrailOf(Split(topic)) in old(at))
      ensures forall f :: f in cleaned && f != [] <==> TrailOf(f) in old(at) && TrailOf(f) !in at
      ensures old(Pruned()) ==> Pruned()
    {
      hide Split, Levels, Shape, Pruned, PrunedExcept, Abs, FlatUnsubscribe, TrailOf;
      var levels := Split(topic);
      LevelsOfTrail(levels);
      var n := LeafSearchNode(levels);
      NodeSubs(levels);
      if n == null {
        NobodyThere(Abs(), levels, who);
        return false, [];
      }
      found := RemoveFrom(n, who);
      cleaned := Prune(n, levels);
    }

    method PutRetained(n: Node, r: Option<Message>)
      requires Valid() && n.path in at && at[n.path] == n
      requires r.Some? ==> WildcardFree(Levels(n.path))
      modifies n`retained
      ensures n.retained == r && Valid()
      ensures Abs() == old(Abs()).(retained := if r.None? then old(Abs()).retained - {Levels(n.path)}
                                               else old(Abs()).retained[Levels(n.path) := r.value])
    {
      ghost var was, t := Abs(), Levels(n.path);
      AbsAgrees();
      n.retained := r;
      ghost var s := was.(retained := if r.None? then was.retained - {t} else was.retained[t := r.value]);
      forall f ensures Agrees(s, f) {
        LevelsOfTrail(f);
        assert old(Agrees(was, f));
      }
      AbsIs(s);
      forall p | p in at ensures NodeOk(p) { assert old(NodeOk(p)); }
    }

    method RetainInsert(topic: string, m: Message)
      requires Valid() && ValidTopic(topic)
      modifies this`at, this`nodes, nodes`children, nodes`retained
      ensures Valid() && old(nodes) <= nodes && fresh(nodes - old(nodes))
      ensures Abs() == old(Abs()).(retained := old(Abs()).retained[Split(topic) := m])
      ensures old(Pruned()) ==> Pruned()
    {
      var levels := Split(topic);
      ValidTopicIsWildcardFree(topic);
      LevelsOfTrail(levels);
      var n := LeafInsertNode(levels);
      PutRetained(n, Some(m));
    }

    method RetainRemove(topic: string) returns (found: bool)
      requires Valid()
      modifies this`at, nodes`children, nodes`retained
      ensures Valid()
      ensures Abs() == old(Abs()).(retained := old(Abs()).retained - {Split(topic)})
      ensures found <==> TrailOf(Split(topic)) in old(at)
      ensures old(Pruned()) ==> Pruned()
    {
      var levels := Split(topic);
      LevelsOfTrail(levels);
      AbsAgrees();
      assert Agrees(Abs(), levels);
      var n := LeafSearchNode(levels);
      if n == null {
        return false;
      }
      PutRetained(n, None);
      var _ := Prune(n, levels);
      return true;
    }

    /** An empty payload clears the topic; a QoS 0 message first clears it and is then stored. */
    method Retain(m: Message)
      requires Valid() && ValidTopic(m.topic)
      modifies this`at, this`nodes, nodes`children, nodes`retained
      ensures Valid() && old(nodes) <= nodes && fresh(nodes - old(nodes))
      ensures Abs() == FlatRetain(old(Abs()), m) && RetainsNow(old(Abs()), Abs(), m)
      ensures old(Pruned()) ==> Pruned()
    {
      RetainedNow(Abs(), m);
      var insert := true;
      if m.payload == "" || m.qos == 0 {
        var _ := RetainRemove(m.topic);
        if m.payload == "" {
          insert := false;
        }
      }
      if insert {
        RetainInsert(m.topic, m);
        WriteTwice(old(Abs()).retained, Split(m.topic), m);
      }
    }

    // ---------------------------------------------------------------- live search

    /** `r` is `e` with `es` as the entries of `id`. */
    ghost predicate Put(e: Entries, id: SubscriberId, es: seq<Entry>, r: Entries) {
      NoEmpty(r) && Lookup(r, id) == es && forall j | j != id :: Lookup(r, j) == Lookup(e, j)
    }

    method NonOverlappingSubscriber(id: SubscriberId, p: Params, pub: SubscriberId, e: Entries) returns (r: Entries)
      requires NoEmpty(e)
      modifies hub`held
      ensures Put(e, id, Absorb(false, Lookup(e, id), id, p, pub), r) && Counted(old(hub.held), e, hub.held, r)
    {
      r := e;
      if !p.ops.NL() || id != pub {
        hub.held := hub.held + multiset{id};
        var pe := Acquired(id, p);
        if id in e {
          r := e[id := e[id] + [pe]];
        } else {
          r := e[id := [pe]];
        }
      }
    }

    method OverlappingSubscriber(id: SubscriberId, p: Params, pub: SubscriberId, e: Entries) returns (r: Entries)
      requires NoEmpty(e)
      modifies hub`held
      ensures Put(e, id, Absorb(true, Lookup(e, id), id, p, pub), r) && Counted(old(hub.held), e, hub.held, r)
    {
      r := e;
      if id in e {
        var first := e[id][0];
        if p.id > 0 {
          first := first.(ids := first.ids + [p.id]);
        }
        if first.qos < p.granted {
          first := first.(qos := p.granted);
        }
        assert e[id][0].ids + [] == e[id][0].ids;
        assert first == Merged(e[id][0], p);
        r := e[id := e[id][0 := first]];
        assert r[id] == [first] + e[id][1..];
      } else if !p.ops.NL() || id != pub {
        hub.held := hub.held + multiset{id};
        r := e[id := [Acquired(id, p)]];
      }
    }

    /** One node's subscribers, in whatever order the map yields them. */
    method GetSubscribers(n: Node, pub: SubscriberId, e: Entries) returns (r: Entries)
      requires NoEmpty(e) && Shape() && n.path in at && at[n.path] == n
      modifies hub`held
      ensures Walked(old(hub.held), e, hub.held, r, [Levels(n.path)], pub)
    {
      r := e;
      var todo := n.subs.Keys;
      while todo != {}
        invariant todo <= n.subs.Keys && NoEmpty(r) && Counted(old(hub.held), e, hub.held, r)
        invariant forall id <- todo :: Lookup(r, id) == Lookup(e, id)
        invariant forall id | id !in todo ::
                    Lookup(r, id) == AbsorbFrom(allowOverlapping, n.subs, Lookup(e, id), id, pub)
      {
        var id :| id in todo;
        if allowOverlapping {
          r := OverlappingSubscriber(id, n.subs[id], pub, r);
        } else {
          r := NonOverlappingSubscriber(id, n.subs[id], pub, r);
        }
        todo := todo - {id};
      }
      AbsAt(Levels(n.path));
      forall id ensures WalkedFor(old(hub.held), e, hub.held, r, [Levels(n.path)], pub, id) {
        GatherOne(allowOverlapping, Abs(), Lookup(e, id), Levels(n.path), id, pub);
      }
    }

    lemma ChildName(n: Node, l: Level)
      requires Shape() && n.path in at && at[n.path] == n
      ensures l in n.children <==> Levels(n.path) + [l] in Names()
      ensures l in n.children ==> Below(n.path, l) in at && n.children[l] == at[Below(n.path, l)]
      ensures Levels(Below(n.path, l)) == Levels(n.path) + [l]
    {
      assert NodeOk(n.path);
      assert Below(n.path, l) in at ==> NodeOk(Below(n.path, l));
      AbsAt(Levels(Below(n.path, l)));
    }

    /** What the search did for one subscriber by visiting `visits`: one hold per new entry. */
    ghost predicate WalkedFor(h0: multiset<SubscriberId>, e: Entries, h1: multiset<SubscriberId>, r: Entries,
                              visits: seq<Path>, pub: SubscriberId, id: SubscriberId)
      requires Covered()
      reads this, nodes
    {
      && h1[id] + |Lookup(e, id)| == h0[id] + |Lookup(r, id)|
      && Lookup(r, id) == Gather(allowOverlapping, Abs(), Lookup(e, id), visits, id, pub)
    }

    ghost predicate Walked(h0: multiset<SubscriberId>, e: Entries, h1: multiset<SubscriberId>, r: Entries,
                           visits: seq<Path>, pub: SubscriberId)
      requires Covered()
      reads this, nodes
    {
      NoEmpty(r) && forall id {:trigger WalkedFor(h0, e, h1, r, visits, pub, id)} :: WalkedFor(h0, e, h1, r, visits, pub, id)
    }

    lemma WalkedConcat(h0: multiset<SubscriberId>, e: Entries, h1: multiset<SubscriberId>, m: Entries,
                       h2: multiset<SubscriberId>, r: Entries, a: seq<Path>, b: seq<Path>, pub: SubscriberId)
      requires Covered() && Walked(h0, e, h1, m, a, pub) && Walked(h1, m, h2, r, b, pub)
      ensures Walked(h0, e, h2, r, a + b, pub)
    {
      forall id ensures WalkedFor(h0, e, h2, r, a + b, pub, id) {
        assert WalkedFor(h0, e, h1, m, a, pub, id) && WalkedFor(h1, m, h2, r, b, pub, id);
        GatherConcat(allowOverlapping, Abs(), Lookup(e, id), a, b, id, pub);
      }
    }

    lemma WalkedNothing(h: multiset<SubscriberId>, e: Entries, pub: SubscriberId)
      requires Covered() && NoEmpty(e)
      ensures Walked(h, e, h, e, [], pub)
    {
    }

    method GetChild(n: Node, l: Level, pub: SubscriberId, e: Entries) returns (r: Entries)
      requires NoEmpty(e) && Shape() && n.path in at && at[n.path] == n
      modifies hub`held
      ensures Walked(old(hub.held), e, hub.held, r, Here(Names(), Levels(n.path) + [l]), pub)
    {
      ChildName(n, l);
      r := e;
      if l in n.children {
        r := GetSubscribers(n.children[l], pub, e);
      }
    }

    method SubscriptionRecurseSearch(n: Node, levels: Path, pub: SubscriberId, e: Entries) returns (r: Entries)
      requires NoEmpty(e) && Shape() && n.path in at && at[n.path] == n
      modifies hub`held
      ensures Walked(old(hub.held), e, hub.held, r, Visits(Names(), Levels(n.path), levels), pub)
      decreases |levels|, 0
    {
      ghost var p, h0 := Levels(n.path), hub.held;
      if levels == [] {
        var m := GetSubscribers(n, pub, e);
        ghost var h1 := hub.held;
        r := GetChild(n, MWC, pub, m);
        WalkedConcat(h0, e, h1, m, hub.held, r, [p], Here(Names(), p + [MWC]), pub);
      } else {
        var a := e;
        if levels[0] != "" {
          a := GetChild(n, MWC, pub, e);
        }
        ghost var h1 := hub.held;
        var b := RecurseChild(n, levels[0], levels[1..], pub, a);
        ghost var h2 := hub.held;
        r := RecurseChild(n, SWC, levels[1..], pub, b);
        ghost var va := if levels[0] != "" then Here(Names(), p + [MWC]) else [];
        ghost var vb := if p + [levels[0]] in Names() then Visits(Names(), p + [levels[0]], levels[1..]) else [];
        ghost var vc := if p + [SWC] in Names() then Visits(Names(), p + [SWC], levels[1..]) else [];
        WalkedConcat(h0, e, h1, a, h2, b, va, vb, pub);
        WalkedConcat(h0, e, h2, b, hub.held, r, va + vb, vc, pub);
      }
    }

    method RecurseChild(n: Node, l: Level, rest: Path, pub: SubscriberId, e: Entries) returns (r: Entries)
      requires NoEmpty(e) && Shape() && n.path in at && at[n.path] == n
      modifies hub`held
      ensures var q := Levels(n.path) + [l];
              Walked(old(hub.held), e, hub.held, r, if q in Names() then Visits(Names(), q, rest) else [], pub)
      decreases |rest|, 1
    {
      ChildName(n, l);
      r := e;
      if l in n.children {
        r := SubscriptionRecurseSearch(n.children[l], rest, pub, e);
      }
    }

    method SubscriptionSearch(topic: string, pub: SubscriberId) returns (r: Entries)
      requires Shape()
      modifies hub`held
      ensures Walked(old(hub.held), map[], hub.held, r, Search(Names(), Split(topic)), pub)
    {
      hide Visits, Walked, Split, PrefixClosed;
      var levels := Split(topic);
      var level := levels[0];
      if !(level != "" && level[0] == '$') {
        r := SubscriptionRecurseSearch(root, levels, pub, map[]);
      } else {
        ChildName(root, level);
        r := map[];
        WalkedNothing(hub.held, r, pub);
        if level in root.children {
          r := SubscriptionRecurseSearch(root.children[level], levels[1..], pub, map[]);
        }
      }
    }

    // ---------------------------------------------------------------- publishing

    method Deliver(es: seq<Entry>, m: Message, id: SubscriberId)
      requires hub.held[id] >= |es|
      modifies hub
      ensures hub.delivered == old(hub.delivered) + Deliveries(es, m)
      ensures hub.held == old(hub.held)[id := old(hub.held)[id] - |es|]
    {
      for i := 0 to |es|
        invariant hub.delivered == old(hub.delivered) + Deliveries(es[..i], m)
        invariant hub.held == old(hub.held)[id := old(hub.held)[id] - i]
      {
        hub.delivered := hub.delivered + [Delivery(es[i], m)];
        assert Deliveries(es[..i], m) + [Delivery(es[i], m)] == Deliveries(es[..i + 1], m);
        hub.held := hub.held - multiset{id};
      }
      assert es[..|es|] == es;
    }

    /** What has been collected for `id` is still to be handed over, or has been and was let go again. */
    ghost predicate Progress(r: Entries, d: seq<Delivery>, h0: multiset<SubscriberId>, h1: multiset<SubscriberId>,
                             todo: set<SubscriberId>, id: SubscriberId) {
      if id in todo then To(d, id) == [] && h1[id] == h0[id] + |Lookup(r, id)|
      else To(d, id) == Lookup(r, id) && h1[id] == h0[id]
    }

    lemma ProgressStep(r: Entries, d: seq<Delivery>, h0: multiset<SubscriberId>, h1: multiset<SubscriberId>,
                       todo: set<SubscriberId>, id: SubscriberId, m: Message, j: SubscriberId)
      requires id in todo && id in r && forall e <- r[id] :: e.sub == id
      requires Progress(r, d, h0, h1, todo, id) && Progress(r, d, h0, h1, todo, j)
      ensures Progress(r, d + Deliveries(r[id], m), h0, h1[id := h1[id] - |r[id]|], todo - {id}, j)
    {
      ToConcat(d, Deliveries(r[id], m), j);
      ToDeliveries(r[id], m, id, j);
    }

    method DeliverEntries(r: Entries, m: Message, ghost h0: multiset<SubscriberId>) returns (ghost d: seq<Delivery>)
      requires forall id <- r :: forall e <- r[id] :: e.sub == id
      requires forall id :: hub.held[id] == h0[id] + |Lookup(r, id)|
      modifies hub
      ensures hub.held == h0 && hub.delivered == old(hub.delivered) + d
      ensures forall id :: To(d, id) == Lookup(r, id)
      ensures forall x <- d :: x.msg == m
    {
      d := [];
      var todo := r.Keys;
      while todo != {}
        invariant todo <= r.Keys && hub.delivered == old(hub.delivered) + d
        invariant forall id {:trigger Progress(r, d, h0, hub.held, todo, id)} :: Progress(r, d, h0, hub.held, todo, id)
        invariant forall x <- d :: x.msg == m
      {
        var id :| id in todo;
        ghost var h := hub.held;
        assert Progress(r, d, h0, h, todo, id);
        Deliver(r[id], m, id);
        forall j ensures Progress(r, d + Deliveries(r[id], m), h0, hub.held, todo - {id}, j) {
          assert Progress(r, d, h0, h, todo, j);
          ProgressStep(r, d, h0, h, todo, id, m, j);
        }
        d := d + Deliveries(r[id], m);
        todo := todo - {id};
      }
      forall id ensures To(d, id) == Lookup(r, id) && hub.held[id] == h0[id] {
        assert Progress(r, d, h0, hub.held, todo, id);
      }
    }

    /** `d` holds for `id` what the flat table prescribes. */
    ghost predicate Answered(d: seq<Delivery>, t: Path, pub: SubscriberId, id: SubscriberId)
      requires Covered() && t != []
      reads this, nodes
    {
      To(d, id) == Gather(allowOverlapping, Abs(), [], Order(Abs(), t, id), id, pub)
    }

    lemma NamesClosed()
      requires Shape()
      ensures PrefixClosed(Names()) && [] in Names() && Abs().subs.Keys <= Names()
    {
      forall f <- Names() | f != [] ensures f[..|f| - 1] in Names() {
        AbsAt(f);
        assert NodeOk(TrailOf(f));
        AbsAt(f[..|f| - 1]);
      }
      AbsAt([]);
    }

    /** A publish hands every subscriber exactly what the flat table prescribes for it, which is what it owes
        by the options byte and the client alone, and calls Release on a subscriber as often as it called
        Acquire. */
    method Publish(m: Message, pub: SubscriberId) returns (ghost d: seq<Delivery>)
      requires Valid() && ValidTopic(m.topic)
      modifies hub
      ensures hub.held == old(hub.held) && hub.delivered == old(hub.delivered) + d
      ensures forall id :: Answered(d, Split(m.topic), pub, id)
      ensures forall id :: Owed(allowOverlapping, Abs(), Split(m.topic), id, pub, To(d, id))
      ensures forall x <- d :: x.msg == m
    {
      hide Gather, Search, To, Enumerates, Names, Abs, Shape, WildcardFree, PrefixClosed, Order, Holding, Owed, Ascending;
      ghost var h0, v := hub.held, Search(Names(), Split(m.topic));
      var r := SubscriptionSearch(m.topic, pub);
      forall id ensures hub.held[id] == h0[id] + |Lookup(r, id)| && forall e <- Lookup(r, id) :: e.sub == id {
        assert WalkedFor(h0, map[], hub.held, r, v, pub, id);
        GatherOwner(allowOverlapping, Abs(), [], v, id, pub);
      }
      assert forall id <- r :: r[id] == Lookup(r, id);
      ghost var h1 := hub.held;
      d := DeliverEntries(r, m, h0);
      NamesClosed();
      ValidTopicIsWildcardFree(m.topic);
      forall id ensures Answered(d, Split(m.topic), pub, id) && Owed(allowOverlapping, Abs(), Split(m.topic), id, pub, To(d, id)) {
        assert WalkedFor(h0, map[], h1, r, v, pub, id);
        SearchAnswers(allowOverlapping, Abs(), Names(), Split(m.topic), id, pub);
        OrderAscends(Abs(), Split(m.topic), id);
        GatheredIsOwed(allowOverlapping, Abs(), Split(m.topic), Order(Abs(), Split(m.topic), id), id, pub);
      }
    }

    // ---------------------------------------------------------------- retained search

    method GetRetained(n: Node, now: nat, acc: seq<Message>) returns (r: seq<Message>)
      requires Valid() && n.path in at && at[n.path] == n
      modifies n`retained
      ensures Valid() && Swept(old(Abs()), Abs(), acc, r, [Levels(n.path)], now)
    {
      hide Expired, Levels;
      ghost var s, p := Abs(), Levels(n.path);
      AbsAgrees();
      assert Agrees(s, p);
      assert n.retained == if p in s.retained then Some(s.retained[p]) else None;
      hide Swept;
      r := acc;
      if n.retained.Some? && !Expired(n.retained.value, now) {
        r := r + [n.retained.value];
      } else if n.retained.Some? {
        PutRetained(n, None);
      }
      SweptOne(s, Abs(), acc, r, p, now);
    }

    /** `f` lies at or below `p`, but not below a child in `todo`. */
    ghost predicate Listable(p: Path, todo: set<Level>, f: Path)
      reads this
    {
      f in Names() && p <= f && (|f| > |p| ==> f[|p|] !in todo)
    }

    /** `seen` lists, once each, the nodes at or below `p` that are not below a child in `todo`. */
    ghost predicate Listed(seen: seq<Path>, p: Path, todo: set<Level>)
      reads this
    {
      NoDup(seen) && forall f {:trigger Listable(p, todo, f)} :: f in seen <==> Listable(p, todo, f)
    }

    ghost function Under(p: Path): set<Path>
      reads this
    {
      set f | f in Names() && p <= f
    }

    lemma ChildOfPrefix(n: Node, f: Path)
      requires Shape() && n.path in at && at[n.path] == n
      requires f in Names() && Levels(n.path) <= f && |f| > |Levels(n.path)|
      ensures f[|Levels(n.path)|] in n.children
    {
      hide Levels, Names, PrefixClosed, Shape, Abs;
      var p := Levels(n.path);
      NamesClosed();
      assert p + [f[|p|]] <= f;
      PrefixOf(Names(), p + [f[|p|]], f);
      ChildName(n, f[|p|]);
    }

    lemma ListedStart(n: Node)
      requires Shape() && n.path in at && at[n.path] == n
      ensures Listed([Levels(n.path)], Levels(n.path), n.children.Keys)
    {
      var p := Levels(n.path);
      AbsAt(p);
      forall f ensures f in [p] <==> Listable(p, n.children.Keys, f) {
        if f in Names() && p <= f {
          if |f| > |p| { ChildOfPrefix(n, f); } else { assert f == p; }
        }
      }
    }

    lemma UnderShrinks(p: Path, l: Level)
      requires p in Names()
      ensures Under(p + [l]) < Under(p)
    {
      assert p in Under(p) && p !in Under(p + [l]);
    }

    lemma ListedExtend(seen: seq<Path>, p: Path, l: Level, below: seq<Path>, todo: set<Level>)
      requires Listed(seen, p, todo) && l in todo && Listed(below, p + [l], {})
      ensures Listed(seen + below, p, todo - {l})
    {
      forall f ensures f in seen + below <==> Listable(p, todo - {l}, f) && (f in seen ==> f !in below) {
        assert f in seen + below <==> f in seen || f in below;
        assert f in seen <==> Listable(p, todo, f);
        assert f in below <==> Listable(p + [l], {}, f);
        assert p + [l] <= f <==> p <= f && |f| > |p| && f[|p|] == l;
      }
      NoDupConcat(seen, below);
    }

    method AllRetained(n: Node, now: nat, acc: seq<Message>) returns (r: seq<Message>, ghost seen: seq<Path>)
      requires Valid() && n.path in at && at[n.path] == n
      modifies nodes`retained
      ensures Valid() && Swept(old(Abs()), Abs(), acc, r, seen, now)
      ensures Listed(seen, Levels(n.path), {})
      decreases Under(Levels(n.path))
    {
      ghost var s0, p := Abs(), Levels(n.path);
      ListedStart(n);
      AbsAt(p);
      r := GetRetained(n, now, acc);
      seen := [p];
      var todo := n.children.Keys;
      while todo != {}
        invariant Valid() && todo <= n.children.Keys
        invariant Swept(s0, Abs(), acc, r, seen, now) && Listed(seen, p, todo)
      {
        var l :| l in todo;
        ChildName(n, l);
        UnderShrinks(p, l);
        ghost var s1, r1 := Abs(), r;
        ghost var below;
        r, below := AllRetained(n.children[l], now, r);
        SweptConcat(s0, s1, Abs(), acc, r1, r, seen, below, now);
        ListedExtend(seen, p, l, below, todo);
        seen := seen + below;
        todo := todo - {l};
      }
    }

    ghost predicate Hit(p: Path, levels: Path, f: Path)
      reads this
    {
      f in Names() && p <= f && WalkHits(levels, f[|p|..])
    }

    /** `seen` lists, once each, the nodes that `levels` reaches from `p`. */
    ghost predicate Hits(seen: seq<Path>, p: Path, levels: Path)
      reads this
    {
      NoDup(seen) && forall f {:trigger Hit(p, levels, f)} :: f in seen <==> Hit(p, levels, f)
    }

    /** `seen` lists, once each, the nodes that `levels` reaches from the children of `p` not in `todo`. */
    ghost predicate HitsBelow(seen: seq<Path>, p: Path, levels: Path, todo: set<Level>)
      reads this
    {
      && NoDup(seen)
      && forall f {:trigger Listable(p, todo, f)} ::
           f in seen <==> Listable(p, todo, f) && |f| > |p| && WalkHits(levels, f[|p| + 1..])
    }

    lemma HitsBelowStart(n: Node, levels: Path)
      requires Shape() && n.path in at && at[n.path] == n
      ensures HitsBelow([], Levels(n.path), levels, n.children.Keys)
    {
      var p := Levels(n.path);
      forall f ensures !(Listable(p, n.children.Keys, f) && |f| > |p|) {
        if f in Names() && p <= f && |f| > |p| { ChildOfPrefix(n, f); }
      }
    }

    lemma HitsBelowExtend(seen: seq<Path>, p: Path, levels: Path, l: Level, below: seq<Path>, todo: set<Level>)
      requires HitsBelow(seen, p, levels, todo) && l in todo && Hits(below, p + [l], levels)
      ensures HitsBelow(seen + below, p, levels, todo - {l})
    {
      forall f
        ensures f in seen + below <==> Listable(p, todo - {l}, f) && |f| > |p| && WalkHits(levels, f[|p| + 1..])
        ensures f in seen ==> f !in below
      {
        assert f in seen + below <==> f in seen || f in below;
        assert f in below <==> Hit(p + [l], levels, f);
        assert Listable(p, todo - {l}, f) <==> Listable(p, todo, f) || (f in Names() && p + [l] <= f);
        assert p + [l] <= f <==> p <= f && |f| > |p| && f[|p|] == l;
      }
      NoDupConcat(seen, below);
    }

    lemma HitsPlus(seen: seq<Path>, p: Path, levels: Path)
      requires levels != [] && levels[0] == SWC && HitsBelow(seen, p, levels[1..], {})
      ensures Hits(seen, p, levels)
    {
      forall f ensures f in seen <==> Hit(p, levels, f) {
        assert f in seen <==> Listable(p, {}, f) && |f| > |p| && WalkHits(levels[1..], f[|p| + 1..]);
        assert |f| > |p| ==> f[|p|..][1..] == f[|p| + 1..];
      }
    }

    lemma HitsLiteral(n: Node, levels: Path, seen: seq<Path>)
      requires Shape() && n.path in at && at[n.path] == n
      requires levels != [] && levels[0] != MWC && levels[0] != SWC
      requires levels[0] in n.children ==> Hits(seen, Levels(n.path) + [levels[0]], levels[1..])
      requires levels[0] !in n.children ==> seen == []
      ensures Hits(seen, Levels(n.path), levels)
    {
      hide Levels, Names, Shape;
      var p, l := Levels(n.path), levels[0];
      forall f ensures f in seen <==> Hit(p, levels, f) {
        if f in Names() && p <= f && |f| > |p| { ChildOfPrefix(n, f); }
        assert p + [l] <= f <==> p <= f && |f| > |p| && f[|p|] == l;
        assert |f| > |p| ==> f[|p|..][1..] == f[|p| + 1..];
        assert l in n.children ==> (f in seen <==> Hit(p + [l], levels[1..], f));
      }
    }

    lemma HitsEnd(n: Node, below: seq<Path>)
      requires Shape() && n.path in at && at[n.path] == n
      requires MWC in n.children ==> Listed(below, Levels(n.path) + [MWC], {})
      requires MWC !in n.children ==> below == []
      ensures Hits([Levels(n.path)] + below, Levels(n.path), [])
    {
      hide Levels, Names, Shape, Abs, Hit;
      var p := Levels(n.path);
      forall f ensures f in [p] + below <==> Hit(p, [], f) {
        assert f in [p] + below <==> f == p || f in below;
        EndHit(n, below, f);
      }
      EndHit(n, below, p);
      assert p !in below && NoDup([p] + below);
    }

    lemma EndHit(n: Node, below: seq<Path>, f: Path)
      requires Shape() && n.path in at && at[n.path] == n
      requires MWC in n.children ==> Listed(below, Levels(n.path) + [MWC], {})
      requires MWC !in n.children ==> below == []
      ensures Hit(Levels(n.path), [], f) <==> f == Levels(n.path) || f in below
      ensures Levels(n.path) !in below
    {
      var p := Levels(n.path);
      AbsAt(p);
      hide Levels, Names, Shape, Abs;
      assert p <= f ==> (f[|p|..] == [] <==> f == p) && (|f| > |p| ==> f[|p|..][0] == f[|p|]);
      assert p + [MWC] <= f <==> p <= f && |f| > |p| && f[|p|] == MWC;
      if f in Names() && p <= f && |f| > |p| { ChildOfPrefix(n, f); }
      if MWC in n.children {
        assert f in below <==> Listable(p + [MWC], {}, f);
        assert p in below <==> Listable(p + [MWC], {}, p);
      }
    }

    lemma HitsAll(seen: seq<Path>, p: Path, levels: Path)
      requires levels != [] && levels[0] == MWC && Listed(seen, p, {})
      ensures Hits(seen, p, levels)
    {
      forall f ensures f in seen <==> Hit(p, levels, f) {
        assert f in seen <==> Listable(p, {}, f);
      }
    }

    method RetainRecurseSearch(n: Node, levels: Path, now: nat, acc: seq<Message>) returns (r: seq<Message>, ghost seen: seq<Path>)
      requires Valid() && n.path in at && at[n.path] == n
      modifies nodes`retained
      ensures Valid() && Swept(old(Abs()), Abs(), acc, r, seen, now)
      ensures Hits(seen, Levels(n.path), levels)
      decreases |levels|, 0
    {
      ghost var s0, p := Abs(), Levels(n.path);
      ghost var below := [];
      r := acc;
      if levels == [] {
        r := GetRetained(n, now, r);
        ChildName(n, MWC);
        seen := [p];
        if MWC in n.children {
          ghost var s1, r1 := Abs(), r;
          r, below := AllRetained(n.children[MWC], now, r);
          SweptConcat(s0, s1, Abs(), acc, r1, r, seen, below, now);
        }
        HitsEnd(n, below);
        assert below == [] ==> seen + below == seen;
        seen := seen + below;
      } else if levels[0] == MWC {
        r, seen := AllRetained(n, now, r);
        HitsAll(seen, p, levels);
      } else if levels[0] == SWC {
        r, seen := RetainChildren(n, levels[1..], now, r);
        HitsPlus(seen, p, levels);
      } else {
        ChildName(n, levels[0]);
        seen := [];
        SweptNothing(s0, r, now);
        if levels[0] in n.children {
          r, seen := RetainRecurseSearch(n.children[levels[0]], levels[1..], now, r);
        }
        HitsLiteral(n, levels, seen);
      }
    }

    lemma SweptNothing(s: Flat, acc: seq<Message>, now: nat)
      ensures Swept(s, s, acc, acc, [], now)
    {
      assert Sweep(s.retained, [], now) == s.retained;
    }

    method RetainChildren(n: Node, levels: Path, now: nat, acc: seq<Message>) returns (r: seq<Message>, ghost seen: seq<Path>)
      requires Valid() && n.path in at && at[n.path] == n
      modifies nodes`retained
      ensures Valid() && Swept(old(Abs()), Abs(), acc, r, seen, now)
      ensures HitsBelow(seen, Levels(n.path), levels, {})
      decreases |levels|, 1
    {
      ghost var s0, p := Abs(), Levels(n.path);
      r, seen := acc, [];
      SweptNothing(s0, r, now);
      HitsBelowStart(n, levels);
      var todo := n.children.Keys;
      while todo != {}
        invariant Valid() && todo <= n.children.Keys
        invariant Swept(s0, Abs(), acc, r, seen, now) && HitsBelow(seen, p, levels, todo)
      {
        var l :| l in todo;
        ChildName(n, l);
        ghost var s1, r1 := Abs(), r;
        ghost var below;
        r, below := RetainRecurseSearch(n.children[l], levels, now, r);
        SweptConcat(s0, s1, Abs(), acc, r1, r, seen, below, now);
        HitsBelowExtend(seen, p, levels, l, below, todo);
        seen := seen + below;
        todo := todo - {l};
      }
    }

    /** `seen` lists, once each, the nodes below those children of the root, not in `todo`, that a
        leading `#` covers. */
    ghost predicate RootHits(seen: seq<Path>, todo: set<Level>)
      reads this
    {
      && NoDup(seen)
      && forall f {:trigger Listable([], todo, f)} ::
           f in seen <==> Listable([], todo, f) && f != [] && f[0] != "" && !Dollar(f[0])
    }

    lemma RootHitsExtend(seen: seq<Path>, l: Level, below: seq<Path>, todo: set<Level>)
      requires RootHits(seen, todo) && l in todo
      requires if l != "" && !Dollar(l) then Listed(below, [l], {}) else below == []
      ensures RootHits(seen + below, todo - {l})
    {
      forall f
        ensures f in seen + below <==> Listable([], todo - {l}, f) && f != [] && f[0] != "" && !Dollar(f[0])
        ensures f in seen ==> f !in below
      {
        assert f in seen + below <==> f in seen || f in below;
        assert l != "" && !Dollar(l) ==> (f in below <==> Listable([l], {}, f));
        assert [l] <= f <==> f != [] && f[0] == l;
        assert Listable([], todo - {l}, f) <==> Listable([], todo, f) || (f in Names() && [l] <= f);
      }
      NoDupConcat(seen, below);
    }

    lemma RootHitsStart()
      requires Valid()
      ensures RootHits([], root.children.Keys)
    {
      forall f | Listable([], root.children.Keys, f) && f != [] ensures false { ChildOfPrefix(root, f); }
    }

    method RetainAll(now: nat) returns (r: seq<Message>, ghost seen: seq<Path>)
      requires Valid()
      modifies nodes`retained
      ensures Valid() && Swept(old(Abs()), Abs(), [], r, seen, now)
      ensures RootHits(seen, {})
    {
      hide Swept, RootHits, Abs, Listable;
      ghost var s0 := Abs();
      r, seen := [], [];
      SweptNothing(s0, r, now);
      RootHitsStart();
      var todo := root.children.Keys;
      while todo != {}
        invariant Valid() && todo <= root.children.Keys
        invariant Swept(s0, Abs(), [], r, seen, now) && RootHits(seen, todo)
      {
        var l :| l in todo;
        ChildName(root, l);
        ghost var s1, r1 := Abs(), r;
        ghost var below := [];
        if l != "" && !(l != "" && l[0] == '$') {
          r, below := AllRetained(root.children[l], now, r);
        } else {
          SweptNothing(s1, r, now);
        }
        SweptConcat(s0, s1, Abs(), [], r1, r, seen, below, now);
        assert [] + [l] == [l];
        RootHitsExtend(seen, l, below, todo);
        seen := seen + below;
        todo := todo - {l};
      }
    }

    /** Among topics that have a node, a search reaches the ones that match. */
    lemma SeenIsMatching(f: Path, seen: seq<Path>, topics: set<Path>)
      requires f != [] && topics <= Names() && forall t <- topics :: WildcardFree(t)
      requires if f[0] == MWC then RootHits(seen, {}) else Hits(seen, [], f)
      ensures NoDup(seen) && forall t <- topics :: t in seen <==> RetainedMatch(f, t)
    {
      forall t <- topics ensures t in seen <==> RetainedMatch(f, t) {
        assert t[0..] == t;
        if f[0] == MWC {
          assert t in seen <==> Listable([], {}, t) && t != [] && t[0] != "" && !Dollar(t[0]);
        } else {
          assert t in seen <==> Hit([], f, t);
          WalkHitsIsRetainedMatch(f, t);
        }
      }
    }

    /** The node of `t` carries subscribers or children. */
    ghost predicate Anchored(t: Path)
      requires Covered()
      reads this, nodes
    {
      TrailOf(t) in at && (at[TrailOf(t)].subs != map[] || at[TrailOf(t)].children != map[])
    }

    ghost function ExpiredMatches(r: map<Path, Message>, f: Path, now: nat): set<Path> {
      set t | t in r && RetainedMatch(f, t) && Expired(r[t], now)
    }

    /** The three ways into the tree. */
    method RetainEnter(first: Level, rest: Path, now: nat) returns (r: seq<Message>, ghost seen: seq<Path>)
      requires Valid()
      modifies nodes`retained
      ensures Valid() && Swept(old(Abs()), Abs(), [], r, seen, now)
      ensures if first == MWC then RootHits(seen, {}) else Hits(seen, [], [first] + rest)
    {
      hide Swept, RootHits, Hits, Abs;
      if first == MWC {
        r, seen := RetainAll(now);
      } else if first != "" && first[0] == '$' && first in root.children {
        ChildName(root, first);
        r, seen := RetainRecurseSearch(root.children[first], rest, now, []);
        EnteredBelow(first, rest, seen);
      } else {
        r, seen := RetainRecurseSearch(root, [first] + rest, now, []);
      }
    }

    lemma EnteredBelow(first: Level, rest: Path, seen: seq<Path>)
      requires Valid() && first in root.children && first != "" && first[0] == '$' && Hits(seen, [first], rest)
      ensures Hits(seen, [], [first] + rest)
    {
      hide Hits, Abs;
      var levels := [first] + rest;
      assert levels[0] == first && levels[1..] == rest && [] + [first] == [first];
      HitsLiteral(root, levels, seen);
    }

    method RetainWalk(levels: Path, now: nat) returns (r: seq<Message>, ghost ts: seq<Path>)
      requires Valid() && levels != []
      modifies nodes`retained
      ensures Valid() && RetainedAnswer(old(Abs()).retained, levels, now, r, ts)
      ensures Abs() == old(Abs()).(retained := SweepMatching(old(Abs()).retained, levels, now))
    {
      hide RetainedAnswer, RootHits, Hits, RetainedMatch;
      ghost var seen, s0 := [], Abs();
      AbsAgrees();
      assert s0.retained.Keys <= Names();
      assert levels == [levels[0]] + levels[1..];
      r, seen := RetainEnter(levels[0], levels[1..], now);
      SeenIsMatching(levels, seen, s0.retained.Keys);
      ts := RetainedAnswerOf(s0.retained, levels, now, seen);
      ghost var found := Alive(s0.retained, seen, now);
      assert r == [] + found == found;
    }

    /** A search for retained messages returns each unexpired match once and drops the expired matches;
        it changes nothing else. It leaves an empty node behind exactly where an expired match had no
        subscribers and no children: the search does not prune. */
    method RetainSearch(filter: string, now: nat) returns (r: seq<Message>, ghost ts: seq<Path>)
      requires Valid()
      modifies nodes`retained
      ensures Valid() && RetainedAnswer(old(Abs()).retained, Split(filter), now, r, ts)
      ensures Abs() == old(Abs()).(retained := SweepMatching(old(Abs()).retained, Split(filter), now))
      ensures Searched(old(Abs()).retained, Split(filter), now, ts, Abs().retained)
      ensures old(Pruned()) ==>
                (Pruned() <==> forall t <- ExpiredMatches(old(Abs()).retained, Split(filter), now) :: t != [] ==> Anchored(t))
    {
      hide RetainedAnswer, RetainedMatch, Expired, Split, Searched;
      ghost var s0, gone := Abs(), ExpiredMatches(Abs().retained, Split(filter), now);
      AbsAgrees();
      r, ts := RetainWalk(Split(filter), now);
      SweptByClock(s0.retained, Split(filter), now, r, ts);
      AbsAgrees();
      forall p <- at ensures at[p].retained == if Levels(p) in gone then None else old(at[p].retained) {
        assert Agrees(Abs(), Levels(p)) && old(Agrees(s0, Levels(p)));
      }
      forall t <- gone | Pruned() && t != [] ensures Anchored(t) {
        LevelsOfTrail(t);
        assert old(Agrees(s0, t));
        assert !Empty(at[TrailOf(t)]);
      }
      if old(Pruned()) && forall t <- gone :: t != [] ==> Anchored(t) {
        forall p <- at | p.Below? ensures !Empty(at[p]) {
          assert old(!Empty(at[p])) && Levels(p) != [];
        }
      }
    }

    // ---------------------------------------------------------------- the nodes of the tree

    lemma ContentBelow(f: Path) returns (g: Path)
      requires Shape() && Pruned() && f in Names() && f != []
      ensures f <= g && (g in Abs().subs || g in Abs().retained)
      decreases Under(f)
    {
      AbsAt(f);
      var n := at[TrailOf(f)];
      LevelsOfTrail(f);
      if n.subs != map[] || n.retained != None {
        g := f;
      } else {
        assert !Empty(n);
        var l :| l in n.children;
        ChildName(n, l);
        UnderShrinks(f, l);
        g := ContentBelow(f + [l]);
      }
    }

    /** The tree has a node for the root and for every prefix of a filter in use or a topic with a
        retained message, and for nothing else. */
    lemma NodesAreThePrefixes(f: Path)
      requires Shape() && Pruned()
      ensures f in Names() <==> f == [] || exists g :: f <= g && (g in Abs().subs || g in Abs().retained)
    {
      NamesClosed();
      if f in Names() && f != [] {
        var g := ContentBelow(f);
      }
      if g :| f <= g && (g in Abs().subs || g in Abs().retained) {
        AbsAt(g);
        PrefixOf(Names(), f, g);
      }
    }

    // ---------------------------------------------------------------- the operations, and runs of them

    method Subscribe(filter: string, id: SubscriberId, params: Params, now: nat)
      returns (granted: nat, r: seq<Message>, ghost ts: seq<Path>)
      requires Valid()
      modifies this`at, this`nodes, nodes`children, nodes`subs, nodes`retained
      ensures Valid() && old(nodes) <= nodes && fresh(nodes - old(nodes))
      ensures granted == params.ops.QoS()
      ensures Abs() == FlatApply(old(Abs()), Op.Subscribe(filter, id, params, now))
      ensures if SendsRetained(params, id in SubsAt(old(Abs()), Split(filter)))
              then RetainedAnswer(old(Abs()).retained, Split(filter), now, r, ts) else r == []
      ensures granted == params.ops.b % 4 && Enrolled(old(Abs()), Abs(), Split(filter), id, params.(granted := params.ops.b % 4))
      ensures if Greeted(params.ops.b, id in SubsAt(old(Abs()), Split(filter)))
              then |r| == |ts| && (forall i | 0 <= i < |ts| :: ts[i] in old(Abs()).retained && r[i] == old(Abs()).retained[ts[i]])
                   && Searched(old(Abs()).retained, Split(filter), now, ts, Abs().retained)
              else r == [] && Abs().retained == old(Abs()).retained
      ensures old(Pruned()) && NoExpiry(old(Abs()).retained) ==> Pruned()
    {
      var p := params.(granted := params.ops.QoS());
      var existed := SubscriptionInsert(filter, id, p);
      r, ts := [], [];
      var rh := p.ops.RetainHandling();
      if rh == 0 || (rh == 1 && !existed) {
        r, ts := RetainSearch(filter, now);
      }
      granted := p.granted;
      SubscribedIsEnrolled(old(Abs()), Split(filter), id, p, Abs().retained);
    }

    method Unsubscribe(filter: string, who: Option<SubscriberId>) returns (found: bool)
      requires Valid()
      modifies this`at, nodes`children, nodes`subs
      ensures Valid() && Abs() == FlatApply(old(Abs()), Op.Unsubscribe(filter, who))
      ensures Dropped(old(Abs()), Abs(), Split(filter), who)
      ensures who.Some? ==> (found <==> who.value in SubsAt(old(Abs()), Split(filter)))
      ensures old(Pruned()) && who.None? ==>
                (found <==> exists g :: Split(filter) <= g && (g in old(Abs()).subs || g in old(Abs()).retained))
      ensures old(Pruned()) ==> Pruned()
    {
      if Pruned() {
        NodesAreThePrefixes(Split(filter));
        AbsAt(Split(filter));
      }
      var cleaned;
      found, cleaned := SubscriptionRemove(filter, who);
      UnsubscribedIsDropped(old(Abs()), Split(filter), who);
    }

    /** Any run of subscribe, unsubscribe and retain leaves the tree standing for what the same run
        makes of two flat maps, with no empty node when no retained message expires. */
    method Run(ops: seq<Op>)
      requires Valid() && forall op <- ops :: op.Retain? ==> ValidTopic(op.msg.topic)
      modifies this`at, this`nodes, nodes`children, nodes`subs, nodes`retained
      ensures Valid() && Abs() == FlatRun(old(Abs()), ops)
      ensures old(Pruned()) && NoExpiry(old(Abs()).retained) && (forall op <- ops :: op.Retain? ==> op.msg.expireAt == 0)
              ==> Pruned() && NoExpiry(Abs().retained)
    {
      hide Pruned, NoExpiry, FlatApply, ValidTopic;
      ghost var calm := Pruned() && NoExpiry(Abs().retained) && forall op <- ops :: op.Retain? ==> op.msg.expireAt == 0;
      for i := 0 to |ops|
        invariant Valid() && old(nodes) <= nodes && fresh(nodes - old(nodes))
        invariant Abs() == FlatRun(old(Abs()), ops[..i])
        invariant calm ==> Pruned() && NoExpiry(Abs().retained)
      {
        assert ops[..i + 1][..i] == ops[..i] && ops[i] in ops;
        Perform(ops[i]);
      }
      assert ops[..|ops|] == ops;
    }

    method Perform(op: Op)
      requires Valid() && (op.Retain? ==> ValidTopic(op.msg.topic))
      modifies this`at, this`nodes, nodes`children, nodes`subs, nodes`retained
      ensures Valid() && Abs() == FlatApply(old(Abs()), op) && old(nodes) <= nodes && fresh(nodes - old(nodes))
      ensures old(Pruned()) && NoExpiry(old(Abs()).retained) && (op.Retain? ==> op.msg.expireAt == 0)
              ==> Pruned() && NoExpiry(Abs().retained)
    {
      if NoExpiry(Abs().retained) && (op.Retain? ==> op.msg.expireAt == 0) { NoExpiryKept(Abs(), op); }
      match op {
        case Subscribe(filter, id, params, now) =>
          var granted, r, ts := Subscribe(filter, id, params, now);
        case Unsubscribe(filter, who) =>
          var found := Unsubscribe(filter, who);
        case Retain(m) =>
          Retain(m);
      }
    }
  }
}
