/**
 * UNS nodes across a change of configuration: which of them survive a
 * per-device replacement and a full rebuild, and when the two agree.
 */
module TreeUns {
  import opened OriginMaps
  import opened TreeShape
  import opened TreeSpec
  import opened TreeFacts
  import opened TreeConfig

  // ---- The kept set ----

  /** Closed under the re-graft rule: everything that may hang from it is in it. */
  ghost predicate RegraftClosed(s: Snap, base: iset<Id>, k: set<Id>) {
    forall c :: IsUns(s, c) && c !in base && (s.objects[c].parentId in base || s.objects[c].parentId in k) ==> c in k
  }

  /** The kept set satisfies the rule with equality and is the least set closed under it. */
  lemma KeptIsLeast(s: Snap, rank: Id -> nat, own: string -> string, base: iset<Id>)
    requires WellFormed(s, rank, own) && Ranked(s, rank)
    ensures var k := KeptSet(s, rank, base);
      && RegraftClosed(s, base, k)
      && (forall c :: c in k ==>
            IsUns(s, c) && c !in base && (s.objects[c].parentId in base || s.objects[c].parentId in k))
      && (forall k': set<Id> :: RegraftClosed(s, base, k') ==> k <= k')
  {
    hide Wf, NodeOk, Ranked;
    var k := KeptSet(s, rank, base);
    forall c | IsUns(s, c) && c !in base && (s.objects[c].parentId in base || s.objects[c].parentId in k)
      ensures c in k
    {
      ParentKnown(s, rank, own, c);
    }
    forall k': set<Id> | RegraftClosed(s, base, k') ensures k <= k' {
      forall c | c in k ensures c in k' {
        KeptInClosed(s, rank, base, k', c);
      }
    }
  }

  lemma {:induction false} KeptInClosed(s: Snap, rank: Id -> nat, base: iset<Id>, k: set<Id>, c: Id)
    requires Ranked(s, rank) && RegraftClosed(s, base, k) && Kept(s, rank, base, c)
    ensures c in k
    decreases rank(c)
  {
    if s.objects[c].parentId !in base {
      KeptInClosed(s, rank, base, k, s.objects[c].parentId);
    }
  }

  /** A child of a UNS node is a UNS node of the same device. */
  lemma UnsChild(s: Snap, rank: Id -> nat, own: string -> string, c: Id)
    requires WellFormed(s, rank, own) && c in s.objects && IsUns(s, s.objects[c].parentId)
    ensures IsUns(s, c) && Owner(own, c).Some? && Owner(own, c) == Owner(own, s.objects[c].parentId)
    ensures !c.Isa? && !IsDevice(own, c) && IsDevice(own, Conf(Owner(own, c).value))
  {
    assert NodeOk(s, own, {}, c);
    assert NodeOk(s, own, {}, s.objects[c].parentId);
  }

  lemma UnsNode(s: Snap, rank: Id -> nat, own: string -> string, c: Id)
    requires WellFormed(s, rank, own) && IsUns(s, c)
    ensures Owner(own, c).Some? && Owner(own, c) == Owner(own, s.objects[c].parentId)
    ensures !c.Isa? && !IsDevice(own, c) && IsDevice(own, Conf(Owner(own, c).value))
    ensures s.objects[c].parentId in s.objects && rank(s.objects[c].parentId) < rank(c)
  {
    assert NodeOk(s, own, {}, c);
  }

  /** What a rebuild copies are UNS nodes of devices that the new tree still has. */
  lemma {:induction false} CarriedNode(s: Snap, rank: Id -> nat, own: string -> string, base: iset<Id>, c: Id, r: Id)
    requires WellFormed(s, rank, own) && Ranked(s, rank)
    requires CarryRoot(s, base, r) && c in s.objects && Below(s, rank, c, r)
    ensures IsUns(s, c) && Owner(own, c) == Owner(own, s.objects[r].parentId)
    decreases rank(c)
  {
    hide Wf, NodeOk;
    if c == r {
      UnsNode(s, rank, own, c);
    } else {
      CarriedNode(s, rank, own, base, s.objects[c].parentId, r);
      UnsChild(s, rank, own, c);
    }
  }

  /** No id strictly below a carried UNS node is used again by the new configuration. */
  ghost predicate NoReuse(s: Snap, rank: Id -> nat, base: iset<Id>)
    requires Ranked(s, rank)
  {
    forall c :: c in Carried(s, rank, base) ==> c !in base
  }

  /** Without such reuse a rebuild keeps what a re-graft keeps. */
  lemma CarriedIsKept(s: Snap, rank: Id -> nat, own: string -> string, base: iset<Id>)
    requires WellFormed(s, rank, own) && Ranked(s, rank)
    ensures KeptSet(s, rank, base) <= Carried(s, rank, base)
    ensures NoReuse(s, rank, base) ==> Carried(s, rank, base) == KeptSet(s, rank, base)
    ensures Carried(s, rank, base) == KeptSet(s, rank, base) ==> NoReuse(s, rank, base)
  {
    hide Wf, NodeOk, Ranked;
    forall c | c in KeptSet(s, rank, base) ensures c in Carried(s, rank, base) {
      KeptIsCarried(s, rank, base, c);
    }
    if NoReuse(s, rank, base) {
      forall c | c in Carried(s, rank, base) ensures Kept(s, rank, base, c) {
        var r :| CarryRoot(s, base, r) && Below(s, rank, c, r);
        CarriedKept(s, rank, own, base, c, r);
      }
    }
  }

  lemma {:induction false} KeptIsCarried(s: Snap, rank: Id -> nat, base: iset<Id>, c: Id)
    requires Ranked(s, rank) && Kept(s, rank, base, c)
    ensures c in Carried(s, rank, base)
    decreases rank(c)
  {
    var p := s.objects[c].parentId;
    if p in base {
      assert CarryRoot(s, base, c) && Below(s, rank, c, c);
    } else {
      KeptIsCarried(s, rank, base, p);
      var r :| CarryRoot(s, base, r) && Below(s, rank, p, r);
      assert Below(s, rank, c, r);
    }
  }

  lemma {:induction false} CarriedKept(s: Snap, rank: Id -> nat, own: string -> string, base: iset<Id>, c: Id, r: Id)
    requires WellFormed(s, rank, own) && Ranked(s, rank) && NoReuse(s, rank, base)
    requires CarryRoot(s, base, r) && c in s.objects && Below(s, rank, c, r)
    ensures Kept(s, rank, base, c)
    decreases rank(c)
  {
    hide Wf, NodeOk;
    assert c in Carried(s, rank, base);
    if c != r {
      CarriedNode(s, rank, own, base, c, r);
      CarriedKept(s, rank, own, base, s.objects[c].parentId, r);
    }
  }

  // ---- A rebuild with copied UNS nodes ----

  ghost function Bound(rank: Id -> nat, ids: set<Id>): (n: nat)
    ensures forall x :: x in ids ==> rank(x) < n
    decreases |ids|
  {
    if ids == {} then 0
    else
      var x :| x in ids;
      var n := Bound(rank, ids - {x});
      if rank(x) < n then n else rank(x) + 1
  }

  function Stack(below: Id -> nat, above: Id -> nat, n: nat, g: set<Id>): Id -> nat {
    (x: Id) => if x in g then above(x) + n else below(x)
  }

  lemma CarriedParent(s: Snap, rank: Id -> nat, base: iset<Id>, c: Id)
    requires Ranked(s, rank) && c in Carried(s, rank, base)
    ensures c in s.objects
    ensures s.objects[c].parentId in base || s.objects[c].parentId in Carried(s, rank, base)
  {
    var r :| CarryRoot(s, base, r) && Below(s, rank, c, r);
    if c != r {
      assert Below(s, rank, s.objects[c].parentId, r);
    }
  }

  lemma CarriedOwner(s: Snap, rank: Id -> nat, own: string -> string, t: Snap, trank: Id -> nat, c: Id)
    requires WellFormed(s, rank, own) && Ranked(s, rank) && WellFormed(t, trank, own)
    requires c in Carried(s, rank, Ids(t))
    ensures IsUns(s, c) && Owner(own, c).Some? && Owner(own, c) == Owner(own, s.objects[c].parentId)
    ensures !c.Isa? && !IsDevice(own, c) && IsDevice(own, Conf(Owner(own, c).value))
    ensures Conf(Owner(own, c).value) in t.objects
  {
    hide Wf, NodeOk, Ranked;
    var r :| CarryRoot(s, Ids(t), r) && Below(s, rank, c, r);
    CarriedNode(s, rank, own, Ids(t), c, r);
    UnsNode(s, rank, own, c);
    OwnerPresent(t, trank, own, Owner(own, c).value, s.objects[r].parentId);
  }

  lemma OverlayNodeOk(s: Snap, rank: Id -> nat, own: string -> string, t: Snap, trank: Id -> nat, w: Snap, c: Id)
    requires WellFormed(s, rank, own) && Ranked(s, rank) && WellFormed(t, trank, own)
    requires Overlaid(t, w, s, Carried(s, rank, Ids(t))) && NoReuse(s, rank, Ids(t))
    requires c in w.objects
    ensures NodeOk(w, own, {}, c)
  {
    hide Wf, Carried, Ranked, NoReuse;
    var g := Carried(s, rank, Ids(t));
    if c in g {
      CarriedOwner(s, rank, own, t, trank, c);
    } else {
      NodeOkAt(t, trank, own, c);
      NotCarried(s, rank, t, t.objects[c].parentId);
      KeysAgree(t, trank, own);
      if Owner(own, c).Some? {
        NotCarried(s, rank, t, Conf(Owner(own, c).value));
      }
      NotCarried(s, rank, t, c);
    }
  }

  lemma NodeOkAt(t: Snap, trank: Id -> nat, own: string -> string, c: Id)
    requires WellFormed(t, trank, own) && c in t.objects
    ensures NodeOk(t, own, {}, c)
    ensures t.objects[c].parentId == Slash || t.objects[c].parentId in t.objects
    ensures Slash !in t.objects
  {
  }

  lemma NotCarried(s: Snap, rank: Id -> nat, t: Snap, c: Id)
    requires Ranked(s, rank) && NoReuse(s, rank, Ids(t))
    ensures c in t.objects ==> c !in Carried(s, rank, Ids(t))
  {
  }

  lemma OverlayLinked(s: Snap, rank: Id -> nat, own: string -> string, t: Snap, trank: Id -> nat, w: Snap)
    requires WellFormed(s, rank, own) && Ranked(s, rank) && WellFormed(t, trank, own)
    requires Overlaid(t, w, s, Carried(s, rank, Ids(t))) && NoReuse(s, rank, Ids(t))
    ensures Linked(w, {})
  {
    hide Wf, NodeOk, Carried, Ranked;
    RankedNow(t, trank, own);
    RankedNow(s, rank, own);
    CarriedApart(s, rank, t);
    OverlayListed(s, t, w, Carried(s, rank, Ids(t)));
  }

  lemma CarriedApart(s: Snap, rank: Id -> nat, t: Snap)
    requires Ranked(s, rank) && NoReuse(s, rank, Ids(t))
    ensures Carried(s, rank, Ids(t)) <= s.objects.Keys && Carried(s, rank, Ids(t)) !! t.objects.Keys
  {
  }

  lemma OverlayListed(s: Snap, t: Snap, w: Snap, g: set<Id>)
    requires Linked(t, {}) && Overlaid(t, w, s, g) && g <= s.objects.Keys && g !! t.objects.Keys
    ensures Linked(w, {})
  {
    forall p, c | c in Kids(w, p) ensures c in w.objects && w.objects[c].parentId == p {
      assert c in Kids(t, p) || (c in g && s.objects[c].parentId == p);
    }
    forall c | c in w.objects ensures c in Kids(w, w.objects[c].parentId) {
      assert c in g || c in Kids(t, t.objects[c].parentId);
    }
  }

  lemma OverlayRanked(s: Snap, rank: Id -> nat, own: string -> string, t: Snap, trank: Id -> nat, w: Snap)
    requires WellFormed(s, rank, own) && Ranked(s, rank) && WellFormed(t, trank, own)
    requires Overlaid(t, w, s, Carried(s, rank, Ids(t))) && NoReuse(s, rank, Ids(t))
    ensures Ranked(w, Stack(trank, rank, Bound(trank, t.objects.Keys), Carried(s, rank, Ids(t))))
  {
    hide Wf, NodeOk, Carried, Ranked, Overlaid, NoReuse;
    var g := Carried(s, rank, Ids(t));
    var rank' := Stack(trank, rank, Bound(trank, t.objects.Keys), g);
    RankedNow(t, trank, own);
    assert Ranked(w, rank') by {
      NoSlash(s, rank, own);
      NoSlash(t, trank, own);
      OverlaidObjects(t, w, s, g);
      forall c | c in w.objects
        ensures var p := w.objects[c].parentId; p == Slash || (p in w.objects && rank'(p) < rank'(c))
      {
        OverlayRankedAt(s, rank, own, t, trank, w, c);
      }
      RankedFrom(w, rank');
    }
  }

  lemma OverlaidObjects(t: Snap, w: Snap, s: Snap, g: set<Id>)
    requires Overlaid(t, w, s, g)
    ensures w.objects.Keys == t.objects.Keys + g * s.objects.Keys
  {
  }

  lemma RankedFrom(s: Snap, rank: Id -> nat)
    requires Slash !in s.objects
    requires forall c :: c in s.objects ==>
      var p := s.objects[c].parentId; p == Slash || (p in s.objects && rank(p) < rank(c))
    ensures Ranked(s, rank)
  {
  }

  lemma OverlayRankedAt(s: Snap, rank: Id -> nat, own: string -> string, t: Snap, trank: Id -> nat, w: Snap, c: Id)
    requires WellFormed(s, rank, own) && Ranked(s, rank) && WellFormed(t, trank, own)
    requires Overlaid(t, w, s, Carried(s, rank, Ids(t))) && NoReuse(s, rank, Ids(t)) && c in w.objects
    ensures var p, rank' :=
      w.objects[c].parentId, Stack(trank, rank, Bound(trank, t.objects.Keys), Carried(s, rank, Ids(t)));
      p == Slash || (p in w.objects && rank'(p) < rank'(c))
  {
    hide Wf, NodeOk, Carried, Ranked;
    if c in Carried(s, rank, Ids(t)) {
      CarriedParent(s, rank, Ids(t), c);
      ParentLower(s, rank, c);
    } else {
      RankedNow(t, trank, own);
      ParentLower(t, trank, c);
    }
  }

  lemma ParentLower(s: Snap, rank: Id -> nat, c: Id)
    requires Ranked(s, rank) && c in s.objects
    ensures var p := s.objects[c].parentId; p == Slash || (p in s.objects && rank(p) < rank(c))
  {
  }

  lemma GraftTidy(t: Snap, w: Snap, s: Snap, g: set<Id>)
    requires Tidy(s) && Tidy(t) && Grafted(t, w, s, g)
    ensures Tidy(w)
  {
  }

  lemma OverlayTidy(s: Snap, rank: Id -> nat, own: string -> string, t: Snap, trank: Id -> nat, w: Snap)
    requires WellFormed(s, rank, own) && Ranked(s, rank) && WellFormed(t, trank, own)
    requires Overlaid(t, w, s, Carried(s, rank, Ids(t)))
    ensures Tidy(w)
  {
    hide NodeOk, Carried, Ranked, Linked, Tidy;
    GraftTidy(t, w, s, Carried(s, rank, Ids(t)));
  }

  /** Without reuse the rebuilt tree is well formed. */
  lemma OverlayWf(s: Snap, rank: Id -> nat, own: string -> string, t: Snap, trank: Id -> nat, w: Snap)
    requires WellFormed(s, rank, own) && Ranked(s, rank) && WellFormed(t, trank, own)
    requires Overlaid(t, w, s, Carried(s, rank, Ids(t))) && NoReuse(s, rank, Ids(t))
    ensures WellFormed(w, Stack(trank, rank, Bound(trank, t.objects.Keys), Carried(s, rank, Ids(t))), own)
  {
    OverlayTidy(s, rank, own, t, trank, w);
    OverlayLinked(s, rank, own, t, trank, w);
    OverlayRanked(s, rank, own, t, trank, w);
    forall c | c in w.objects ensures NodeOk(w, own, {}, c) {
      OverlayNodeOk(s, rank, own, t, trank, w, c);
    }
  }

  /** A reused id gives a node that is listed under two parents. */
  lemma {:induction false} ReusedNode(s: Snap, rank: Id -> nat, base: iset<Id>, c: Id, r: Id) returns (y: Id)
    requires Ranked(s, rank)
    requires CarryRoot(s, base, r) && c in s.objects && Below(s, rank, c, r) && c in base
    ensures y in Carried(s, rank, base) && y in base && y in s.objects
    ensures s.objects[y].parentId !in base && s.objects[y].parentId in s.objects
    decreases rank(c)
  {
    var p := s.objects[c].parentId;
    if p in base {
      y := ReusedNode(s, rank, base, p, r);
    } else {
      y := c;
    }
  }

  lemma ReuseBreaksLinks(s: Snap, rank: Id -> nat, own: string -> string, t: Snap, trank: Id -> nat, w: Snap)
    requires WellFormed(s, rank, own) && Ranked(s, rank) && WellFormed(t, trank, own)
    requires Overlaid(t, w, s, Carried(s, rank, Ids(t))) && !NoReuse(s, rank, Ids(t))
    ensures !Linked(w, {})
  {
    hide Wf, NodeOk, Ranked;
    var c :| c in Carried(s, rank, Ids(t)) && c in Ids(t);
    var r :| CarryRoot(s, Ids(t), r) && Below(s, rank, c, r);
    var y := ReusedNode(s, rank, Ids(t), c, r);
    NodeOkAt(t, trank, own, y);
    RankedNow(t, trank, own);
    NoSlash(s, rank, own);
    var p := t.objects[y].parentId;
    assert y in Kids(t, p);
    assert y in Kids(w, p) && w.objects[y].parentId == s.objects[y].parentId != p;
  }

  lemma NoSlash(s: Snap, rank: Id -> nat, own: string -> string)
    requires WellFormed(s, rank, own)
    ensures Slash !in s.objects
  {
  }

  /** Every node of the tree came from the configuration. */
  ghost predicate AllFromConfig(t: Snap) {
    forall c :: c in t.objects ==> IsConfig(t, c)
  }

  /** Putting UNS nodes beside the configuration nodes does not disturb these. */
  lemma GraftKeepsCfg(t: Snap, w: Snap, s: Snap, g: set<Id>, own: string -> string, ns: string, m: map<string, Device>)
    requires Grafted(t, w, s, g) && ConfigEq(t, own, ns, m)
    requires t.sources.Keys == t.objects.Keys
    requires forall c :: c in g ==> c !in t.objects
    requires forall c :: c in s.metricMeta ==> c in s.objects
    ensures ConfigEq(w, own, ns, m)
  {
    hide DevObjs, DevMeta, OnSomePath;
    forall id ensures CfgAt(w, own, ns, m, id) {
      assert CfgAt(t, own, ns, m, id);
    }
  }

  /** A full rebuild: well formed, and true to its configuration, exactly without reuse. */
  lemma RebuildExact(s: Snap, rank: Id -> nat, own: string -> string, t: Snap, trank: Id -> nat, w: Snap,
                     ns: string, m: map<string, Device>)
    requires WellFormed(s, rank, own) && Ranked(s, rank) && WellFormed(t, trank, own)
    requires AllFromConfig(t) && ConfigEq(t, own, ns, m)
    requires Overlaid(t, w, s, Carried(s, rank, Ids(t)))
    ensures NoReuse(s, rank, Ids(t)) <==> Linked(w, {})
    ensures NoReuse(s, rank, Ids(t)) <==> ConfigEq(w, own, ns, m)
    ensures NoReuse(s, rank, Ids(t)) <==> exists r :: WellFormed(w, r, own)
  {
    hide NodeOk, Carried, Ranked, Linked, DevObjs, DevMeta, OnSomePath, Tidy;
    if NoReuse(s, rank, Ids(t)) {
      OverlayLinked(s, rank, own, t, trank, w);
      OverlayWf(s, rank, own, t, trank, w);
      TidyNow(s, rank, own);
      TidyNow(t, trank, own);
      GraftKeepsCfg(t, w, s, Carried(s, rank, Ids(t)), own, ns, m);
    } else {
      ReuseBreaksLinks(s, rank, own, t, trank, w);
      var c :| c in Carried(s, rank, Ids(t)) && c in Ids(t);
      CarriedParent(s, rank, Ids(t), c);
      assert CfgAt(t, own, ns, m, c);
      assert !IsConfig(w, c);
      assert !CfgAt(w, own, ns, m, c);
    }
  }

  lemma TidyNow(s: Snap, rank: Id -> nat, own: string -> string)
    requires WellFormed(s, rank, own)
    ensures s.sources.Keys == s.objects.Keys && s.metricMeta.Keys <= s.objects.Keys
  {
  }

  // ---- UNS messages ----

  /** `mid` is `s` with the device hung under the given path, or `s` itself if there is no path. */
  ghost predicate Reparented(s: Snap, mid: Snap, d: Id, isa95: seq<string>) {
    if isa95 == [] then mid == s
    else
      && d in s.objects
      && mid.objects == WithPath(s.objects, IsaId(isa95))[d := s.objects[d].(parentId := IsaId(isa95))]
      && mid.metricMeta == s.metricMeta && Grew(s, mid)
  }

  lemma SameParent(s: Snap, d: Id)
    ensures Reparented(s, s, d, [])
  {
  }

  lemma HangsFrom(s: Snap, mid: Snap, d: Id, isa95: seq<string>)
    requires isa95 != [] && d in s.objects
    requires mid.objects == WithPath(s.objects, IsaId(isa95))[d := s.objects[d].(parentId := IsaId(isa95))]
    requires mid.metricMeta == s.metricMeta && Grew(s, mid)
    ensures Reparented(s, mid, d, isa95)
    ensures d in mid.objects
  {
  }

  /** `t` is `s` with UNS nodes of one device added and nothing else changed. */
  ghost predicate UnsGrew(s: Snap, t: Snap, own: string -> string, u: string) {
    && t.objectTypes == s.objectTypes && t.metricMeta == s.metricMeta
    && s.objects.Keys <= t.objects.Keys && s.sources.Keys <= t.sources.Keys
    && t.sources.Keys == t.objects.Keys
    && (forall c :: c in s.objects ==> t.objects[c] == s.objects[c])
    && (forall c :: c in s.sources ==> t.sources[c] == s.sources[c])
    && (forall c :: c in t.sources && c !in s.sources ==> t.sources[c] == Uns)
    && (forall c :: c in t.objects && c !in s.objects ==> OwnedBy(own, u, c))
  }

  lemma UnsGrewNone(s: Snap, rank: Id -> nat, own: string -> string, u: string)
    requires WellFormed(s, rank, own)
    ensures UnsGrew(s, s, own, u)
  {
  }

  lemma UnsGrewInsert(s: Snap, t: Snap, own: string -> string, u: string, o: Obj)
    requires UnsGrew(s, t, own, u) && o.elementId !in t.objects && o.elementId !in t.sources
    requires OwnedBy(own, u, o.elementId)
    ensures UnsGrew(s, Insert(t, o, Uns), own, u)
  {
  }

  lemma ChildOwned(s: Snap, rank: Id -> nat, own: string -> string, u: string, p: Id, c: Id)
    requires WellFormed(s, rank, own) && c in Kids(s, p) && OwnedBy(own, u, p)
    ensures OwnedBy(own, u, c)
  {
    assert c in s.objects && s.objects[c].parentId == p;
    assert NodeOk(s, own, {}, c);
  }

  lemma {:induction false} IsaIdInjective(a: seq<string>, b: seq<string>)
    requires IsaId(a) == IsaId(b)
    ensures a == b
    decreases a
  {
    if a != [] {
      IsaIdInjective(a[..|a|-1], b[..|b|-1]);
      assert a == a[..|a|-1] + [a[|a|-1]] && b == b[..|b|-1] + [b[|b|-1]];
    }
  }

  lemma {:induction false} WithPathThere(objs: map<Id, Obj>, leaf: Id)
    requires forall x :: x in IsaAbove(leaf) ==> x in objs
    ensures WithPath(objs, leaf) == objs
    decreases leaf
  {
    if leaf.Isa? {
      WithPathThere(objs, leaf.up);
    }
  }

  /** New UNS nodes leave the configuration part as it was. */
  lemma UnsKeepsCfg(s: Snap, rank: Id -> nat, t: Snap, own: string -> string, ns: string, m: map<string, Device>, u: string)
    requires WellFormed(s, rank, own) && UnsGrew(s, t, own, u) && ConfigEq(s, own, ns, m)
    ensures ConfigEq(t, own, ns, m)
  {
    hide Wf, NodeOk, DevObjs, DevMeta, OnSomePath;
    TidyNow(s, rank, own);
    forall id ensures CfgAt(t, own, ns, m, id) {
      assert CfgAt(s, own, ns, m, id);
    }
  }

  /**
   * A message keeps the tree true to its configuration exactly when it names
   * no ISA-95 path or names the one that the device is configured to have.
   */
  lemma UnsMessageExact(s: Snap, rank: Id -> nat, mid: Snap, mrank: Id -> nat, t: Snap, own: string -> string,
                        ns: string, m: map<string, Device>, u: string, isa95: seq<string>)
    requires WellFormed(s, rank, own) && ConfigEq(s, own, ns, m) && own(u) == u && Conf(u) in s.objects
    requires WellFormed(mid, mrank, own) && Reparented(s, mid, Conf(u), isa95) && UnsGrew(mid, t, own, u)
    ensures u in m && Placed(m[u])
    ensures ConfigEq(t, own, ns, m) <==> isa95 == [] || isa95 == DevicePath(ns, m[u].devInfo.value)
  {
    hide Wf, NodeOk, DevObjs, DevMeta, OnSomePath, IsaAbove, WithPath, DevicePath, ConfigEq;
    assert CfgAt(s, own, ns, m, Conf(u)) by { assert ConfigEq(s, own, ns, m); ConfigEqAt(s, own, ns, m, Conf(u)); }
    DeviceIsConfig(s, rank, own, u);
    DeviceIsPlaced(s, own, ns, m, u);
    var path := DevicePath(ns, m[u].devInfo.value);
    if isa95 == [] {
      UnsKeepsCfg(s, rank, t, own, ns, m, u);
    } else if isa95 == path {
      PathThere(s, rank, own, ns, m, u);
      assert s.objects[Conf(u)].(parentId := IsaId(isa95)) == s.objects[Conf(u)];
      assert mid.objects == s.objects;
      SameObjectsCfg(s, rank, mid, own, ns, m);
      UnsKeepsCfg(mid, mrank, t, own, ns, m, u);
    } else {
      if ConfigEq(t, own, ns, m) {
        ConfigEqAt(t, own, ns, m, Conf(u));
        TidyNow(mid, mrank, own);
        DeviceIsConfig(mid, mrank, own, u);
        DeviceIsPlaced(t, own, ns, m, u);
        IsaIdInjective(isa95, path);
      }
    }
  }

  lemma ConfigEqAt(s: Snap, own: string -> string, ns: string, m: map<string, Device>, id: Id)
    requires ConfigEq(s, own, ns, m)
    ensures CfgAt(s, own, ns, m, id)
  {
  }

  lemma PathThere(s: Snap, rank: Id -> nat, own: string -> string, ns: string, m: map<string, Device>, u: string)
    requires WellFormed(s, rank, own) && ConfigEq(s, own, ns, m) && u in m && Placed(m[u])
    ensures WithPath(s.objects, Leaf(ns, m[u].devInfo.value)) == s.objects
  {
    hide Wf, NodeOk, DevObjs, DevMeta, IsaAbove;
    var leaf := Leaf(ns, m[u].devInfo.value);
    forall x | x in IsaAbove(leaf) ensures x in s.objects {
      assert OnSomePath(ns, m, x);
      assert CfgAt(s, own, ns, m, x);
    }
    WithPathThere(s.objects, leaf);
  }

  lemma SameObjectsCfg(s: Snap, rank: Id -> nat, t: Snap, own: string -> string, ns: string, m: map<string, Device>)
    requires WellFormed(s, rank, own) && ConfigEq(s, own, ns, m)
    requires t.objects == s.objects && t.metricMeta == s.metricMeta && Grew(s, t)
    ensures ConfigEq(t, own, ns, m)
  {
    hide Wf, NodeOk, DevObjs, DevMeta, OnSomePath;
    TidyNow(s, rank, own);
    forall id ensures CfgAt(t, own, ns, m, id) {
      assert CfgAt(s, own, ns, m, id);
    }
  }
}
