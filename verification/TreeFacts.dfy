/** The steps that the tree's methods rely on, each about plain values. */
module TreeFacts {
  import opened Basics
  import opened OriginMaps
  import opened TreeShape
  import opened TreeSpec

  lemma NodesOf(uuid: string, di: DevInfo)
    ensures DeviceNodes(uuid, di) ==
      if di.originMap.Object? then Flatten(di.originMap.fields, Conf(uuid), uuid, "") else []
  {
  }

  lemma WithPathStep(objs: map<Id, Obj>, up: Id, segment: string)
    ensures var x := Isa(up, segment);
      WithPath(objs, x) == if x in WithPath(objs, up) then WithPath(objs, up)
                           else WithPath(objs, up)[x := IsaObj(up, segment)]
  {
  }

  lemma NotOwned(s: Snap, own: string -> string, u: string)
    requires own(u) == u && Owned(s, own, u) == {}
    ensures Conf(u) !in s.objects
    ensures forall c :: c in s.objects ==> !OwnedBy(own, u, c)
  {
    assert OwnedBy(own, u, Conf(u));
    forall c | c in s.objects ensures !OwnedBy(own, u, c) {
      assert c !in Owned(s, own, u);
    }
  }

  /** A device that is stored but not yet listed anywhere. */
  lemma LooseDevice(s: Snap, rank: Id -> nat, own: string -> string, o: Obj, u: string)
    requires WellFormed(s, rank, own) && own(u) == u && Conf(u) !in s.objects
    requires o.elementId == Conf(u) && o.parentId == Slash
    ensures Wf(s.(objects := s.objects[Conf(u) := o], sources := s.sources[Conf(u) := Config]),
               Put(rank, Conf(u), 0), own, {Conf(u)})
  {
    hide NodeOk, Linked, Ranked;
    var t := s.(objects := s.objects[Conf(u) := o], sources := s.sources[Conf(u) := Config]);
    LooseLinks(s, t, rank, o, u);
    ParentOrTop(s, rank);
    forall c | c in t.objects ensures NodeOk(t, own, {Conf(u)}, c) {
      if c == Conf(u) {
        LooseDeviceOk(t, own, u);
      } else {
        LooseNodeOk(s, t, own, Conf(u), c);
      }
    }
  }

  lemma ParentOrTop(s: Snap, rank: Id -> nat)
    requires Ranked(s, rank)
    ensures forall c :: c in s.objects ==> s.objects[c].parentId == Slash || s.objects[c].parentId in s.objects
  {
  }

  lemma LooseDeviceOk(t: Snap, own: string -> string, u: string)
    requires own(u) == u && Conf(u) in t.objects && t.objects[Conf(u)].parentId == Slash && IsConfig(t, Conf(u))
    ensures NodeOk(t, own, {Conf(u)}, Conf(u))
  {
  }

  lemma LooseLinks(s: Snap, t: Snap, rank: Id -> nat, o: Obj, u: string)
    requires Linked(s, {}) && Ranked(s, rank) && Conf(u) !in s.objects
    requires t.objects == s.objects[Conf(u) := o] && t.children == s.children && o.parentId == Slash
    ensures Linked(t, {Conf(u)}) && Ranked(t, Put(rank, Conf(u), 0))
  {
    assert forall q :: Kids(t, q) == Kids(s, q);
  }

  lemma LooseNodeOk(s: Snap, t: Snap, own: string -> string, d: Id, c: Id)
    requires d !in s.objects && c in s.objects && NodeOk(s, own, {}, c)
    requires s.sources.Keys == s.objects.Keys
    requires forall x :: x in s.objects ==> x in t.objects && t.objects[x] == s.objects[x]
    requires forall x :: x in s.sources ==> x in t.sources && t.sources[x] == s.sources[x]
    requires s.objects[c].parentId == Slash || s.objects[c].parentId in s.objects
    ensures NodeOk(t, own, {d}, c)
  {
  }

  lemma GrewDevice(s: Snap, t: Snap, d: Id)
    requires s.sources.Keys == s.objects.Keys && d !in s.objects
    requires t.objects.Keys == s.objects.Keys + {d} && t.sources == s.sources[d := Config]
    requires t.objectTypes == s.objectTypes
    ensures Grew(s, t)
  {
  }

  lemma {:induction false} WithPathOther(objs: map<Id, Obj>, leaf: Id, d: Id, o: Obj)
    requires !d.Isa?
    ensures WithPath(objs[d := o], leaf) == WithPath(objs, leaf)[d := o]
    decreases leaf
  {
    if leaf.Isa? {
      WithPathOther(objs, leaf.up, d, o);
    }
  }

  /** After the hierarchy is in place the only node the device has is itself. */
  lemma OnlyTheDevice(s: Snap, t: Snap, own: string -> string, u: string, leaf: Id, o: Obj)
    requires own(u) == u && forall c :: c in s.objects ==> !OwnedBy(own, u, c)
    requires Grew(s, t) && s.sources.Keys == s.objects.Keys
    requires Conf(u) in t.objects
    requires t.objects == WithPath(s.objects, leaf)[Conf(u) := o]
    ensures AllConfig(t, own, u)
  {
  }

  lemma LooseKeysAgree(s: Snap, rank: Id -> nat, own: string -> string, loose: set<Id>)
    requires Wf(s, rank, own, loose)
    ensures s.sources.Keys == s.objects.Keys
  {
  }

  lemma WithPathNothing(objs: map<Id, Obj>)
    ensures WithPath(objs, Slash) == objs
  {
  }

  lemma IsaInsertable(s: Snap, own: string -> string, parentId: Id, segment: string)
    requires Isa(parentId, segment) !in s.objects
    requires parentId == Slash || (parentId.Isa? && parentId in s.objects)
    ensures Insertable(s, own, IsaObj(parentId, segment), Config)
  {
  }

  lemma MovableTo(s: Snap, rank: Id -> nat, own: string -> string, d: Id, p: Id)
    requires Wf(s, rank, own, {d})
    requires d in s.objects && IsDevice(own, d) && p in s.objects && p.Isa? && s.objects[d].parentId != p
    ensures Movable(s, own, d, p)
  {
  }

  lemma GrewMove(s: Snap, t: Snap, d: Id, p: Id)
    requires Grew(s, t) && d in t.objects
    ensures Grew(s, Move(t, d, p))
  {
    assert Move(t, d, p).objects.Keys == t.objects.Keys;
  }

  lemma MoveObjects(s: Snap, d: Id, p: Id)
    requires d in s.objects
    ensures Move(s, d, p).objects == s.objects[d := s.objects[d].(parentId := p)]
    ensures Move(s, d, p).metricMeta == s.metricMeta
  {
  }

  lemma KeysAgree(s: Snap, rank: Id -> nat, own: string -> string)
    requires WellFormed(s, rank, own)
    ensures s.sources.Keys == s.objects.Keys
  {
  }

  lemma AllConfigAt(s: Snap, own: string -> string, u: string, c: Id)
    requires AllConfig(s, own, u) && c in s.objects && OwnedBy(own, u, c)
    ensures IsConfig(s, c)
  {
  }

  lemma GrewMeta(s: Snap, t: Snap, w: Snap)
    requires Grew(s, t) && w.objects == t.objects && w.sources == t.sources && w.objectTypes == t.objectTypes
    ensures Grew(s, w)
  {
  }

  lemma NodeForIs(f: Field, parentId: Id, top: string, prefix: string)
    requires IsNode(f)
    ensures var node := NodeFor(f, parentId, top, prefix);
      && node.obj.elementId == NodeId(f, parentId) && node.obj.parentId == parentId
      && node.meta.Some? == IsLeaf(f.value) && f.value.Object?
  {
  }

  lemma FlattenNothing(parentId: Id, top: string, prefix: string)
    ensures Flatten([], parentId, top, prefix) == []
  {
  }

  lemma PlaceNothing(objs: map<Id, Obj>, metas: map<Id, MetricMeta>)
    ensures PlaceObjs(objs, []) == objs && PlaceMeta(metas, []) == metas
  {
  }

  lemma FlattenStep(fs: seq<Field>, i: nat, parentId: Id, top: string, prefix: string)
    requires i < |fs|
    ensures var f := fs[i];
      var rest := Flatten(fs[i+1..], parentId, top, prefix);
      Flatten(fs[i..], parentId, top, prefix) ==
        if !IsNode(f) then rest
        else [NodeFor(f, parentId, top, prefix)] +
             (if IsLeaf(f.value) then []
              else Flatten(f.value.fields, NodeId(f, parentId), top, Join(prefix, f.key))) + rest
  {
    assert fs[i..][1..] == fs[i+1..];
  }

  /** A node of a device's config may be added under any node of the device. */
  lemma NestedInsertable(s: Snap, rank: Id -> nat, own: string -> string, o: Obj, src: Source, u: string)
    requires WellFormed(s, rank, own)
    requires own(u) == u && Conf(u) in s.objects
    requires o.elementId !in s.objects && OwnedBy(own, u, o.elementId)
    requires o.parentId in s.objects && OwnedBy(own, u, o.parentId)
    requires src == Config ==> IsConfig(s, o.parentId)
    ensures Insertable(s, own, o, src)
  {
  }

  lemma AllOwnedParts(own: string -> string, u: string, node: Placement, below: seq<Placement>, rest: seq<Placement>)
    requires AllOwned(own, u, [node] + below + rest)
    ensures OwnedBy(own, u, node.obj.elementId) && AllOwned(own, u, below) && AllOwned(own, u, rest)
  {
    var all := [node] + below + rest;
    assert all[0] == node;
    forall i | 0 <= i < |below| ensures OwnedBy(own, u, below[i].obj.elementId) { assert all[1 + i] == below[i]; }
    forall i | 0 <= i < |rest| ensures OwnedBy(own, u, rest[i].obj.elementId) {
      assert all[1 + |below| + i] == rest[i];
    }
  }

  /** Visiting one node, then what is below it, then the rest. */
  lemma VisitStep(objs: map<Id, Obj>, metas: map<Id, MetricMeta>,
                  node: Placement, below: seq<Placement>, rest: seq<Placement>)
    ensures var o := if node.obj.elementId in objs then objs else objs[node.obj.elementId := node.obj];
      PlaceObjs(objs, [node] + below + rest) == PlaceObjs(PlaceObjs(o, below), rest)
    ensures var m := if node.meta.Some? then metas[node.obj.elementId := node.meta.value] else metas;
      PlaceMeta(metas, [node] + below + rest) == PlaceMeta(PlaceMeta(m, below), rest)
  {
    var all := [node] + below + rest;
    assert all[1..] == below + rest;
    PlaceObjsAppend(if node.obj.elementId in objs then objs else objs[node.obj.elementId := node.obj], below, rest);
    PlaceMetaAppend(if node.meta.Some? then metas[node.obj.elementId := node.meta.value] else metas, below, rest);
  }

  // ---- Removing ----

  lemma RankedNow(s: Snap, rank: Id -> nat, own: string -> string)
    requires WellFormed(s, rank, own)
    ensures Ranked(s, rank) && Linked(s, {})
  {
  }

  lemma DescManyNone(s: Snap, rank: Id -> nat, gone: set<Id>)
    requires Ranked(s, rank)
    ensures DescMany(s, rank, {}) == {} && gone + DescMany(s, rank, {}) == gone
  {
  }

  lemma ChildrenLeft(s: Snap, gone: set<Id>, id: Id)
    requires id in Minus(s, gone).children
    ensures id !in gone && Minus(s, gone).children[id] == Kids(s, id)
  {
  }

  lemma KidInTree(s: Snap, rank: Id -> nat, own: string -> string, id: Id, c: Id)
    requires WellFormed(s, rank, own) && c in Kids(s, id)
    ensures c in s.objects && s.objects[c].parentId == id
  {
  }

  lemma DescManyStep(s: Snap, rank: Id -> nat, gone: set<Id>, done: set<Id>, c: Id)
    requires Ranked(s, rank)
    ensures gone + DescMany(s, rank, done + {c}) == gone + DescMany(s, rank, done) + Desc(s, rank, c)
  {
    forall x | x in DescMany(s, rank, done + {c}) ensures x in DescMany(s, rank, done) + Desc(s, rank, c) {
      var a :| a in done + {c} && Below(s, rank, x, a);
    }
    forall x | x in DescMany(s, rank, done) + Desc(s, rank, c) ensures x in DescMany(s, rank, done + {c}) {
      if x in DescMany(s, rank, done) {
        var a :| a in done && Below(s, rank, x, a);
        assert a in done + {c};
      } else {
        assert c in done + {c} && Below(s, rank, x, c);
      }
    }
  }

  lemma SubtreeGone(s: Snap, rank: Id -> nat, own: string -> string, gone: set<Id>, g: set<Id>, id: Id)
    requires WellFormed(s, rank, own) && id in s.objects && Closed(s, gone)
    requires g == gone + DescMany(s, rank, Kids(s, id)) ||
             (g == gone && id !in Minus(s, gone).children)
    ensures Minus(Minus(s, g), {id}) == Minus(s, gone + Desc(s, rank, id))
    ensures Closed(s, gone + Desc(s, rank, id))
  {
    hide Wf, NodeOk;
    RankedNow(s, rank, own);
    DescUnfold(s, rank, id);
    MinusTwice(s, g, {id});
    if id in gone {
      forall c | c in Desc(s, rank, id) ensures c in gone {
        ClosedHoldsDesc(s, rank, gone, c, id);
      }
    }
    assert g + {id} == gone + Desc(s, rank, id);
  }

  lemma MinusIs(s: Snap, gone: set<Id>)
    ensures Minus(s, gone) ==
      s.(objects := s.objects - gone, sources := s.sources - gone,
         metricMeta := s.metricMeta - gone, children := s.children - gone)
  {
  }

  lemma IsaUp(s: Snap, rank: Id -> nat, own: string -> string, x: Id)
    requires WellFormed(s, rank, own) && x.Isa? && x in s.objects
    ensures s.objects[x].parentId == x.up
    ensures x.up == Slash || (x.up.Isa? && x.up in s.objects)
  {
    assert NodeOk(s, own, {}, x);
  }

  lemma AncestorsStep(ancestors: seq<Id>, i: nat, at: Id)
    requires i < |ancestors| && ancestors[i..] == Ancestors(at)
    ensures at.Isa? && ancestors[i] == at && ancestors[i+1..] == Ancestors(at.up)
  {
    assert ancestors[i..][0] == ancestors[i];
    assert ancestors[i..][1..] == ancestors[i+1..];
  }

  lemma DropIsaIs(s: Snap, x: Id)
    requires x in s.objects
    ensures var p, kids := s.objects[x].parentId, s.children - {x};
      DropIsa(s, x) == s.(objects := s.objects - {x}, sources := s.sources - {x},
                          children := if p in kids then kids[p := kids[p] - {x}] else kids)
  {
  }

  lemma DeviceUnderIsa(s: Snap, rank: Id -> nat, own: string -> string, u: string)
    requires WellFormed(s, rank, own) && own(u) == u && Conf(u) in s.objects
    ensures s.objects[Conf(u)].parentId.Isa? && s.objects[Conf(u)].parentId in s.objects
  {
    assert NodeOk(s, own, {}, Conf(u));
  }

  lemma NothingGone(s: Snap)
    ensures Minus(s, {}) == s && Closed(s, {})
  {
  }

  lemma RenameKeepsWf(s: Snap, rank: Id -> nat, own: string -> string, u: string, name: string)
    requires WellFormed(s, rank, own) && Conf(u) in s.objects
    ensures WellFormed(s.(objects := s.objects[Conf(u) := s.objects[Conf(u)].(displayName := name)]), rank, own)
  {
    hide Linked, Ranked, NodeOk;
    var t := s.(objects := s.objects[Conf(u) := s.objects[Conf(u)].(displayName := name)]);
    SameShapeKeepsWf(s, t, rank, own);
  }

  // ---- Capturing UNS nodes ----

  /** A UNS node remembered while its device is rebuilt. */
  datatype UnsCapture = UnsCapture(id: Id, obj: Obj, parentId: Id, meta: Option<MetricMeta>)

  function CapIds(caps: seq<UnsCapture>): set<Id> {
    set i | 0 <= i < |caps| :: caps[i].id
  }

  ghost predicate Faithful(s: Snap, cap: UnsCapture) {
    && IsUns(s, cap.id)
    && cap.obj == s.objects[cap.id]
    && cap.parentId == cap.obj.parentId
    && cap.meta == if cap.id in s.metricMeta then Some(s.metricMeta[cap.id]) else None
  }

  /** `caps` describes exactly the UNS nodes at and below the given ones. */
  ghost predicate Captures(s: Snap, rank: Id -> nat, roots: set<Id>, caps: seq<UnsCapture>)
    requires Ranked(s, rank)
  {
    && (forall i :: 0 <= i < |caps| ==> Faithful(s, caps[i]))
    && CapIds(caps) == set c | c in DescMany(s, rank, roots) && IsUns(s, c)
  }

  /** No node is captured twice. */
  ghost predicate Once(caps: seq<UnsCapture>) {
    forall i, j :: 0 <= i < j < |caps| ==> caps[i].id != caps[j].id
  }

  /** In the part after `out`, a captured parent comes before its child. */
  ghost predicate PreOrder(s: Snap, root: Id, out: seq<UnsCapture>, caps: seq<UnsCapture>) {
    && out <= caps
    && forall i :: |out| <= i < |caps| ==>
         var p := caps[i].parentId;
         p == root || !IsUns(s, p) || p in CapIds(caps[..i])
  }

  lemma CapturesNone(s: Snap, rank: Id -> nat)
    requires Ranked(s, rank)
    ensures Captures(s, rank, {}, [])
  {
  }

  lemma PreOrderNone(s: Snap, root: Id, out: seq<UnsCapture>)
    ensures PreOrder(s, root, out, out)
  {
  }

  lemma CapIdsAppend(a: seq<UnsCapture>, b: seq<UnsCapture>)
    ensures CapIds(a + b) == CapIds(a) + CapIds(b)
  {
    forall c | c in CapIds(b) ensures c in CapIds(a + b) {
      var i :| 0 <= i < |b| && b[i].id == c;
      assert (a + b)[|a| + i] == b[i];
    }
    forall c | c in CapIds(a) ensures c in CapIds(a + b) {
      var i :| 0 <= i < |a| && a[i].id == c;
      assert (a + b)[i] == a[i];
    }
  }

  lemma OneCapId(cap: UnsCapture)
    ensures CapIds([cap]) == {cap.id}
  {
    assert [cap][0] == cap;
  }

  lemma NoCapIds()
    ensures CapIds([]) == {}
  {
  }

  lemma DescOfKid(s: Snap, rank: Id -> nat, c: Id)
    requires Ranked(s, rank) && Linked(s, {}) && c in s.objects
    ensures Desc(s, rank, c) == {c} + DescMany(s, rank, Kids(s, c))
  {
    DescUnfold(s, rank, c);
  }

  lemma CapturesStep(s: Snap, rank: Id -> nat, own: string -> string, done: set<Id>, c: Id,
                     n: nat, r0: seq<UnsCapture>, r1: seq<UnsCapture>, r2: seq<UnsCapture>)
    requires WellFormed(s, rank, own) && Ranked(s, rank) && c in s.objects
    requires n <= |r0| && Captures(s, rank, done, r0[n..])
    requires if IsUns(s, c)
             then |r1| == |r0| + 1 && r1[..|r0|] == r0 && Faithful(s, r1[|r0|]) && r1[|r0|].id == c
             else r1 == r0
    requires r1 <= r2 && Captures(s, rank, Kids(s, c), r2[|r1|..])
    ensures Captures(s, rank, done + {c}, r2[n..])
  {
    hide Wf, NodeOk, DescMany, Desc, Faithful, CapIds, Ranked, Linked, Kids;
    RankedNow(s, rank, own);
    DescOfKid(s, rank, c);
    DescManyStep(s, rank, {}, done, c);
    assert DescMany(s, rank, done + {c}) == DescMany(s, rank, done) + Desc(s, rank, c) by {
      assert {} + DescMany(s, rank, done) == DescMany(s, rank, done);
      assert {} + DescMany(s, rank, done + {c}) == DescMany(s, rank, done + {c});
    }
    var a, b, d := r0[n..], r1[|r0|..], r2[|r1|..];
    assert r2[n..] == a + (b + d);
    CapIdsAppend(a, b + d);
    CapIdsAppend(b, d);
    if IsUns(s, c) {
      assert b == [r1[|r0|]];
      OneCapId(r1[|r0|]);
    } else {
      assert b == [];
      NoCapIds();
    }
    AllFaithful(s, a, b, d);
  }

  lemma {:induction false} SiblingsApart(s: Snap, rank: Id -> nat, x: Id, a: Id, b: Id)
    requires Ranked(s, rank) && x in s.objects && a in s.objects && b in s.objects && a != b
    requires s.objects[a].parentId == s.objects[b].parentId && Below(s, rank, x, a)
    ensures !Below(s, rank, x, b)
    decreases rank(x)
  {
    var p := s.objects[a].parentId;
    if p in s.objects && Below(s, rank, p, a) {
      BelowRank(s, rank, p, a);
    }
    if p in s.objects && Below(s, rank, p, b) {
      BelowRank(s, rank, p, b);
    }
    if x != a && x != b {
      SiblingsApart(s, rank, s.objects[x].parentId, a, b);
    }
  }

  lemma KidApart(s: Snap, rank: Id -> nat, own: string -> string, id: Id, done: set<Id>, c: Id)
    requires WellFormed(s, rank, own) && Ranked(s, rank)
    requires done <= Kids(s, id) && c in Kids(s, id) && c !in done
    ensures DescMany(s, rank, done) !! Desc(s, rank, c)
  {
    hide Wf, NodeOk, Below, Ranked, Kids;
    KidInTree(s, rank, own, id, c);
    forall x | x in DescMany(s, rank, done) ensures x !in Desc(s, rank, c) {
      var a :| a in done && Below(s, rank, x, a);
      KidInTree(s, rank, own, id, a);
      SiblingsApart(s, rank, x, a, c);
    }
  }

  lemma NotBelowItself(s: Snap, rank: Id -> nat, own: string -> string, c: Id)
    requires WellFormed(s, rank, own) && Ranked(s, rank) && c in s.objects
    ensures c !in DescMany(s, rank, Kids(s, c))
  {
    hide Wf, NodeOk, Below, Kids;
    forall k | k in Kids(s, c) ensures !Below(s, rank, c, k) {
      KidInTree(s, rank, own, c, k);
      if Below(s, rank, c, k) {
        BelowRank(s, rank, c, k);
      }
    }
  }

  lemma OnceAppend(a: seq<UnsCapture>, b: seq<UnsCapture>)
    requires Once(a) && Once(b) && CapIds(a) !! CapIds(b)
    ensures Once(a + b)
  {
    forall i, j | 0 <= i < |a| && 0 <= j < |b| ensures a[i].id != b[j].id {
      assert a[i].id in CapIds(a) && b[j].id in CapIds(b);
    }
  }

  lemma CapIdsWithin(s: Snap, rank: Id -> nat, roots: set<Id>, caps: seq<UnsCapture>)
    requires Ranked(s, rank) && Captures(s, rank, roots, caps)
    ensures CapIds(caps) <= DescMany(s, rank, roots)
  {
  }

  lemma OnceStep(s: Snap, rank: Id -> nat, own: string -> string, id: Id, done: set<Id>, c: Id,
                 n: nat, r0: seq<UnsCapture>, r1: seq<UnsCapture>, r2: seq<UnsCapture>)
    requires WellFormed(s, rank, own) && Ranked(s, rank) && c in s.objects
    requires done <= Kids(s, id) && c in Kids(s, id) && c !in done
    requires n <= |r0| && Captures(s, rank, done, r0[n..]) && Once(r0[n..])
    requires if IsUns(s, c) then |r1| == |r0| + 1 && r1[..|r0|] == r0 && r1[|r0|].id == c else r1 == r0
    requires r1 <= r2 && Captures(s, rank, Kids(s, c), r2[|r1|..]) && Once(r2[|r1|..])
    ensures Once(r2[n..])
  {
    hide Wf, NodeOk, DescMany, Desc, Captures, CapIds, Ranked, Once, Kids, Linked;
    RankedNow(s, rank, own);
    KidApart(s, rank, own, id, done, c);
    NotBelowItself(s, rank, own, c);
    DescOfKid(s, rank, c);
    var a, b, d := r0[n..], r1[|r0|..], r2[|r1|..];
    CapIdsWithin(s, rank, done, a);
    CapIdsWithin(s, rank, Kids(s, c), d);
    if IsUns(s, c) {
      assert b == [r1[|r0|]];
      OneCapId(r1[|r0|]);
    } else {
      assert b == [];
      NoCapIds();
    }
    OnceAppend(b, d);
    CapIdsAppend(b, d);
    OnceAppend(a, b + d);
    assert r2[n..] == a + (b + d);
  }

  lemma AllFaithful(s: Snap, a: seq<UnsCapture>, b: seq<UnsCapture>, d: seq<UnsCapture>)
    requires forall i :: 0 <= i < |a| ==> Faithful(s, a[i])
    requires forall i :: 0 <= i < |b| ==> Faithful(s, b[i])
    requires forall i :: 0 <= i < |d| ==> Faithful(s, d[i])
    ensures forall i :: 0 <= i < |a + (b + d)| ==> Faithful(s, (a + (b + d))[i])
  {
  }

  lemma PreOrderStep(s: Snap, root: Id, c: Id, out: seq<UnsCapture>,
                     r0: seq<UnsCapture>, r1: seq<UnsCapture>, r2: seq<UnsCapture>)
    requires PreOrder(s, root, out, r0) && c in s.objects && s.objects[c].parentId == root
    requires if IsUns(s, c)
             then |r1| == |r0| + 1 && r1[..|r0|] == r0 && r1[|r0|].id == c && r1[|r0|].parentId == root
             else r1 == r0
    requires PreOrder(s, c, r1, r2)
    ensures PreOrder(s, root, out, r2)
  {
    assert out <= r2;
    forall i | |out| <= i < |r2|
      ensures r2[i].parentId == root || !IsUns(s, r2[i].parentId) || r2[i].parentId in CapIds(r2[..i])
    {
      if i < |r0| {
        assert r2[i] == r0[i] && r2[..i] == r0[..i];
      } else if i < |r1| {
        assert r2[i] == r1[i];
      } else if r2[i].parentId == c && IsUns(s, c) {
        assert r2[..i][|r0|] == r1[|r0|];
      }
    }
  }

  // ---- Putting UNS nodes back ----

  lemma GraftedNone(t: Snap, s: Snap)
    ensures Grafted(t, t, s, {})
  {
  }

  lemma CapIdsNext(caps: seq<UnsCapture>, i: nat)
    requires i < |caps|
    ensures CapIds(caps[..i+1]) == CapIds(caps[..i]) + {caps[i].id}
  {
    assert caps[..i+1] == caps[..i] + [caps[i]];
    CapIdsAppend(caps[..i], [caps[i]]);
    assert CapIds([caps[i]]) == {caps[i].id} by {
      assert [caps[i]][0] == caps[i];
    }
  }

  lemma GraftedKeys(t: Snap, w: Snap, s: Snap, g: set<Id>)
    requires Grafted(t, w, s, g) && g <= s.objects.Keys
    ensures w.objects.Keys == t.objects.Keys + g
  {
  }

  /** The two tests of the loop are true exactly when the node is to be kept and is not there yet. */
  lemma GraftChoice(t: Snap, w: Snap, s: Snap, rank: Id -> nat, own: string -> string, u: string,
                    g: set<Id>, caps: seq<UnsCapture>, i: nat)
    requires WellFormed(s, rank, own) && Ranked(s, rank) && own(u) == u && Conf(u) in s.objects
    requires Captures(s, rank, Kids(s, Conf(u)), caps) && PreOrder(s, Conf(u), [], caps) && i < |caps|
    requires g == set c | c in CapIds(caps[..i]) && Kept(s, rank, Ids(t), c)
    requires Grafted(t, w, s, g)
    ensures Faithful(s, caps[i])
    ensures caps[i].parentId in w.objects && caps[i].id !in w.objects <==>
            Kept(s, rank, Ids(t), caps[i].id) && caps[i].id !in g
  {
    hide Wf, DescMany, Grafted, Ranked, CapIds;
    var base, c, p := Ids(t), caps[i].id, caps[i].parentId;
    assert Faithful(s, caps[i]);
    assert g <= s.objects.Keys by {
      forall x | x in g ensures x in s.objects {
        assert Kept(s, rank, base, x);
      }
    }
    GraftedKeys(t, w, s, g);
    DeviceIsConfig(s, rank, own, u);
    ParentKnown(s, rank, own, c);
    if Kept(s, rank, base, p) {
      assert p in CapIds(caps[..i]);
    }
  }

  lemma ParentKnown(s: Snap, rank: Id -> nat, own: string -> string, c: Id)
    requires WellFormed(s, rank, own) && IsUns(s, c)
    ensures s.objects[c].parentId in s.objects
  {
    assert NodeOk(s, own, {}, c);
  }

  lemma DeviceIsConfig(s: Snap, rank: Id -> nat, own: string -> string, u: string)
    requires WellFormed(s, rank, own) && own(u) == u && Conf(u) in s.objects
    ensures IsConfig(s, Conf(u))
  {
    assert NodeOk(s, own, {}, Conf(u));
  }

  lemma CapturedOwner(s: Snap, rank: Id -> nat, own: string -> string, u: string, caps: seq<UnsCapture>, i: nat)
    requires WellFormed(s, rank, own) && Ranked(s, rank) && own(u) == u && Conf(u) in s.objects
    requires Captures(s, rank, Kids(s, Conf(u)), caps) && i < |caps|
    ensures OwnedBy(own, u, caps[i].id) && OwnedBy(own, u, caps[i].parentId)
    ensures caps[i].obj.elementId == caps[i].id && caps[i].obj.parentId == caps[i].parentId && !caps[i].id.Isa?
  {
    var c := caps[i].id;
    assert Faithful(s, caps[i]);
    assert caps[i].id in CapIds(caps);
    OwnedBelow(s, rank, own, u);
    assert OwnedBy(own, u, c);
    assert NodeOk(s, own, {}, c);
  }

  /** What hangs below a device is what it owns, less itself. */
  lemma OwnedBelow(s: Snap, rank: Id -> nat, own: string -> string, u: string)
    requires WellFormed(s, rank, own) && Ranked(s, rank) && own(u) == u && Conf(u) in s.objects
    ensures Owned(s, own, u) == {Conf(u)} + DescMany(s, rank, Kids(s, Conf(u)))
  {
    hide Wf, NodeOk, Desc, DescMany, Owned;
    RankedNow(s, rank, own);
    DescUnfold(s, rank, Conf(u));
    DeviceDesc(s, rank, own, u);
  }

  lemma OwnerPresent(s: Snap, rank: Id -> nat, own: string -> string, u: string, c: Id)
    requires WellFormed(s, rank, own) && c in s.objects && OwnedBy(own, u, c)
    ensures Conf(u) in s.objects
  {
    assert NodeOk(s, own, {}, c);
  }

  lemma GraftMap<V>(t: map<Id, V>, w: map<Id, V>, src: map<Id, V>, g: set<Id>, c: Id)
    requires GraftedMap(t, w, src, g)
    ensures GraftedMap(t, if c in src then w[c := src[c]] else w, src, g + {c})
  {
  }

  lemma GraftTags(t: map<Id, Source>, w: map<Id, Source>, ids: set<Id>, g: set<Id>, c: Id)
    requires GraftedTags(t, w, ids, g) && c in ids
    ensures GraftedTags(t, w[c := Uns], ids, g + {c})
  {
  }

  lemma GraftStep(t: Snap, w: Snap, s: Snap, g: set<Id>, cap: UnsCapture)
    requires Grafted(t, w, s, g) && Faithful(s, cap)
    requires cap.obj.elementId == cap.id
    ensures var x := Insert(w, cap.obj, Uns);
      Grafted(t, if cap.meta.Some? then x.(metricMeta := x.metricMeta[cap.id := cap.meta.value]) else x,
              s, g + {cap.id})
  {
    hide GraftedMap, GraftedTags, Kids;
    GraftMap(t.objects, w.objects, s.objects, g, cap.id);
    GraftMap(t.metricMeta, w.metricMeta, s.metricMeta, g, cap.id);
    GraftTags(t.sources, w.sources, s.objects.Keys, g, cap.id);
  }

  lemma CapturedAll(s: Snap, rank: Id -> nat, own: string -> string, u: string,
                    caps: seq<UnsCapture>, base: iset<Id>)
    requires WellFormed(s, rank, own) && Ranked(s, rank) && own(u) == u && Conf(u) in s.objects
    requires Captures(s, rank, Kids(s, Conf(u)), caps)
    ensures (set c | c in CapIds(caps) && Kept(s, rank, base, c)) == KeptSet(s, rank, base) * Owned(s, own, u)
  {
    hide Wf, NodeOk, DescMany;
    OwnedBelow(s, rank, own, u);
    DeviceIsConfig(s, rank, own, u);
  }

  lemma RemovedAbsent(s: Snap, own: string -> string, u: string)
    requires Conf(u) !in s.objects
    ensures RemovedDevice(s, own, u) == s
  {
  }

  lemma NothingKept(s: Snap, rank: Id -> nat, own: string -> string, u: string, built: Snap)
    requires WellFormed(s, rank, own) && Ranked(s, rank) && Owned(s, own, u) == {}
    ensures Grafted(built, built, s, KeptSet(s, rank, Ids(built)) * Owned(s, own, u))
  {
    hide Wf, NodeOk, KeptSet, Owned;
    assert KeptSet(s, rank, Ids(built)) * {} == {};
    GraftedNone(built, s);
  }

  lemma RemovedOwnsNothing(s: Snap, rank: Id -> nat, own: string -> string, u: string)
    requires WellFormed(s, rank, own) && own(u) == u && Conf(u) in s.objects
    ensures Owned(RemovedDevice(s, own, u), own, u) == {}
  {
    hide Wf, NodeOk;
    var p := s.objects[Conf(u)].parentId;
    CleanUpShrinks(Detach(s, Owned(s, own, u), Conf(u), p), p);
  }

  lemma {:induction false} CleanUpShrinks(s: Snap, x: Id)
    ensures CleanUp(s, x).objects.Keys <= s.objects.Keys
    ensures forall c :: c in CleanUp(s, x).objects ==> CleanUp(s, x).objects[c] == s.objects[c]
    decreases x
  {
    if x.Isa? && Kids(s, x) == {} {
      CleanUpShrinks(if x in s.objects then DropIsa(s, x) else s, x.up);
    }
  }

  // ---- Copying UNS subtrees into a rebuilt tree ----

  function Copied(t: Snap, s: Snap, id: Id): Snap
    requires id in s.objects
  {
    var obj := s.objects[id];
    t.(objects := t.objects[id := obj],
       sources := t.sources[id := Uns],
       children := t.children[obj.parentId := Kids(t, obj.parentId) + {id}],
       metricMeta := if id in s.metricMeta then t.metricMeta[id := s.metricMeta[id]] else t.metricMeta)
  }

  lemma OverlaidNone(t: Snap, s: Snap)
    ensures Overlaid(t, t, s, {})
  {
  }

  lemma CopiedMaps(t: Snap, s: Snap, id: Id)
    requires id in s.objects
    ensures Grafted(t, Copied(t, s, id), s, {id})
  {
    hide GraftedMap, GraftedTags;
    OneGraft(t.objects, s.objects, id);
    OneGraft(t.metricMeta, s.metricMeta, id);
    OneTag(t.sources, s.objects.Keys, id);
  }

  lemma OneGraft<V>(t: map<Id, V>, src: map<Id, V>, c: Id)
    ensures GraftedMap(t, if c in src then t[c := src[c]] else t, src, {c})
  {
  }

  lemma OneTag(t: map<Id, Source>, ids: set<Id>, c: Id)
    requires c in ids
    ensures GraftedTags(t, t[c := Uns], ids, {c})
  {
  }

  lemma OverlaidOne(t: Snap, s: Snap, id: Id)
    requires id in s.objects
    ensures Overlaid(t, Copied(t, s, id), s, {id})
  {
    var w, p := Copied(t, s, id), s.objects[id].parentId;
    CopiedMaps(t, s, id);
    hide GraftedMap, GraftedTags;
    forall q ensures Kids(w, q) == Kids(t, q) + set c | c in {id} && c in s.objects && s.objects[c].parentId == q {
      if q != p {
        assert Kids(w, q) == Kids(t, q);
      }
    }
  }

  lemma GraftMapTwice<V>(t: map<Id, V>, w: map<Id, V>, x: map<Id, V>, src: map<Id, V>, g: set<Id>, h: set<Id>)
    requires GraftedMap(t, w, src, g) && GraftedMap(w, x, src, h)
    ensures GraftedMap(t, x, src, g + h)
  {
  }

  lemma OverlaidTwice(t: Snap, w: Snap, x: Snap, s: Snap, g: set<Id>, h: set<Id>)
    requires Overlaid(t, w, s, g) && Overlaid(w, x, s, h)
    ensures Overlaid(t, x, s, g + h)
  {
    hide GraftedMap, GraftedTags;
    GraftMapTwice(t.objects, w.objects, x.objects, s.objects, g, h);
    GraftMapTwice(t.metricMeta, w.metricMeta, x.metricMeta, s.metricMeta, g, h);
    GraftTagsTwice(t.sources, w.sources, x.sources, s.objects.Keys, g, h);
    OverlaidKids(t, w, x, s, g, h);
  }

  lemma GraftTagsTwice(t: map<Id, Source>, w: map<Id, Source>, x: map<Id, Source>, ids: set<Id>,
                       g: set<Id>, h: set<Id>)
    requires GraftedTags(t, w, ids, g) && GraftedTags(w, x, ids, h)
    ensures GraftedTags(t, x, ids, g + h)
  {
  }

  lemma OverlaidKids(t: Snap, w: Snap, x: Snap, s: Snap, g: set<Id>, h: set<Id>)
    requires forall q :: Kids(w, q) == Kids(t, q) + set c | c in g && c in s.objects && s.objects[c].parentId == q
    requires forall q :: Kids(x, q) == Kids(w, q) + set c | c in h && c in s.objects && s.objects[c].parentId == q
    ensures forall q :: Kids(x, q) == Kids(t, q) + set c | c in g + h && c in s.objects && s.objects[c].parentId == q
  {
  }

  lemma OverlaidIds(t: Snap, w: Snap, s: Snap, g: set<Id>)
    requires Overlaid(t, w, s, g)
    ensures w.objects.Keys == t.objects.Keys + g * s.objects.Keys
  {
  }

  function Listed(q: seq<Id>): set<Id> {
    set i | 0 <= i < |q| :: q[i]
  }

  lemma QueuePush(q: seq<Id>, k: Id)
    ensures Listed(q + [k]) == Listed(q) + {k}
  {
    forall x | x in Listed(q) ensures x in Listed(q + [k]) {
      var i :| 0 <= i < |q| && q[i] == x;
      assert (q + [k])[i] == x;
    }
    assert (q + [k])[|q|] == k;
  }

  /** What is true between two rounds of the queue: whatever is still missing hangs from it. */
  ghost predicate CarryLoop(t: Snap, s: Snap, rank: Id -> nat, g: set<Id>, queue: seq<Id>)
    requires Ranked(s, rank)
  {
    && g <= Carried(s, rank, Ids(t))
    && Closed(s, g)
    && (forall r :: CarryRoot(s, Ids(t), r) && s.objects[r].parentId !in queue ==> r in g)
  }

  /** The same within a round that is about to look at the children `todo` of `p`. */
  ghost predicate CarryInner(t: Snap, s: Snap, rank: Id -> nat, g: set<Id>, queue: seq<Id>, p: Id, todo: set<Id>)
    requires Ranked(s, rank)
  {
    && g <= Carried(s, rank, Ids(t))
    && Closed(s, g)
    && (forall r :: CarryRoot(s, Ids(t), r) && s.objects[r].parentId !in queue && s.objects[r].parentId != p ==> r in g)
    && (forall r :: CarryRoot(s, Ids(t), r) && s.objects[r].parentId == p ==> r in g || r in todo)
    && (p in t.objects || p in g)
    && (forall x :: x in queue ==> x in t.objects || x in g)
  }

  lemma CarryStart(t: Snap, s: Snap, rank: Id -> nat, queue: seq<Id>)
    requires Ranked(s, rank) && t.objects.Keys == Listed(queue)
    ensures Overlaid(t, t, s, {})
    ensures CarryLoop(t, s, rank, {}, queue) && QueueKnown(t, {}, queue)
  {
    OverlaidNone(t, s);
  }

  ghost predicate QueueKnown(t: Snap, g: set<Id>, queue: seq<Id>) {
    forall x :: x in queue ==> x in t.objects || x in g
  }

  lemma CarryPop(t: Snap, s: Snap, rank: Id -> nat, own: string -> string, g: set<Id>, queue: seq<Id>)
    requires WellFormed(s, rank, own) && Ranked(s, rank) && queue != []
    requires CarryLoop(t, s, rank, g, queue) && QueueKnown(t, g, queue)
    ensures CarryInner(t, s, rank, g, queue[1..], queue[0], Kids(s, queue[0]))
    ensures g <= Carried(s, rank, Ids(t))
  {
    hide Wf, Carried, NodeOk;
    RankedNow(s, rank, own);
    assert queue[0] in queue;
    assert forall x :: x in queue ==> x == queue[0] || x in queue[1..];
    assert forall r :: CarryRoot(s, Ids(t), r) ==> r in Kids(s, s.objects[r].parentId);
  }

  lemma CarryPick(t: Snap, s: Snap, rank: Id -> nat, own: string -> string, g: set<Id>, queue: seq<Id>,
                  p: Id, todo: set<Id>, c: Id)
    requires WellFormed(s, rank, own) && Ranked(s, rank)
    requires CarryInner(t, s, rank, g, queue, p, todo) && c in todo && todo <= Kids(s, p)
    ensures c in s.objects
    ensures c in t.objects || c in g || !IsUns(s, c) ==> CarryInner(t, s, rank, g, queue, p, todo - {c})
    ensures (c !in t.objects && c !in g && IsUns(s, c)) ==>
      && CarryInner(t, s, rank, g + Desc(s, rank, c), queue + [c], p, todo - {c})
      && g < g + Desc(s, rank, c) <= Carried(s, rank, Ids(t))
  {
    hide Wf, NodeOk, Ranked, Linked, Kids, Desc, Carried, Closed, Below;
    KidInTree(s, rank, own, p, c);
    if c !in t.objects && c !in g && IsUns(s, c) {
      if p in g {
        ClosedKid(s, g, c);
      }
      CarrySubtree(s, rank, Ids(t), c);
      ClosedBoth(s, g, Desc(s, rank, c));
      assert c in Desc(s, rank, c) && Desc(s, rank, c) <= Carried(s, rank, Ids(t));
    }
  }

  lemma CarrySubtree(s: Snap, rank: Id -> nat, base: iset<Id>, c: Id)
    requires Ranked(s, rank) && CarryRoot(s, base, c)
    ensures Desc(s, rank, c) <= Carried(s, rank, base) && Closed(s, Desc(s, rank, c)) && c in Desc(s, rank, c)
  {
    hide Ranked;
  }

  lemma ClosedKid(s: Snap, g: set<Id>, c: Id)
    requires Closed(s, g) && c in s.objects && s.objects[c].parentId in g
    ensures c in g
  {
  }

  lemma ClosedBoth(s: Snap, g: set<Id>, h: set<Id>)
    requires Closed(s, g) && Closed(s, h)
    ensures Closed(s, g + h)
  {
  }

  lemma CarryPopped(t: Snap, s: Snap, rank: Id -> nat, g: set<Id>, queue: seq<Id>, p: Id)
    requires Ranked(s, rank) && CarryInner(t, s, rank, g, queue, p, {})
    ensures CarryLoop(t, s, rank, g, queue) && QueueKnown(t, g, queue)
  {
  }

  lemma CarriedLess(all: set<Id>, a: set<Id>, b: set<Id>)
    requires a < b <= all
    ensures |all - b| < |all - a|
  {
    var x :| x in b && x !in a;
    assert all - b < all - a by {
      assert x in all - a && x !in all - b;
    }
    ProperSubsetSmaller(all - b, all - a);
  }

  lemma ProperSubsetSmaller(a: set<Id>, b: set<Id>)
    requires a < b
    ensures |a| < |b|
  {
    assert |b| == |a| + |b - a| by {
      assert b == a + (b - a);
    }
  }

  lemma CarryDone(t: Snap, s: Snap, rank: Id -> nat, g: set<Id>)
    requires Ranked(s, rank) && CarryLoop(t, s, rank, g, [])
    ensures g == Carried(s, rank, Ids(t))
  {
    forall c | c in Carried(s, rank, Ids(t)) ensures c in g {
      var r :| CarryRoot(s, Ids(t), r) && Below(s, rank, c, r);
      ClosedHoldsDesc(s, rank, g, c, r);
    }
  }
}
