/**
 * The object tree itself: maps that are updated in place by the per-device
 * mutations, by the full rebuild and by UNS messages.
 */
module ObjectTrees {
  import opened Basics
  import opened OriginMaps
  import opened TreeShape
  import opened TreeSpec
  import opened TreeFacts
  import opened TreeConfig
  import opened TreeUns
  import opened TreeDiff

  class TreeSnapshot {
    var objectTypes: map<string, ObjectType>
    var objects: map<Id, Obj>
    var children: map<Id, set<Id>>
    var metricMeta: map<Id, MetricMeta>
    var sources: map<Id, Source>
    ghost var rank: Id -> nat
    ghost const own: string -> string

    ghost function View(): Snap
      reads this
    {
      Snap(objectTypes, objects, children, metricMeta, sources)
    }

    ghost predicate Valid()
      reads this
    {
      WellFormed(View(), rank, own)
    }

    constructor (ghost own: string -> string)
      ensures Valid() && View() == EMPTY && this.own == own
    {
      this.own := own;
      objectTypes, objects, children, metricMeta, sources := map[], map[], map[], map[], map[];
      rank := (x: Id) => 0;
    }

    /** Do the child lists and the parent pointers say the same? */
    predicate IsLinked()
      reads this
      ensures IsLinked() <==> Linked(View(), {})
    {
      LinkedIs(View());
      ListedRight(children, objects)
    }

    /** Put a node on the list of its parent. */
    method ListUnder(parentId: Id, id: Id)
      modifies `children
      ensures children == old(children)[parentId := Kids(old(View()), parentId) + {id}]
    {
      if parentId !in children {
        children := children[parentId := {}];
      }
      children := children[parentId := children[parentId] + {id}];
    }

    method AddNode(o: Obj, src: Source, ghost loose: set<Id>)
      requires Wf(View(), rank, own, loose)
      requires Insertable(View(), own, o, src)
      modifies this
      ensures View() == Insert(old(View()), o, src)
      ensures rank == RankUnder(old(rank), o.elementId, o.parentId)
      ensures Wf(View(), rank, own, loose)
    {
      hide Wf, Insertable;
      InsertKeepsWf(View(), rank, own, loose, o, src);
      objects := objects[o.elementId := o];
      sources := sources[o.elementId := src];
      ListUnder(o.parentId, o.elementId);
      rank := RankUnder(rank, o.elementId, o.parentId);
    }

    /** Add a node of a config unless there is one with its id. */
    method PlaceNode(o: Obj, ghost u: string)
      requires Valid() && own(u) == u && Conf(u) in objects && o.parentId in objects && OwnedBy(own, u, o.parentId)
      requires OwnedBy(own, u, o.elementId) && AllConfig(View(), own, u)
      modifies this
      ensures Valid() && Grew(old(View()), View())
      ensures objects == if o.elementId in old(objects) then old(objects) else old(objects)[o.elementId := o]
      ensures metricMeta == old(metricMeta)
    {
      hide Wf, Insertable, Grew, AllConfig;
      KeysAgree(View(), rank, own);
      GrewSame(View(), rank, own, {});
      if o.elementId !in objects {
        AllConfigAt(View(), own, u, o.parentId);
        NestedInsertable(View(), rank, own, o, Config, u);
        GrewInsert(View(), View(), o);
        AddNode(o, Config, {});
      }
    }

    /** Walk an originMap and build its nodes under `parentId`. */
    method BuildTreeFromOriginMap(fs: seq<Field>, parentId: Id, top: string, prefix: string, ghost u: string)
      requires Valid()
      requires own(u) == u && Conf(u) in objects && parentId in objects && OwnedBy(own, u, parentId)
      requires AllOwned(own, u, Flatten(fs, parentId, top, prefix))
      requires AllConfig(View(), own, u)
      modifies this
      ensures Valid()
      ensures objects == PlaceObjs(old(objects), Flatten(fs, parentId, top, prefix))
      ensures metricMeta == PlaceMeta(old(metricMeta), Flatten(fs, parentId, top, prefix))
      ensures Grew(old(View()), View())
      decreases fs
    {
      hide Wf, Flatten, Insertable, PlaceObjs, PlaceMeta, NodeFor, Grew, AllConfig, AllOwned, NodeId, IsLeaf;
      ghost var all := Flatten(fs, parentId, top, prefix);
      ghost var s0 := View();
      assert fs[0..] == fs;
      GrewSame(s0, rank, own, {});
      KeysAgree(s0, rank, own);
      var i := 0;
      while i < |fs|
        invariant 0 <= i <= |fs|
        invariant Valid() && Grew(s0, View()) && s0.objects.Keys <= objects.Keys
        invariant AllOwned(own, u, Flatten(fs[i..], parentId, top, prefix))
        invariant PlaceObjs(objects, Flatten(fs[i..], parentId, top, prefix)) == PlaceObjs(s0.objects, all)
        invariant PlaceMeta(metricMeta, Flatten(fs[i..], parentId, top, prefix)) == PlaceMeta(s0.metricMeta, all)
      {
        var f := fs[i];
        ghost var rest := Flatten(fs[i+1..], parentId, top, prefix);
        FlattenStep(fs, i, parentId, top, prefix);
        if IsNode(f) {
          var elementId := NodeId(f, parentId);
          var node := NodeFor(f, parentId, top, prefix);
          NodeForIs(f, parentId, top, prefix);
          ghost var below := if IsLeaf(f.value) then []
                             else Flatten(f.value.fields, elementId, top, Join(prefix, f.key));
          AllOwnedParts(own, u, node, below, rest);
          VisitStep(objects, metricMeta, node, below, rest);
          AllConfigKept(s0, View(), own, u);
          ghost var was := View();
          PlaceNode(node.obj, u);
          GrewTwice(s0, was, View());
          AllConfigKept(s0, View(), own, u);
          ghost var mid := View();
          if IsLeaf(f.value) {
            MetaKeepsWf(View(), rank, own, elementId, node.meta.value);
            metricMeta := metricMeta[elementId := node.meta.value];
            GrewMeta(s0, mid, View());
            PlaceNothing(objects, metricMeta);
          } else {
            BuildTreeFromOriginMap(f.value.fields, elementId, top, Join(prefix, f.key), u);
            GrewTwice(s0, mid, View());
          }
        }
        i := i + 1;
      }
      assert fs[i..] == [];
      FlattenNothing(parentId, top, prefix);
      PlaceNothing(objects, metricMeta);
    }

    /** Take a device from its old parent's children and hang it under another node. */
    method Reparent(d: Id, parentId: Id)
      requires Wf(View(), rank, own, {d})
      requires Movable(View(), own, d, parentId)
      modifies this
      ensures Valid() && View() == Move(old(View()), d, parentId)
    {
      hide Wf;
      MoveKeepsWf(View(), rank, own, d, parentId);
      var device := objects[d];
      if device.parentId in children {
        children := children[device.parentId := children[device.parentId] - {d}];
      }
      objects := objects[d := device.(parentId := parentId)];
      children := children[parentId := (if parentId in children then children[parentId] else {}) + {d}];
      rank := Lift(rank, parentId);
    }

    /** Create the missing ISA-95 levels and put the device under the deepest one. */
    method EnsureIsa95Hierarchy(segments: seq<string>, d: Id)
      requires Wf(View(), rank, own, {d})
      requires segments != [] && d in objects && IsDevice(own, d)
      requires d in Kids(View(), objects[d].parentId) || objects[d].parentId == Slash
      modifies this
      ensures Valid()
      ensures objects == WithPath(old(objects), IsaId(segments))[d := old(objects)[d].(parentId := IsaId(segments))]
      ensures metricMeta == old(metricMeta) && Grew(old(View()), View())
    {
      hide Wf, WithPath, Grew, Insertable, Move, Movable;
      ghost var s0 := View();
      var parentId := Slash;
      WithPathNothing(objects);
      GrewSame(s0, rank, own, {d});
      LooseKeysAgree(s0, rank, own, {d});
      for k := 0 to |segments|
        invariant parentId == IsaId(segments[..k])
        invariant parentId == Slash || (parentId.Isa? && parentId in objects)
        invariant Wf(View(), rank, own, {d}) && Grew(s0, View())
        invariant objects == WithPath(s0.objects, parentId)
        invariant d in objects && objects[d] == s0.objects[d]
        invariant d in Kids(View(), objects[d].parentId) || objects[d].parentId == Slash
        invariant metricMeta == s0.metricMeta
      {
        var elementId := Isa(parentId, segments[k]);
        assert segments[..k+1][..k] == segments[..k];
        WithPathStep(s0.objects, parentId, segments[k]);
        if elementId !in objects {
          IsaInsertable(View(), own, parentId, segments[k]);
          GrewInsert(s0, View(), IsaObj(parentId, segments[k]));
          AddNode(IsaObj(parentId, segments[k]), Config, {d});
        }
        parentId := elementId;
      }
      assert segments[..|segments|] == segments;
      var device := objects[d];
      if device.parentId != parentId {
        MovableTo(View(), rank, own, d, parentId);
        GrewMove(s0, View(), d, parentId);
        MoveObjects(View(), d, parentId);
        Reparent(d, parentId);
      } else {
        TighterWf(View(), rank, own, d);
      }
    }

    /** Store the node of a device, not yet listed anywhere. */
    method StoreDevice(uuid: string, obj: Obj)
      requires Valid() && own(uuid) == uuid && Conf(uuid) !in objects
      requires obj.elementId == Conf(uuid) && obj.parentId == Slash
      modifies this
      ensures View() == old(View()).(objects := old(objects)[Conf(uuid) := obj],
                                     sources := old(sources)[Conf(uuid) := Config])
      ensures Wf(View(), rank, own, {Conf(uuid)}) && Grew(old(View()), View())
    {
      hide Wf, Grew;
      ghost var s0 := View();
      KeysAgree(s0, rank, own);
      LooseDevice(s0, rank, own, obj, uuid);
      objects := objects[Conf(uuid) := obj];
      sources := sources[Conf(uuid) := Config];
      rank := Put(rank, Conf(uuid), 0);
      GrewDevice(s0, View(), Conf(uuid));
    }

    /** A device's own node, below the levels of its path. */
    method PlaceDevice(ns: string, uuid: string, d: Device)
      requires Valid() && own(uuid) == uuid && Conf(uuid) !in objects && Placed(d)
      modifies this
      ensures Valid() && Grew(old(View()), View()) && metricMeta == old(metricMeta)
      ensures objects == WithPath(old(objects), Leaf(ns, d.devInfo.value))[Conf(uuid) := DeviceObj(ns, uuid, d)]
    {
      hide Wf, WithPath, Grew, DevicePath, SchemaOf, IsaId;
      ghost var s0 := View();
      KeysAgree(s0, rank, own);
      var di := d.devInfo.value;
      var segments := DevicePath(ns, di);
      var obj := Obj(Conf(uuid), DisplayName(uuid, d), Text(SchemaOf(di)), Slash, true);
      StoreDevice(uuid, obj);
      ghost var s1 := View();
      EnsureIsa95Hierarchy(segments, Conf(uuid));
      GrewTwice(s0, s1, View());
      IsaIdIsIsa(segments);
      WithPathOther(s0.objects, IsaId(segments), Conf(uuid), obj);
    }

    /** Place one device with its ISA-95 ancestors and its metric tree. */
    method BuildDevice(ns: string, uuid: string, d: Device)
      requires Valid()
      requires KeepsToItself(own, uuid, d)
      requires Owned(View(), own, uuid) == {}
      modifies this
      ensures Valid()
      ensures BuiltFrom(old(View()), View(), ns, uuid, d)
      ensures Grew(old(View()), View())
    {
      hide Wf, WithPath, Grew, AllOwned, DeviceNodes, AllConfig, Owned, Flatten, PlaceObjs, PlaceMeta,
           DevicePath, SchemaOf, IsaId, Leaf;
      ghost var s0 := View();
      GrewSame(s0, rank, own, {});
      KeysAgree(s0, rank, own);
      if d.devInfo.None? {
        return;
      }
      var di := d.devInfo.value;
      if !Truthy(SchemaOf(di)) {
        return;
      }
      NotOwned(s0, own, uuid);
      PlaceDevice(ns, uuid, d);
      ghost var s2 := View();
      OnlyTheDevice(s0, s2, own, uuid, Leaf(ns, di), DeviceObj(ns, uuid, d));
      NodesOf(uuid, di);
      if di.originMap.Object? {
        BuildTreeFromOriginMap(di.originMap.fields, Conf(uuid), uuid, "", uuid);
        GrewTwice(s0, s2, View());
      }
      PlaceNothing(s2.objects, s2.metricMeta);
    }

    /** Remove a node and everything below it; `gone` is what is already removed from `orig`. */
    method RemoveSubtree(id: Id, ghost orig: Snap, ghost gone: set<Id>)
      requires WellFormed(orig, rank, own) && id in orig.objects
      requires View() == Minus(orig, gone) && Closed(orig, gone)
      modifies this
      ensures rank == old(rank)
      ensures View() == Minus(orig, gone + Desc(orig, rank, id))
      ensures Closed(orig, gone + Desc(orig, rank, id))
      decreases Desc(orig, rank, id), 1
    {
      hide Wf, Minus, DescMany, Desc, Closed, Ranked, Linked, Kids;
      RankedNow(orig, rank, own);
      ghost var g := gone;
      DescManyNone(orig, rank, gone);
      if id in children {
        ChildrenLeft(orig, gone, id);
        RemoveBelow(id, orig, gone);
        g := gone + DescMany(orig, rank, Kids(orig, id));
        children := children - {id};
      }
      objects := objects - {id};
      sources := sources - {id};
      metricMeta := metricMeta - {id};
      SubtreeGone(orig, rank, own, gone, g, id);
      MinusIs(Minus(orig, g), {id});
    }

    /** Remove everything below a node, child by child. */
    method RemoveBelow(id: Id, ghost orig: Snap, ghost gone: set<Id>)
      requires WellFormed(orig, rank, own) && Ranked(orig, rank) && id in orig.objects
      requires View() == Minus(orig, gone) && Closed(orig, gone)
      requires id in children && children[id] == Kids(orig, id)
      modifies this
      ensures rank == old(rank)
      ensures View() == Minus(orig, gone + DescMany(orig, rank, Kids(orig, id)))
      ensures Closed(orig, gone + DescMany(orig, rank, Kids(orig, id)))
      decreases Desc(orig, rank, id), 0
    {
      hide Wf, Minus, DescMany, Desc, Closed, Ranked, Linked, Kids;
      RankedNow(orig, rank, own);
      DescManyNone(orig, rank, gone);
      ghost var kids, g := children[id], gone;
      var todo := children[id];
      assert kids - todo == {};
      while todo != {}
        invariant todo <= kids && rank == old(rank)
        invariant g == gone + DescMany(orig, rank, kids - todo)
        invariant View() == Minus(orig, g) && Closed(orig, g)
        decreases |todo|
      {
        var c :| c in todo;
        KidInTree(orig, rank, own, id, c);
        ChildDescSmaller(orig, rank, c, id);
        DescManyStep(orig, rank, gone, kids - todo, c);
        RemoveSubtree(c, orig, g);
        assert kids - todo + {c} == kids - (todo - {c});
        todo := todo - {c};
        g := g + Desc(orig, rank, c);
      }
      assert kids - todo == kids;
    }

    /** The ISA-95 nodes above a device, bottom-up. */
    method CollectIsa95Ancestors(obj: Obj) returns (out: seq<Id>)
      requires Valid()
      requires obj.parentId.Isa? && obj.parentId in objects
      ensures out == Ancestors(obj.parentId)
    {
      hide Wf;
      out := [];
      var parentId := obj.parentId;
      while parentId != Slash
        invariant parentId == Slash || (parentId.Isa? && parentId in objects)
        invariant out + Ancestors(parentId) == Ancestors(obj.parentId)
        decreases parentId
      {
        IsaUp(View(), rank, own, parentId);
        out := out + [parentId];
        if parentId !in objects {
          break;
        }
        parentId := objects[parentId].parentId;
      }
    }

    /** Bottom-up, remove the ISA-95 nodes that have become childless. */
    method CleanupOrphanAncestors(ancestors: seq<Id>, ghost top: Id)
      requires Valid() && ancestors == Ancestors(top)
      modifies this
      ensures Valid() && View() == CleanUp(old(View()), top)
      ensures rank == old(rank)
    {
      hide Wf, DropIsa;
      ghost var at := top;
      var i := 0;
      while i < |ancestors|
        invariant 0 <= i <= |ancestors|
        invariant ancestors[i..] == Ancestors(at)
        invariant Valid() && rank == old(rank)
        invariant CleanUp(View(), at) == CleanUp(old(View()), top)
      {
        var ancestorId := ancestors[i];
        AncestorsStep(ancestors, i, at);
        if ancestorId in children && children[ancestorId] != {} {
          return;
        }
        at := at.up;
        i := i + 1;
        if ancestorId !in objects {
          continue;
        }
        var ancestor := objects[ancestorId];
        DropIsaKeepsWf(View(), rank, own, ancestorId);
        DropIsaIs(View(), ancestorId);
        objects := objects - {ancestorId};
        sources := sources - {ancestorId};
        children := children - {ancestorId};
        if ancestor.parentId in children {
          children := children[ancestor.parentId := children[ancestor.parentId] - {ancestorId}];
        }
      }
      assert ancestors[i..] == [];
    }

    /** The part that removing and replacing a device share. */
    method DetachDevice(uuid: string)
      requires Valid() && own(uuid) == uuid && Conf(uuid) in objects
      modifies this
      ensures Valid() && rank == old(rank)
      ensures View() == RemovedDevice(old(View()), own, uuid)
    {
      hide Wf, Minus, Desc, Owned, CleanUp;
      ghost var s0 := View();
      var device := objects[Conf(uuid)];
      DeviceUnderIsa(s0, rank, own, uuid);
      var ancestors := CollectIsa95Ancestors(device);
      NothingGone(s0);
      RemoveSubtree(Conf(uuid), s0, {});
      DeviceDesc(s0, rank, own, uuid);
      assert View() == Minus(s0, Owned(s0, own, uuid)) by {
        RankedNow(s0, rank, own);
        assert {} + Desc(s0, rank, Conf(uuid)) == Desc(s0, rank, Conf(uuid));
      }
      DetachKeepsWf(s0, rank, own, uuid);
      if device.parentId in children {
        children := children[device.parentId := children[device.parentId] - {Conf(uuid)}];
      }
      assert View() == Detach(s0, Owned(s0, own, uuid), Conf(uuid), device.parentId);
      CleanupOrphanAncestors(ancestors, device.parentId);
    }

    method AddDevice(ns: string, uuid: string, d: Device)
      requires Valid() && KeepsToItself(own, uuid, d) && Owned(View(), own, uuid) == {}
      modifies this
      ensures Valid() && BuiltFrom(old(View()), View(), ns, uuid, d)
    {
      BuildDevice(ns, uuid, d);
    }

    method RemoveDevice(uuid: string)
      requires Valid() && own(uuid) == uuid
      modifies this
      ensures Valid() && rank == old(rank)
      ensures View() == RemovedDevice(old(View()), own, uuid)
    {
      if Conf(uuid) !in objects {
        return;
      }
      DetachDevice(uuid);
    }

    method UpdateDeviceName(uuid: string, displayName: string)
      requires Valid()
      modifies this`objects
      ensures Valid()
      ensures objects == if Conf(uuid) !in old(objects) then old(objects)
                         else old(objects)[Conf(uuid) := old(objects)[Conf(uuid)].(displayName := displayName)]
    {
      hide Wf;
      if Conf(uuid) in objects {
        RenameKeepsWf(View(), rank, own, uuid, displayName);
        objects := objects[Conf(uuid) := objects[Conf(uuid)].(displayName := displayName)];
      }
    }

    /** Pre-order walk below `id`, adding every UNS node to `out`. */
    method Visit(id: Id, out: seq<UnsCapture>) returns (result: seq<UnsCapture>)
      requires Valid() && id in objects
      ensures out <= result
      ensures Captures(View(), rank, Kids(View(), id), result[|out|..]) && Once(result[|out|..])
      ensures PreOrder(View(), id, out, result)
      decreases Desc(View(), rank, id)
    {
      hide Wf, DescMany, Desc, Below, Captures, PreOrder;
      ghost var s := View();
      RankedNow(s, rank, own);
      result := out;
      CapturesNone(s, rank);
      PreOrderNone(s, id, out);
      assert out[|out|..] == [];
      if id !in children {
        return;
      }
      ghost var kids := children[id];
      var todo := children[id];
      assert kids - todo == {};
      while todo != {}
        invariant todo <= kids && out <= result
        invariant Captures(s, rank, kids - todo, result[|out|..]) && Once(result[|out|..])
        invariant PreOrder(s, id, out, result)
      {
        var childId :| childId in todo;
        KidInTree(s, rank, own, id, childId);
        ChildDescSmaller(s, rank, childId, id);
        ghost var r0 := result;
        if childId in sources && sources[childId] == Uns {
          var obj := objects[childId];
          result := result + [UnsCapture(childId, obj, obj.parentId,
                                         if childId in metricMeta then Some(metricMeta[childId]) else None)];
        }
        ghost var r1 := result;
        result := Visit(childId, result);
        CapturesStep(s, rank, own, kids - todo, childId, |out|, r0, r1, result);
        OnceStep(s, rank, own, id, kids - todo, childId, |out|, r0, r1, result);
        PreOrderStep(s, id, childId, out, r0, r1, result);
        assert kids - todo + {childId} == kids - (todo - {childId});
        todo := todo - {childId};
      }
      assert kids - todo == kids;
    }

    /** Every UNS node below a device, parents before children. */
    method CaptureUnsDescendants(rootId: Id) returns (out: seq<UnsCapture>)
      requires Valid() && rootId in objects
      ensures Captures(View(), rank, Kids(View(), rootId), out) && Once(out)
      ensures PreOrder(View(), rootId, [], out)
    {
      out := Visit(rootId, []);
      assert out[0..] == out;
    }

    /** Put one captured node back, with its metadata. */
    method Restore(cap: UnsCapture)
      requires Valid() && Insertable(View(), own, cap.obj, Uns)
      requires cap.obj.elementId == cap.id && !cap.id.Isa?
      modifies this
      ensures Valid()
      ensures var x := Insert(old(View()), cap.obj, Uns);
        View() == if cap.meta.Some? then x.(metricMeta := x.metricMeta[cap.id := cap.meta.value]) else x
    {
      hide Wf, Insertable;
      AddNode(cap.obj, Uns, {});
      if cap.meta.Some? {
        MetaKeepsWf(View(), rank, own, cap.id, cap.meta.value);
        metricMeta := metricMeta[cap.id := cap.meta.value];
      }
    }

    /** Put captured nodes back where their parent is there again and their id is free. */
    method Regraft(caps: seq<UnsCapture>, ghost s0: Snap, ghost rank0: Id -> nat, ghost u: string)
      requires Valid()
      requires WellFormed(s0, rank0, own) && own(u) == u && Conf(u) in s0.objects
      requires Captures(s0, rank0, Kids(s0, Conf(u)), caps) && PreOrder(s0, Conf(u), [], caps)
      modifies this
      ensures Valid()
      ensures Grafted(old(View()), View(), s0,
                      KeptSet(s0, rank0, Ids(old(View()))) * Owned(s0, own, u))
    {
      hide Wf, Captures, PreOrder, Grafted, Kept, Owned, KeptSet, Insertable, DescMany;
      ghost var t := View();
      ghost var base := Ids(t);
      ghost var g: set<Id> := {};
      RankedNow(s0, rank0, own);
      GraftedNone(t, s0);
      for i := 0 to |caps|
        invariant Valid()
        invariant g == set c | c in CapIds(caps[..i]) && Kept(s0, rank0, base, c)
        invariant Grafted(t, View(), s0, g)
      {
        var cap := caps[i];
        ghost var w := View();
        CapIdsNext(caps, i);
        GraftChoice(t, w, s0, rank0, own, u, g, caps, i);
        if cap.parentId !in objects {
          continue;
        }
        if cap.id in objects {
          continue;
        }
        CapturedOwner(s0, rank0, own, u, caps, i);
        OwnerPresent(w, rank, own, u, cap.parentId);
        NestedInsertable(w, rank, own, cap.obj, Uns, u);
        GraftStep(t, w, s0, g, cap);
        Restore(cap);
        g := g + {cap.id};
      }
      assert caps[..|caps|] == caps;
      CapturedAll(s0, rank0, own, u, caps, base);
    }

    /** Rebuild one device from a new config, keeping UNS nodes whose parents survive. */
    method ReplaceDeviceSubtree(ns: string, uuid: string, d: Device) returns (ghost built: Snap)
      requires Valid() && KeepsToItself(own, uuid, d)
      modifies this
      ensures Valid()
      ensures BuiltFrom(RemovedDevice(old(View()), own, uuid), built, ns, uuid, d)
      ensures WellFormed(old(View()), old(rank), own)
      ensures Grafted(built, View(), old(View()),
                      KeptSet(old(View()), old(rank), Ids(built)) * Owned(old(View()), own, uuid))
    {
      hide Wf, RemovedDevice, BuiltFrom, Grafted, KeptSet, Captures, PreOrder, Owned;
      ghost var s0, rank0 := View(), rank;
      RankedNow(s0, rank0, own);
      if Conf(uuid) !in objects {
        RemovedAbsent(s0, own, uuid);
        NoneWithoutDevice(s0, rank0, own, uuid);
        AddDevice(ns, uuid, d);
        built := View();
        NothingKept(s0, rank0, own, uuid, built);
        return;
      }
      var unsCaptures := CaptureUnsDescendants(Conf(uuid));
      DetachDevice(uuid);
      RemovedOwnsNothing(s0, rank0, own, uuid);
      BuildDevice(ns, uuid, d);
      built := View();
      Regraft(unsCaptures, s0, rank0, uuid);
    }

    /** One node of another snapshot, tagged as UNS, with its metadata and its listing. */
    method CopyNode(id: Id, prev: TreeSnapshot)
      requires prev != this && id in prev.objects
      modifies this
      ensures Overlaid(old(View()), View(), prev.View(), {id})
      ensures rank == old(rank)
    {
      hide Overlaid;
      var obj := prev.objects[id];
      OverlaidOne(View(), prev.View(), id);
      objects := objects[id := obj];
      sources := sources[id := Uns];
      children := children[obj.parentId := (if obj.parentId in children then children[obj.parentId] else {}) + {id}];
      if id in prev.metricMeta {
        metricMeta := metricMeta[id := prev.metricMeta[id]];
      }
    }

    /** Copy a UNS node of `prev`, with everything below it, into this snapshot. */
    method CopyUnsSubtree(id: Id, prev: TreeSnapshot)
      requires prev.Valid() && prev != this && id in prev.objects
      modifies this
      ensures Ranked(prev.View(), prev.rank)
      ensures Overlaid(old(View()), View(), prev.View(), Desc(prev.View(), prev.rank, id))
      ensures rank == old(rank)
      decreases Desc(prev.View(), prev.rank, id)
    {
      hide Wf, Overlaid, Desc, DescMany, Ranked, Linked;
      ghost var t, s, rk := View(), prev.View(), prev.rank;
      RankedNow(s, rk, prev.own);
      CopyNode(id, prev);
      ghost var g := {id};
      DescManyNone(s, rk, {id});
      if id in prev.children {
        ghost var kids := prev.children[id];
        var todo := prev.children[id];
        assert kids - todo == {};
        while todo != {}
          invariant todo <= kids && rank == old(rank) && prev.View() == s
          invariant g == {id} + DescMany(s, rk, kids - todo)
          invariant Overlaid(t, View(), s, g)
        {
          var childId :| childId in todo;
          KidInTree(s, rk, prev.own, id, childId);
          ChildDescSmaller(s, rk, childId, id);
          DescManyStep(s, rk, {id}, kids - todo, childId);
          ghost var w := View();
          CopyUnsSubtree(childId, prev);
          OverlaidTwice(t, w, View(), s, g, Desc(s, rk, childId));
          assert kids - todo + {childId} == kids - (todo - {childId});
          todo := todo - {childId};
          g := g + Desc(s, rk, childId);
        }
        assert kids - todo == kids;
      }
      DescOfKid(s, rk, id);
    }

    /** The ids of all nodes, in some order. */
    method AllKeys() returns (queue: seq<Id>)
      ensures Listed(queue) == objects.Keys
    {
      queue := [];
      var keys := objects.Keys;
      while keys != {}
        invariant objects.Keys == keys + Listed(queue)
      {
        var k :| k in keys;
        QueuePush(queue, k);
        queue := queue + [k];
        keys := keys - {k};
      }
    }

    /** Copy the UNS children of one node that are not there yet, and put them in the queue. */
    method CarryChildren(prev: TreeSnapshot, parentId: Id, waiting: seq<Id>, ghost t: Snap, ghost g0: set<Id>)
      returns (queue: seq<Id>, ghost g: set<Id>)
      requires prev.Valid() && prev != this && Ranked(prev.View(), prev.rank)
      requires Overlaid(t, View(), prev.View(), g0) && g0 <= Carried(prev.View(), prev.rank, Ids(t))
      requires CarryInner(t, prev.View(), prev.rank, g0, waiting, parentId, Kids(prev.View(), parentId))
      modifies this
      ensures Overlaid(t, View(), prev.View(), g) && rank == old(rank)
      ensures CarryLoop(t, prev.View(), prev.rank, g, queue) && QueueKnown(t, g, queue)
      ensures g0 <= g <= Carried(prev.View(), prev.rank, Ids(t))
      ensures g == g0 ==> queue == waiting
    {
      hide Wf, Overlaid, Desc, Ranked, Linked, Carried, Below, CarryRoot, Closed, CarryLoop, CarryInner, QueueKnown;
      ghost var s, rk := prev.View(), prev.rank;
      queue, g := waiting, g0;
      var todo := if parentId in prev.children then prev.children[parentId] else {};
      while todo != {}
        invariant todo <= Kids(s, parentId)
        invariant rank == old(rank) && prev.View() == s
        invariant Overlaid(t, View(), s, g) && g0 <= g <= Carried(s, rk, Ids(t))
        invariant CarryInner(t, s, rk, g, queue, parentId, todo)
        invariant g == g0 ==> queue == waiting
        decreases |todo|
      {
        var childId :| childId in todo;
        OverlaidIds(t, View(), s, g);
        CarryPick(t, s, rk, prev.own, g, queue, parentId, todo, childId);
        if childId !in objects && childId in prev.sources && prev.sources[childId] == Uns {
          ghost var w := View();
          CopyUnsSubtree(childId, prev);
          OverlaidTwice(t, w, View(), s, g, Desc(s, rk, childId));
          queue := queue + [childId];
          g := g + Desc(s, rk, childId);
        }
        todo := todo - {childId};
      }
      CarryPopped(t, s, rk, g, queue, parentId);
    }

    /** Carry the UNS nodes of `prev` over into this freshly built snapshot. */
    method PreserveUnsNodes(prev: TreeSnapshot)
      requires prev.Valid() && prev != this
      modifies this
      ensures Ranked(prev.View(), prev.rank)
      ensures Overlaid(old(View()), View(), prev.View(),
                       Carried(prev.View(), prev.rank, Ids(old(View()))))
      ensures rank == old(rank)
    {
      hide Wf, Overlaid, Ranked, Carried, Kids, CarryRoot, Closed, CarryLoop, CarryInner, QueueKnown;
      ghost var t, s, rk := View(), prev.View(), prev.rank;
      RankedNow(s, rk, prev.own);
      var queue := AllKeys();
      ghost var g: set<Id> := {};
      CarryStart(t, s, rk, queue);
      while queue != []
        invariant rank == old(rank) && prev.View() == s
        invariant Overlaid(t, View(), s, g)
        invariant CarryLoop(t, s, rk, g, queue) && QueueKnown(t, g, queue)
        decreases |Carried(s, rk, Ids(t)) - g|, |queue|
      {
        ghost var g0 := g;
        CarryPop(t, s, rk, prev.own, g, queue);
        queue, g := CarryChildren(prev, queue[0], queue[1..], t, g);
        if g != g0 {
          CarriedLess(Carried(s, rk, Ids(t)), g0, g);
        }
      }
      CarryDone(t, s, rk, g);
    }

    /** A child of `parentId` with the given display name, if there is one. */
    method FindChildByName(parentId: Id, name: string) returns (found: Option<Id>)
      ensures found.Some? <==> NamedChild(View(), parentId, name)
      ensures found.Some? ==>
        found.value in Kids(View(), parentId) && found.value in objects && objects[found.value].displayName == name
    {
      if parentId !in children {
        return None;
      }
      var todo := children[parentId];
      while todo != {}
        invariant todo <= children[parentId]
        invariant forall c :: c in children[parentId] && c !in todo && c in objects ==> objects[c].displayName != name
      {
        var childId :| childId in todo;
        if childId in objects && objects[childId].displayName == name {
          return Some(childId);
        }
        todo := todo - {childId};
      }
      return None;
    }

    /** One segment of a UNS message: the child of that name, or else the node with the wanted id, made if need be. */
    method AddUnsNode(parentId: Id, segment: string, instance: Option<string>, typeId: string, composition: bool)
      returns (elementId: Id)
      modifies this
      ensures elementId in objects
      ensures if NamedChild(old(View()), parentId, segment)
              then View() == old(View()) && elementId in Kids(View(), parentId) && objects[elementId].displayName == segment
              else elementId == (if instance.Some? then Conf(instance.value) else Metric(parentId, segment)) &&
                   View() == if elementId in old(objects) then old(View())
                             else Insert(old(View()), Obj(elementId, segment, typeId, parentId, composition), Uns)
      ensures rank == if elementId in old(objects) then old(rank) else RankUnder(old(rank), elementId, parentId)
    {
      hide NamedChild;
      var existing := FindChildByName(parentId, segment);
      elementId := if existing.Some? then existing.value else WantedId(parentId, segment, instance);
      if elementId !in objects {
        objects := objects[elementId := Obj(elementId, segment, typeId, parentId, composition)];
        sources := sources[elementId := Uns];
        ListUnder(parentId, elementId);
        rank := RankUnder(rank, elementId, parentId);
      }
    }

    /**
     * Record the nodes that a UNS message shows. The Instance_UUIDs of the
     * message belong to its device. The tree stays well formed if and only if
     * it has that device or the message has no segments.
     */
    method AddCompositionFromUns(instances: seq<string>, schemas: seq<string>, segments: seq<string>,
                                 isa95: seq<string>)
      returns (leaf: Id, ghost mid: Snap, ghost midRank: Id -> nat, ghost path: seq<Id>)
      requires Valid()
      requires instances != [] && own(instances[0]) == instances[0]
      requires forall i :: 0 <= i < |instances| ==> own(instances[i]) == instances[0]
      modifies this
      ensures Valid() <==> Conf(instances[0]) in old(objects) || segments == []
      ensures !Valid() ==> !exists r :: WellFormed(View(), r, own)
      ensures WellFormed(mid, midRank, own)
      ensures if Conf(instances[0]) in old(objects)
              then Reparented(old(View()), mid, Conf(instances[0]), isa95) && leaf in objects
              else mid == old(View()) && (segments == [] ==> View() == old(View()))
      ensures UnsGrew(mid, View(), own, instances[0]) && OwnedBy(own, instances[0], leaf)
      ensures path != [] && path[0] == Conf(instances[0]) && path[|path| - 1] == leaf
      ensures Shows(mid, View(), path, instances, schemas, segments, |segments|)
    {
      hide Wf, Reparented, UnsGrew, IsaId, Kids, WithPath, Grew, Shows, NamedChild, Insert, Showing;
      var u := instances[0];
      ghost var s0 := View();
      ghost var known := Conf(u) in objects;
      SameParent(s0, Conf(u));
      if isa95 != [] && Conf(u) in objects {
        LooserWf(s0, rank, own, Conf(u));
        NodeListed(s0, rank, own, Conf(u));
        EnsureIsa95Hierarchy(isa95, Conf(u));
        HangsFrom(s0, View(), Conf(u), isa95);
      }
      mid, midRank := View(), rank;
      leaf := Conf(u);
      path := [leaf];
      ShowsNothing(mid, leaf, instances, schemas, segments);
      ShowingStarts(known, mid, midRank, own, u);
      for i := 0 to |segments|
        invariant Showing(known, mid, midRank, View(), rank, own, u, leaf, i)
        invariant |path| == i + 1 && path[0] == Conf(u) && path[i] == leaf
        invariant Shows(mid, View(), path, instances, schemas, segments, i)
      {
        ghost var before, r, p, parent := View(), rank, path, leaf;
        leaf := AddUnsNode(leaf, segments[i], InstanceAt(instances, i), SchemaAt(schemas, i), i + 1 < |segments|);
        path := path + [leaf];
        ghost var o := Obj(leaf, segments[i], SchemaAt(schemas, i), parent, i + 1 < |segments|);
        ghost var wanted := WantedId(parent, segments[i], InstanceAt(instances, i));
        WantedOwned(own, u, parent, segments[i], InstanceAt(instances, i));
        ShowingStep(known, mid, midRank, before, r, View(), rank, own, u, parent, leaf, segments[i], wanted, o, i);
        ShowsStep(mid, before, View(), p, leaf, instances, schemas, segments, i);
      }
      ShowingEnds(known, mid, midRank, View(), rank, own, u, leaf, |segments|);
    }
  }

  predicate ListedRight(children: map<Id, set<Id>>, objects: map<Id, Obj>) {
    && (forall p :: p in children ==> forall c :: c in children[p] ==> c in objects && objects[c].parentId == p)
    && (forall c :: c in objects ==> objects[c].parentId in children && c in children[objects[c].parentId])
  }

  lemma LinkedIs(s: Snap)
    ensures ListedRight(s.children, s.objects) <==> Linked(s, {})
  {
    if ListedRight(s.children, s.objects) {
      forall p, c | c in Kids(s, p) ensures c in s.objects && s.objects[c].parentId == p {
        assert p in s.children;
      }
    }
    if Linked(s, {}) {
      forall p, c | p in s.children && c in s.children[p] ensures c in s.objects && s.objects[c].parentId == p {
        assert c in Kids(s, p);
      }
      forall c | c in s.objects ensures s.objects[c].parentId in s.children && c in s.children[s.objects[c].parentId] {
        assert c in Kids(s, s.objects[c].parentId);
      }
    }
  }

  // ---- What a UNS message puts into the tree ----

  function InstanceAt(instances: seq<string>, i: nat): Option<string> {
    if i + 1 < |instances| then Some(instances[i + 1]) else None
  }

  function SchemaAt(schemas: seq<string>, i: nat): string {
    if i + 1 < |schemas| then schemas[i + 1] else "unknown"
  }

  function WantedId(parentId: Id, segment: string, instance: Option<string>): Id {
    if instance.Some? then Conf(instance.value) else Metric(parentId, segment)
  }

  ghost predicate NamedChild(s: Snap, parentId: Id, segment: string) {
    exists c :: c in Kids(s, parentId) && c in s.objects && s.objects[c].displayName == segment
  }

  /**
   * The first `n` segments lead along `path`: each step goes to a child of that
   * name or to the id that the message implies. Whatever is new in `t` is on
   * the path and looks as the message says.
   */
  ghost predicate Shows(s: Snap, t: Snap, path: seq<Id>, instances: seq<string>, schemas: seq<string>,
                        segments: seq<string>, n: nat)
  {
    && |path| == n + 1 && n <= |segments|
    && (forall i :: 0 <= i < n ==>
          GoesTo(t, path[i], path[i + 1], segments[i], if i + 1 < |instances| then Some(instances[i + 1]) else None))
    && (forall c :: c in t.objects && c !in s.objects ==> FromSegment(t, c, path, schemas, segments))
  }

  predicate GoesTo(t: Snap, p: Id, c: Id, segment: string, instance: Option<string>) {
    && c in t.objects
    && ((t.objects[c].parentId == p && t.objects[c].displayName == segment) ||
        c == if instance.Some? then Conf(instance.value) else Metric(p, segment))
  }

  predicate IsSegment(t: Snap, c: Id, path: seq<Id>, schemas: seq<string>, segments: seq<string>, i: nat) {
    && i + 1 < |path| && i < |segments| && c == path[i + 1] && c in t.objects
    && t.objects[c].elementId == c && t.objects[c].displayName == segments[i] && t.objects[c].parentId == path[i]
    && t.objects[c].typeElementId == (if i + 1 < |schemas| then schemas[i + 1] else "unknown")
    && t.objects[c].isComposition == (i + 1 < |segments|)
  }

  ghost predicate FromSegment(t: Snap, c: Id, path: seq<Id>, schemas: seq<string>, segments: seq<string>) {
    exists i: nat :: IsSegment(t, c, path, schemas, segments, i)
  }

  lemma ShowsNothing(s: Snap, device: Id, instances: seq<string>, schemas: seq<string>, segments: seq<string>)
    ensures Shows(s, s, [device], instances, schemas, segments, 0)
  {
  }

  // ---- Nodes below a device that is not there ----

  /** The device is missing although something hangs from it, or it is itself such a discovered node. */
  ghost predicate Orphaned(s: Snap, u: string) {
    || IsUns(s, Conf(u))
    || (Conf(u) !in s.objects && exists c :: c in s.objects && s.objects[c].parentId == Conf(u))
  }

  lemma OrphanedIsWrong(s: Snap, own: string -> string, u: string)
    requires Orphaned(s, u) && own(u) == u
    ensures !exists r :: WellFormed(s, r, own)
  {
    forall r ensures !WellFormed(s, r, own) {
      if WellFormed(s, r, own) {
        if IsUns(s, Conf(u)) {
          DeviceIsConfig(s, r, own, u);
        } else {
          RankedNow(s, r, own);
        }
      }
    }
  }

  ghost predicate StepOf(s: Snap, t: Snap, parent: Id, next: Id, segment: string, wanted: Id, o: Obj) {
    if NamedChild(s, parent, segment)
    then t == s && next in Kids(s, parent) && next in s.objects && s.objects[next].displayName == segment
    else next == wanted && t == if next in s.objects then s else Insert(s, o, Uns)
  }

  /** What is listed is there and names its parent. */
  ghost predicate NamesParents(s: Snap) {
    forall p, c :: c in Kids(s, p) ==> c in s.objects && s.objects[c].parentId == p
  }

  lemma StepNamesParents(s: Snap, t: Snap, parent: Id, next: Id, segment: string, wanted: Id, o: Obj)
    requires NamesParents(s) && StepOf(s, t, parent, next, segment, wanted, o)
    requires o.elementId == next && o.parentId == parent
    ensures NamesParents(t) && next in t.objects
    ensures next == wanted || (t.objects[next].parentId == parent && t.objects[next].displayName == segment)
    ensures t.objects == s.objects || (next !in s.objects && t.objects == s.objects[next := o])
  {
    forall q ensures Kids(t, q) == Kids(s, q) + (if t != s && q == parent then {next} else {}) {}
  }

  lemma WantedOwned(own: string -> string, u: string, parent: Id, segment: string, instance: Option<string>)
    requires instance.Some? ==> own(instance.value) == u
    ensures OwnedBy(own, u, parent) ==> OwnedBy(own, u, WantedId(parent, segment, instance))
  {
  }

  /** A step below a device that is there keeps the tree well formed. */
  lemma UnsNodeStep(mid: Snap, s: Snap, rank: Id -> nat, t: Snap, rank': Id -> nat, own: string -> string, u: string,
                    parent: Id, next: Id, segment: string, wanted: Id, o: Obj)
    requires WellFormed(s, rank, own) && UnsGrew(mid, s, own, u) && own(u) == u && Conf(u) in s.objects
    requires parent in s.objects && OwnedBy(own, u, parent) && OwnedBy(own, u, wanted)
    requires StepOf(s, t, parent, next, segment, wanted, o) && o.elementId == next && o.parentId == parent
    requires rank' == if next in s.objects then rank else RankUnder(rank, next, parent)
    ensures WellFormed(t, rank', own) && UnsGrew(mid, t, own, u) && Conf(u) in t.objects
    ensures next in t.objects && OwnedBy(own, u, next)
  {
    hide Wf, UnsGrew, Insertable, NodeOk, Kids, Insert;
    if NamedChild(s, parent, segment) {
      ChildOwned(s, rank, own, u, parent, next);
    } else if next !in s.objects {
      NestedInsertable(s, rank, own, o, Uns, u);
      InsertKeepsWf(s, rank, own, {}, o, Uns);
      TidyNow(s, rank, own);
      UnsGrewInsert(mid, s, own, u, o);
      InsertedIs(s, o, Uns);
    }
  }

  /** The first step below a device that is not there. */
  lemma FirstOrphan(s: Snap, rank: Id -> nat, t: Snap, own: string -> string, u: string, next: Id,
                    segment: string, wanted: Id, o: Obj)
    requires WellFormed(s, rank, own) && own(u) == u && Conf(u) !in s.objects && OwnedBy(own, u, wanted)
    requires StepOf(s, t, Conf(u), next, segment, wanted, o) && o.elementId == next && o.parentId == Conf(u)
    ensures Orphaned(t, u)
  {
    hide Wf, NodeOk;
    NoneWithoutDevice(s, rank, own, u);
    NothingOwned(s, rank, own, u);
    RankedNow(s, rank, own);
    assert next in t.objects ==> t.objects[next].parentId == Conf(u);
  }

  lemma StillOrphaned(s: Snap, t: Snap, u: string, parent: Id, next: Id, segment: string, wanted: Id, o: Obj)
    requires Orphaned(s, u) && StepOf(s, t, parent, next, segment, wanted, o) && o.elementId == next
    ensures Orphaned(t, u)
  {
    if t != s && !IsUns(s, Conf(u)) && next != Conf(u) {
      var c :| c in s.objects && s.objects[c].parentId == Conf(u);
      assert c in t.objects && t.objects[c].parentId == Conf(u);
    }
  }

  /** Such a step, too, only adds nodes of the device. */
  lemma StrayStepGrows(mid: Snap, mrank: Id -> nat, s: Snap, t: Snap, own: string -> string, u: string,
                       parent: Id, next: Id, segment: string, wanted: Id, o: Obj)
    requires WellFormed(mid, mrank, own) && own(u) == u && Conf(u) !in mid.objects
    requires UnsGrew(mid, s, own, u) && NamesParents(s) && OwnedBy(own, u, parent) && OwnedBy(own, u, wanted)
    requires StepOf(s, t, parent, next, segment, wanted, o) && o.elementId == next && o.parentId == parent
    ensures UnsGrew(mid, t, own, u) && OwnedBy(own, u, next)
  {
    hide Wf, NodeOk, Kids, Insert, Ranked;
    if NamedChild(s, parent, segment) {
      if next in mid.objects {
        NoneWithoutDevice(mid, mrank, own, u);
        NothingOwned(mid, mrank, own, u);
        ParentThere(mid, mrank, own, next);
      }
    } else if next !in s.objects {
      UnsGrewInsert(mid, s, own, u, o);
    }
  }

  lemma ParentThere(s: Snap, rank: Id -> nat, own: string -> string, c: Id)
    requires WellFormed(s, rank, own) && c in s.objects
    ensures s.objects[c].parentId == Slash || s.objects[c].parentId in s.objects
  {
    hide NodeOk, Linked;
  }

  /** What holds after `i` segments of a message, where `leaf` is the node of the last one. */
  ghost predicate Showing(known: bool, mid: Snap, mrank: Id -> nat, s: Snap, rank: Id -> nat,
                          own: string -> string, u: string, leaf: Id, i: nat)
  {
    && NamesParents(s) && UnsGrew(mid, s, own, u) && OwnedBy(own, u, leaf)
    && if known then
         WellFormed(s, rank, own) && Conf(u) in s.objects && leaf in s.objects
       else
         && WellFormed(mid, mrank, own) && Conf(u) !in mid.objects
         && if i == 0 then s == mid && rank == mrank && leaf == Conf(u) else Orphaned(s, u)
  }

  lemma ShowingStarts(known: bool, mid: Snap, rank: Id -> nat, own: string -> string, u: string)
    requires WellFormed(mid, rank, own) && own(u) == u && (known <==> Conf(u) in mid.objects)
    ensures Showing(known, mid, rank, mid, rank, own, u, Conf(u), 0)
  {
    hide Wf, UnsGrew, NamesParents;
    UnsGrewNone(mid, rank, own, u);
    ParentsKnown(mid, rank, own);
  }

  lemma ShowingStep(known: bool, mid: Snap, mrank: Id -> nat, s: Snap, rank: Id -> nat, t: Snap, rank': Id -> nat,
                    own: string -> string, u: string, parent: Id, next: Id, segment: string, wanted: Id, o: Obj, i: nat)
    requires Showing(known, mid, mrank, s, rank, own, u, parent, i) && own(u) == u
    requires OwnedBy(own, u, parent) ==> OwnedBy(own, u, wanted)
    requires StepOf(s, t, parent, next, segment, wanted, o) && o.elementId == next && o.parentId == parent
    requires rank' == if next in s.objects then rank else RankUnder(rank, next, parent)
    ensures Showing(known, mid, mrank, t, rank', own, u, next, i + 1) && next in t.objects
    ensures next == wanted || (t.objects[next].parentId == parent && t.objects[next].displayName == segment)
    ensures t.objects == s.objects || (next !in s.objects && t.objects == s.objects[next := o])
  {
    hide Wf, UnsGrew, NamesParents, Orphaned, StepOf;
    if known {
      UnsNodeStep(mid, s, rank, t, rank', own, u, parent, next, segment, wanted, o);
    } else {
      StrayStepGrows(mid, mrank, s, t, own, u, parent, next, segment, wanted, o);
      if i == 0 {
        FirstOrphan(s, rank, t, own, u, next, segment, wanted, o);
      } else {
        StillOrphaned(s, t, u, parent, next, segment, wanted, o);
      }
    }
    StepNamesParents(s, t, parent, next, segment, wanted, o);
  }

  lemma ShowingEnds(known: bool, mid: Snap, mrank: Id -> nat, s: Snap, rank: Id -> nat, own: string -> string,
                    u: string, leaf: Id, n: nat)
    requires Showing(known, mid, mrank, s, rank, own, u, leaf, n) && own(u) == u
    ensures UnsGrew(mid, s, own, u) && OwnedBy(own, u, leaf)
    ensures known ==> WellFormed(s, rank, own) && leaf in s.objects
    ensures !known && n == 0 ==> s == mid && WellFormed(s, rank, own)
    ensures !known && n != 0 ==> !exists r :: WellFormed(s, r, own)
  {
    hide Wf, UnsGrew, NamesParents, Orphaned;
    if !known && n != 0 {
      OrphanedIsWrong(s, own, u);
    }
  }

  lemma ParentsKnown(s: Snap, rank: Id -> nat, own: string -> string)
    requires WellFormed(s, rank, own)
    ensures NamesParents(s)
  {
  }

  lemma InsertedIs(s: Snap, o: Obj, src: Source)
    ensures Insert(s, o, src).objects == s.objects[o.elementId := o]
  {
  }

  lemma ShowsStep(s: Snap, t: Snap, t': Snap, path: seq<Id>, next: Id, instances: seq<string>,
                  schemas: seq<string>, segments: seq<string>, i: nat)
    requires i < |segments| && Shows(s, t, path, instances, schemas, segments, i)
    requires next in t'.objects
    requires var o := Obj(next, segments[i], SchemaAt(schemas, i), path[i], i + 1 < |segments|);
      t'.objects == t.objects || (next !in t.objects && t'.objects == t.objects[next := o])
    requires next == WantedId(path[i], segments[i], InstanceAt(instances, i)) ||
             (t'.objects[next].parentId == path[i] && t'.objects[next].displayName == segments[i])
    ensures Shows(s, t', path + [next], instances, schemas, segments, i + 1)
  {
    hide GoesTo, IsSegment;
    var longer := path + [next];
    forall j | 0 <= j < i + 1
      ensures GoesTo(t', longer[j], longer[j + 1], segments[j], InstanceAt(instances, j))
    {
      if j < i {
        assert longer[j] == path[j] && longer[j + 1] == path[j + 1];
        StillGoesTo(t, t', path[j], path[j + 1], segments[j], InstanceAt(instances, j));
      } else {
        NowGoesTo(t', path[i], next, segments[i], InstanceAt(instances, i));
      }
    }
    forall c | c in t'.objects && c !in s.objects ensures FromSegment(t', c, longer, schemas, segments) {
      if c in t.objects {
        assert FromSegment(t, c, path, schemas, segments);
        var j: nat :| IsSegment(t, c, path, schemas, segments, j);
        StillSegment(t, t', c, path, next, schemas, segments, j);
      } else {
        NewSegment(t', c, path, schemas, segments, i);
      }
    }
  }

  lemma StillGoesTo(t: Snap, t': Snap, p: Id, c: Id, segment: string, instance: Option<string>)
    requires GoesTo(t, p, c, segment, instance)
    requires forall x :: x in t.objects ==> x in t'.objects && t'.objects[x] == t.objects[x]
    ensures GoesTo(t', p, c, segment, instance)
  {
  }

  lemma NowGoesTo(t: Snap, p: Id, c: Id, segment: string, instance: Option<string>)
    requires c in t.objects
    requires c == WantedId(p, segment, instance) || (t.objects[c].parentId == p && t.objects[c].displayName == segment)
    ensures GoesTo(t, p, c, segment, instance)
  {
  }

  lemma StillSegment(t: Snap, t': Snap, c: Id, path: seq<Id>, next: Id, schemas: seq<string>, segments: seq<string>,
                     j: nat)
    requires IsSegment(t, c, path, schemas, segments, j) && c in t'.objects && t'.objects[c] == t.objects[c]
    ensures IsSegment(t', c, path + [next], schemas, segments, j)
  {
  }

  lemma NewSegment(t: Snap, c: Id, path: seq<Id>, schemas: seq<string>, segments: seq<string>, i: nat)
    requires i < |segments| && |path| == i + 1 && c in t.objects
    requires t.objects[c] == Obj(c, segments[i], SchemaAt(schemas, i), path[i], i + 1 < |segments|)
    ensures IsSegment(t, c, path + [c], schemas, segments, i)
  {
  }
}
