/**
 * What stays true of a tree and its configuration when messages have moved
 * devices: it holds the nodes that the configuration asks for, wherever the
 * devices hang.
 */
module TreeHeld {
  import opened Basics
  import opened OriginMaps
  import opened TreeShape
  import opened TreeSpec
  import opened TreeFacts
  import opened TreeConfig
  import opened TreeUns

  /** Nothing about `id` differs between two snapshots. */
  ghost predicate SameAt(s: Snap, t: Snap, id: Id) {
    && (id in s.objects <==> id in t.objects)
    && (id in s.sources <==> id in t.sources)
    && (id in s.metricMeta <==> id in t.metricMeta)
    && (id in s.objects ==> s.objects[id] == t.objects[id])
    && (id in s.sources ==> s.sources[id] == t.sources[id])
    && (id in s.metricMeta ==> s.metricMeta[id] == t.metricMeta[id])
  }

  /** The same node, or the same device under another parent. */
  predicate SameButHung(own: string -> string, id: Id, a: Obj, b: Obj) {
    a == b || (IsDevice(own, id) && a == b.(parentId := a.parentId))
  }

  /** The configuration node with this id is there if and only if it is asked for, and looks as asked. */
  ghost predicate HeldAt(s: Snap, own: string -> string, ns: string, m: map<string, Device>, id: Id)
    requires Owner(own, id).Some?
  {
    var u := Owner(own, id).value;
    && (IsConfig(s, id) <==> CfgHas(own, ns, m, id))
    && (IsConfig(s, id) ==>
          && SameButHung(own, id, s.objects[id], DevObjs(ns, u, m[u])[id])
          && (id in s.metricMeta <==> id in DevMeta(u, m[u]))
          && (id in s.metricMeta ==> s.metricMeta[id] == DevMeta(u, m[u])[id]))
  }

  /** The tree holds every configuration node of every device, and no other. */
  ghost predicate ConfigHeld(s: Snap, own: string -> string, ns: string, m: map<string, Device>) {
    forall id :: Owner(own, id).Some? ==> HeldAt(s, own, ns, m, id)
  }

  /** If the configuration places the device, it hangs from the end of its configured path. */
  predicate InPlace(s: Snap, ns: string, m: map<string, Device>, u: string) {
    u in m && Placed(m[u]) ==>
      Conf(u) in s.objects && s.objects[Conf(u)].parentId == Leaf(ns, m[u].devInfo.value)
  }

  lemma CfgIsHeld(s: Snap, own: string -> string, ns: string, m: map<string, Device>, id: Id)
    requires Owner(own, id).Some? && CfgAt(s, own, ns, m, id)
    ensures HeldAt(s, own, ns, m, id)
  {
    hide DevObjs, DevMeta;
  }

  lemma EqIsHeld(s: Snap, own: string -> string, ns: string, m: map<string, Device>)
    requires ConfigEq(s, own, ns, m)
    ensures ConfigHeld(s, own, ns, m)
  {
    hide CfgAt, HeldAt;
    forall id | Owner(own, id).Some? ensures HeldAt(s, own, ns, m, id) {
      CfgIsHeld(s, own, ns, m, id);
    }
  }

  /** The tree of a configuration holds it, with every device in its place. */
  lemma TreeOfConfig(s: Snap, own: string -> string, ns: string, m: map<string, Device>)
    requires ConfigEq(s, own, ns, m) && GoodDevices(own, m)
    ensures ConfigHeld(s, own, ns, m) && forall u :: InPlace(s, ns, m, u)
  {
    hide CfgAt, HeldAt, KeepsToItself, Leaf;
    EqIsHeld(s, own, ns, m);
    forall u ensures InPlace(s, ns, m, u) {
      if u in m && Placed(m[u]) {
        PlacedDevice(s, own, ns, m, u);
        DeviceAtLeaf(ns, u, m[u]);
      }
    }
  }

  /** What is the same and asked for alike is held alike. */
  lemma HeldElsewhere(s: Snap, t: Snap, own: string -> string, ns: string,
                      m: map<string, Device>, m': map<string, Device>, id: Id)
    requires Owner(own, id).Some? && HeldAt(s, own, ns, m, id) && SameAt(s, t, id)
    requires var v := Owner(own, id).value; (v in m <==> v in m') && (v in m ==> m[v] == m'[v])
    ensures HeldAt(t, own, ns, m', id)
  {
    hide DevObjs, DevMeta, SameButHung;
  }

  lemma HeldOf(s: Snap, own: string -> string, ns: string, m: map<string, Device>, id: Id)
    requires ConfigHeld(s, own, ns, m) && Owner(own, id).Some?
    ensures HeldAt(s, own, ns, m, id)
  {
  }

  /** A device that the tree has is one that the configuration places, and the other way round. */
  lemma HeldDevice(s: Snap, rank: Id -> nat, own: string -> string, ns: string, m: map<string, Device>, u: string)
    requires WellFormed(s, rank, own) && own(u) == u && HeldAt(s, own, ns, m, Conf(u))
    ensures Conf(u) in s.objects <==> u in m && Placed(m[u])
  {
    hide Wf, NodeOk, DeviceNodes, DevMeta, SameButHung;
    if Conf(u) in s.objects {
      DeviceIsConfig(s, rank, own, u);
    }
    if u in m && Placed(m[u]) {
      PlaceObjsGrows(map[Conf(u) := DeviceObj(ns, u, m[u])], DeviceNodes(u, m[u].devInfo.value));
    }
  }

  /** A device the configuration does not have has no nodes. */
  lemma StrangerHasNone(s: Snap, rank: Id -> nat, own: string -> string, ns: string, m: map<string, Device>, v: string)
    requires WellFormed(s, rank, own) && ConfigHeld(s, own, ns, m) && v !in m
    ensures Owned(s, own, v) == {}
  {
    hide Wf, NodeOk, HeldAt, ConfigHeld;
    forall c | c in s.objects ensures !OwnedBy(own, v, c) {
      if OwnedBy(own, v, c) {
        OwnerPresent(s, rank, own, v, c);
        OwnerIsDevice(s, rank, own, c);
        HeldOf(s, own, ns, m, Conf(v));
        HeldDevice(s, rank, own, ns, m, v);
      }
    }
  }

  // ---- Messages ----

  /** An object after a message: a device that the message moves hangs elsewhere, all else is as before. */
  function AfterMessage(o: Obj, id: Id, u: string, isa95: seq<string>): Obj {
    if id == Conf(u) && isa95 != [] then o.(parentId := IsaId(isa95)) else o
  }

  lemma ReparentedAt(s: Snap, rank: Id -> nat, mid: Snap, own: string -> string, u: string, isa95: seq<string>, id: Id)
    requires WellFormed(s, rank, own) && Owner(own, id).Some?
    requires Reparented(s, mid, Conf(u), isa95) && Conf(u) in s.objects
    ensures mid.metricMeta == s.metricMeta && mid.sources.Keys == mid.objects.Keys
    ensures id in mid.objects <==> id in s.objects
    ensures id in s.objects ==>
      mid.objects[id] == AfterMessage(s.objects[id], id, u, isa95) && mid.sources[id] == s.sources[id]
  {
    hide Wf, NodeOk, IsaId;
    KeysAgree(s, rank, own);
    if isa95 != [] {
      WithPathIs(s.objects, IsaId(isa95));
      NotAbove(IsaId(isa95), id);
    }
  }

  lemma MessageAt(s: Snap, rank: Id -> nat, mid: Snap, t: Snap, own: string -> string, u: string,
                  isa95: seq<string>, id: Id)
    requires WellFormed(s, rank, own) && Owner(own, id).Some?
    requires Reparented(s, mid, Conf(u), isa95) && Conf(u) in s.objects && UnsGrew(mid, t, own, u)
    ensures t.metricMeta == s.metricMeta
    ensures id in s.objects ==>
      && id in t.objects && t.objects[id] == AfterMessage(s.objects[id], id, u, isa95)
      && (IsConfig(t, id) <==> IsConfig(s, id))
    ensures id !in s.objects ==> !IsConfig(t, id)
  {
    hide Wf, NodeOk, Reparented, AfterMessage;
    KeysAgree(s, rank, own);
    ReparentedAt(s, rank, mid, own, u, isa95, id);
  }

  lemma HeldThrough(s: Snap, t: Snap, own: string -> string, ns: string, m: map<string, Device>, u: string,
                    isa95: seq<string>, id: Id)
    requires Owner(own, id).Some? && HeldAt(s, own, ns, m, id) && own(u) == u
    requires t.metricMeta == s.metricMeta && (IsConfig(t, id) <==> IsConfig(s, id))
    requires IsConfig(s, id) ==> t.objects[id] == AfterMessage(s.objects[id], id, u, isa95)
    ensures HeldAt(t, own, ns, m, id)
  {
    hide DevObjs, DevMeta, CfgHas, IsaId;
  }

  lemma MessageHeld(s: Snap, rank: Id -> nat, mid: Snap, t: Snap, own: string -> string, ns: string,
                    m: map<string, Device>, u: string, isa95: seq<string>)
    requires WellFormed(s, rank, own) && ConfigHeld(s, own, ns, m) && GoodDevices(own, m)
    requires own(u) == u && Conf(u) in s.objects
    requires Reparented(s, mid, Conf(u), isa95) && UnsGrew(mid, t, own, u)
    ensures ConfigHeld(t, own, ns, m) && u in m && Placed(m[u])
    ensures forall v :: v != u ==> (InPlace(t, ns, m, v) <==> InPlace(s, ns, m, v))
    ensures InPlace(t, ns, m, u) <==>
            if isa95 == [] then InPlace(s, ns, m, u) else isa95 == DevicePath(ns, m[u].devInfo.value)
  {
    hide Wf, NodeOk, HeldAt, Reparented, UnsGrew, IsaId, DevicePath, KeepsToItself, GoodDevices;
    forall id | Owner(own, id).Some?
      ensures HeldAt(t, own, ns, m, id)
      ensures id in s.objects ==> id in t.objects && t.objects[id] == AfterMessage(s.objects[id], id, u, isa95)
    {
      assert HeldAt(s, own, ns, m, id);
      MessageAt(s, rank, mid, t, own, u, isa95, id);
      HeldThrough(s, t, own, ns, m, u, isa95, id);
    }
    forall v | own(v) == v ensures Conf(v) in s.objects <==> v in m && Placed(m[v]) {
      assert Owner(own, Conf(v)) == Some(v);
      HeldDevice(s, rank, own, ns, m, v);
    }
    forall v | v in m ensures own(v) == v && Owner(own, Conf(v)) == Some(v) {
      GoodIsOwn(own, m, v);
    }
    assert Owner(own, Conf(u)) == Some(u);
    if isa95 != [] && IsaId(isa95) == Leaf(ns, m[u].devInfo.value) {
      IsaIdInjective(isa95, DevicePath(ns, m[u].devInfo.value));
    }
  }

  lemma GoodIsOwn(own: string -> string, m: map<string, Device>, u: string)
    requires GoodDevices(own, m) && u in m
    ensures own(u) == u
  {
  }
}
