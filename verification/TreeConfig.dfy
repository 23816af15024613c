/**
 * What the configuration part of the tree should be, as a function of one
 * emission and of nothing else, and that every operation keeps to it.
 */
module TreeConfig {
  import opened OriginMaps
  import opened TreeShape
  import opened TreeSpec
  import opened TreeFacts

  /** One emission of the ConfigDB pipeline. */
  datatype Emission = Emission(devices: map<string, Device>, schemas: map<string, Schema>)

  /** The nodes one device contributes: itself and its metric tree. */
  function DevObjs(ns: string, u: string, d: Device): map<Id, Obj> {
    if Placed(d) then PlaceObjs(map[Conf(u) := DeviceObj(ns, u, d)], DeviceNodes(u, d.devInfo.value)) else map[]
  }

  function DevMeta(u: string, d: Device): map<Id, MetricMeta> {
    BuiltMeta(map[], u, d)
  }

  /** Some placed device has the ISA-95 node `x` above it. */
  ghost predicate OnSomePath(ns: string, m: map<string, Device>, x: Id) {
    exists u :: u in m && Placed(m[u]) && x in IsaAbove(Leaf(ns, m[u].devInfo.value))
  }

  /** The configuration asks for a node with this id. */
  ghost predicate CfgHas(own: string -> string, ns: string, m: map<string, Device>, id: Id) {
    if id.Isa? then OnSomePath(ns, m, id)
    else
      var o := Owner(own, id);
      o.Some? && o.value in m && id in DevObjs(ns, o.value, m[o.value])
  }

  ghost function CfgIds(own: string -> string, ns: string, m: map<string, Device>): iset<Id> {
    iset id | CfgHas(own, ns, m, id)
  }

  /** ... and this is the node it asks for. */
  ghost predicate CfgIs(s: Snap, own: string -> string, ns: string, m: map<string, Device>, id: Id)
    requires CfgHas(own, ns, m, id) && id in s.objects
  {
    if id.Isa? then s.objects[id] == IsaObj(id.up, id.segment)
    else
      var u := Owner(own, id).value;
      && s.objects[id] == DevObjs(ns, u, m[u])[id]
      && (id in s.metricMeta <==> id in DevMeta(u, m[u]))
      && (id in s.metricMeta ==> s.metricMeta[id] == DevMeta(u, m[u])[id])
  }

  ghost predicate CfgAt(s: Snap, own: string -> string, ns: string, m: map<string, Device>, id: Id) {
    && (IsConfig(s, id) <==> CfgHas(own, ns, m, id))
    && (IsConfig(s, id) ==> CfgIs(s, own, ns, m, id))
  }

  /** The configuration nodes of `s` are exactly those of the emission. */
  ghost predicate ConfigEq(s: Snap, own: string -> string, ns: string, m: map<string, Device>) {
    forall id :: CfgAt(s, own, ns, m, id)
  }

  ghost predicate GoodDevices(own: string -> string, m: map<string, Device>) {
    forall u :: u in m ==> KeepsToItself(own, u, m[u])
  }

  // ---- Adding a device ----

  /** Two maps agree on what a device owns. */
  ghost predicate AgreeOwned<V>(a: map<Id, V>, b: map<Id, V>, own: string -> string, u: string) {
    forall id :: OwnedBy(own, u, id) ==> (id in a <==> id in b) && (id in a ==> a[id] == b[id])
  }

  ghost predicate AgreeElsewhere<V>(a: map<Id, V>, b: map<Id, V>, own: string -> string, u: string) {
    forall id :: !OwnedBy(own, u, id) ==> (id in a <==> id in b) && (id in a ==> a[id] == b[id])
  }

  lemma {:induction false} PlaceObjsFrame(a: map<Id, Obj>, b: map<Id, Obj>, ps: seq<Placement>,
                                          own: string -> string, u: string)
    requires AllOwned(own, u, ps) && AgreeOwned(a, b, own, u)
    ensures AgreeOwned(PlaceObjs(a, ps), PlaceObjs(b, ps), own, u)
    ensures AgreeElsewhere(PlaceObjs(a, ps), a, own, u)
    decreases ps
  {
    if ps != [] {
      var o := ps[0].obj;
      assert forall i :: 0 <= i < |ps[1..]| ==> ps[1..][i] == ps[i + 1];
      PlaceObjsFrame(if o.elementId in a then a else a[o.elementId := o],
                     if o.elementId in b then b else b[o.elementId := o], ps[1..], own, u);
    }
  }

  lemma {:induction false} PlaceMetaFrame(a: map<Id, MetricMeta>, b: map<Id, MetricMeta>, ps: seq<Placement>,
                                          own: string -> string, u: string)
    requires AllOwned(own, u, ps) && AgreeOwned(a, b, own, u)
    ensures AgreeOwned(PlaceMeta(a, ps), PlaceMeta(b, ps), own, u)
    ensures AgreeElsewhere(PlaceMeta(a, ps), a, own, u)
    decreases ps
  {
    if ps != [] {
      var p := ps[0];
      assert forall i :: 0 <= i < |ps[1..]| ==> ps[1..][i] == ps[i + 1];
      PlaceMetaFrame(if p.meta.Some? then a[p.obj.elementId := p.meta.value] else a,
                     if p.meta.Some? then b[p.obj.elementId := p.meta.value] else b, ps[1..], own, u);
    }
  }

  /** Building a device puts its nodes in, adds its ISA-95 levels and touches nothing else. */
  lemma BuiltParts(s: Snap, t: Snap, ns: string, own: string -> string, u: string, d: Device)
    requires BuiltFrom(s, t, ns, u, d) && KeepsToItself(own, u, d)
    requires forall id :: OwnedBy(own, u, id) ==> id !in s.objects && id !in s.metricMeta
    ensures AgreeOwned(t.objects, DevObjs(ns, u, d), own, u)
    ensures AgreeOwned(t.metricMeta, DevMeta(u, d), own, u)
    ensures AgreeElsewhere(t.metricMeta, s.metricMeta, own, u)
    ensures Placed(d) ==> AgreeElsewhere(t.objects, WithPath(s.objects, Leaf(ns, d.devInfo.value)), own, u)
    ensures !Placed(d) ==> t.objects == s.objects
  {
    hide PlaceObjs, PlaceMeta, WithPath, DeviceNodes, Grew, AllOwned;
    if Placed(d) {
      var leaf, nodes := Leaf(ns, d.devInfo.value), DeviceNodes(u, d.devInfo.value);
      var above, o := WithPath(s.objects, leaf), DeviceObj(ns, u, d);
      WithPathIs(s.objects, leaf);
      assert OwnedBy(own, u, Conf(u));
      assert AgreeOwned(above[Conf(u) := o], map[Conf(u) := o], own, u);
      PlaceObjsFrame(above[Conf(u) := o], map[Conf(u) := o], nodes, own, u);
      PlaceMetaFrame(s.metricMeta, map[], nodes, own, u);
    }
  }

  /** An id of the new device: what the new device asks for, and no more. */
  lemma AddCfgOwned(t: Snap, own: string -> string, ns: string, m: map<string, Device>, u: string, d: Device, id: Id)
    requires OwnedBy(own, u, id) && u in m && m[u] == d
    requires AgreeOwned(t.objects, DevObjs(ns, u, d), own, u) && AgreeOwned(t.metricMeta, DevMeta(u, d), own, u)
    requires t.sources.Keys == t.objects.Keys && (id in t.sources ==> t.sources[id] == Config)
    ensures CfgAt(t, own, ns, m, id)
  {
    hide DevObjs, DevMeta;
  }

  /** An id of another device: nothing changes. */
  lemma CfgElsewhere(s: Snap, t: Snap, own: string -> string, ns: string,
                     m: map<string, Device>, m': map<string, Device>, id: Id)
    requires !id.Isa? && CfgAt(s, own, ns, m, id)
    requires Owner(own, id).Some? ==>
      var v := Owner(own, id).value; (v in m <==> v in m') && (v in m ==> m[v] == m'[v])
    requires id in s.objects <==> id in t.objects
    requires id in s.sources <==> id in t.sources
    requires id in s.metricMeta <==> id in t.metricMeta
    requires id in s.objects ==> t.objects[id] == s.objects[id]
    requires id in s.sources ==> t.sources[id] == s.sources[id]
    requires id in s.metricMeta ==> t.metricMeta[id] == s.metricMeta[id]
    ensures CfgAt(t, own, ns, m', id)
  {
    hide DevObjs, DevMeta;
  }

  lemma AddCfgAt(s: Snap, t: Snap, rank: Id -> nat, ns: string, own: string -> string,
                 m: map<string, Device>, u: string, d: Device, id: Id)
    requires WellFormed(s, rank, own) && Owned(s, own, u) == {}
    requires CfgAt(s, own, ns, m, id) && u !in m
    requires BuiltFrom(s, t, ns, u, d) && KeepsToItself(own, u, d)
    ensures CfgAt(t, own, ns, m[u := d], id)
  {
    hide Wf, WithPath, BuiltFrom, Owned, KeepsToItself, CfgAt, DevObjs, DevMeta, NodeOk;
    NothingOwned(s, rank, own, u);
    BuiltParts(s, t, ns, own, u, d);
    BuiltGrew(s, t, ns, u, d);
    KeysAgree(s, rank, own);
    if OwnedBy(own, u, id) {
      AddCfgOwned(t, own, ns, m[u := d], u, d, id);
    } else if id.Isa? {
      if id in s.objects {
        IsaIsConfig(s, rank, own, id);
      }
      AddPath(s, t, ns, own, m, u, d, id);
    } else {
      AddCfgElsewhere(s, t, ns, own, m, u, d, id);
    }
  }

  lemma AddCfgElsewhere(s: Snap, t: Snap, ns: string, own: string -> string,
                        m: map<string, Device>, u: string, d: Device, id: Id)
    requires CfgAt(s, own, ns, m, id) && u !in m && !id.Isa? && !OwnedBy(own, u, id)
    requires s.sources.Keys == s.objects.Keys && Grew(s, t)
    requires AgreeElsewhere(t.metricMeta, s.metricMeta, own, u)
    requires if Placed(d) then AgreeElsewhere(t.objects, WithPath(s.objects, Leaf(ns, d.devInfo.value)), own, u)
             else t.objects == s.objects
    ensures CfgAt(t, own, ns, m[u := d], id)
  {
    hide WithPath, CfgAt;
    if Placed(d) {
      WithPathIs(s.objects, Leaf(ns, d.devInfo.value));
      NotAbove(Leaf(ns, d.devInfo.value), id);
    }
    CfgElsewhere(s, t, own, ns, m, m[u := d], id);
  }

  lemma NotAbove(leaf: Id, id: Id)
    requires !id.Isa?
    ensures id !in IsaAbove(leaf)
  {
  }

  lemma BuiltGrew(s: Snap, t: Snap, ns: string, u: string, d: Device)
    requires BuiltFrom(s, t, ns, u, d)
    ensures Grew(s, t)
  {
  }

  lemma NothingOwned(s: Snap, rank: Id -> nat, own: string -> string, u: string)
    requires WellFormed(s, rank, own) && Owned(s, own, u) == {}
    ensures forall id :: OwnedBy(own, u, id) ==> id !in s.objects && id !in s.metricMeta
  {
    forall id | OwnedBy(own, u, id) ensures id !in s.objects {
      assert id !in Owned(s, own, u);
    }
  }

  lemma AddPath(s: Snap, t: Snap, ns: string, own: string -> string, m: map<string, Device>,
                u: string, d: Device, id: Id)
    requires id.Isa? && u !in m && CfgAt(s, own, ns, m, id)
    requires s.sources.Keys == s.objects.Keys && Grew(s, t)
    requires id in s.objects ==> IsConfig(s, id)
    requires if Placed(d) then AgreeElsewhere(t.objects, WithPath(s.objects, Leaf(ns, d.devInfo.value)), own, u)
             else t.objects == s.objects
    ensures CfgAt(t, own, ns, m[u := d], id)
  {
    hide WithPath, IsaAbove;
    var m' := m[u := d];
    assert OnSomePath(ns, m', id) <==>
      OnSomePath(ns, m, id) || (Placed(d) && id in IsaAbove(Leaf(ns, d.devInfo.value))) by
    {
      if v :| v in m && Placed(m[v]) && id in IsaAbove(Leaf(ns, m[v].devInfo.value)) {
        assert m'[v] == m[v];
      }
      if Placed(d) && id in IsaAbove(Leaf(ns, d.devInfo.value)) {
        assert m'[u] == d;
      }
    }
    if Placed(d) {
      WithPathIs(s.objects, Leaf(ns, d.devInfo.value));
      assert !OwnedBy(own, u, id);
    }
  }

  lemma IsaIsConfig(s: Snap, rank: Id -> nat, own: string -> string, id: Id)
    requires WellFormed(s, rank, own) && id.Isa? && id in s.objects
    ensures IsConfig(s, id)
  {
    assert NodeOk(s, own, {}, id);
  }

  lemma AddCfg(s: Snap, t: Snap, rank: Id -> nat, ns: string, own: string -> string,
               m: map<string, Device>, u: string, d: Device)
    requires WellFormed(s, rank, own) && Owned(s, own, u) == {}
    requires ConfigEq(s, own, ns, m) && u !in m
    requires BuiltFrom(s, t, ns, u, d) && KeepsToItself(own, u, d)
    ensures ConfigEq(t, own, ns, m[u := d])
  {
    hide Wf, CfgAt, BuiltFrom, KeepsToItself, Owned;
    var m' := m[u := d];
    forall id ensures CfgAt(t, own, ns, m', id) {
      AddCfgAt(s, t, rank, ns, own, m, u, d, id);
    }
  }

  // ---- Removing a device ----

  /** Between two steps of the clean-up below `x`: which ISA-95 nodes are still there. */
  ghost predicate CleaningAt(s: Snap, own: string -> string, ns: string, m: map<string, Device>, x: Id) {
    && (forall y: Id :: y.Isa? && y in s.objects ==> OnSomePath(ns, m, y) || y in IsaAbove(x))
    && (forall y: Id :: y.Isa? && OnSomePath(ns, m, y) ==> y in s.objects)
    && (forall id: Id :: !id.Isa? ==> CfgAt(s, own, ns, m, id))
  }

  /** An ISA-95 node still has a child exactly when some remaining device hangs below it. */
  lemma ChildlessIffUnused(s: Snap, rank: Id -> nat, own: string -> string, ns: string,
                           m: map<string, Device>, x: Id)
    requires WellFormed(s, rank, own) && GoodDevices(own, m) && CleaningAt(s, own, ns, m, x)
    requires x.Isa?
    ensures Kids(s, x) != {} <==> OnSomePath(ns, m, x)
  {
    hide Wf, NodeOk, CfgAt, DeviceNodes, Kids, Leaf, IsaAbove, CleaningAt, KeepsToItself, SchemaOf;
    if Kids(s, x) != {} {
      var c :| c in Kids(s, x);
      KidUsesParent(s, rank, own, ns, m, x, c);
    }
    if u :| u in m && Placed(m[u]) && x in IsaAbove(Leaf(ns, m[u].devInfo.value)) {
      UsedHasKid(s, rank, own, ns, m, x, u);
    }
  }

  lemma UsedHasKid(s: Snap, rank: Id -> nat, own: string -> string, ns: string, m: map<string, Device>, x: Id,
                   u: string)
    requires WellFormed(s, rank, own) && GoodDevices(own, m) && CleaningAt(s, own, ns, m, x)
    requires u in m && Placed(m[u]) && x in IsaAbove(Leaf(ns, m[u].devInfo.value))
    ensures Kids(s, x) != {}
  {
    hide Wf, NodeOk, CfgAt, DeviceNodes, Kids, Leaf, IsaAbove, KeepsToItself, SchemaOf;
    var leaf := Leaf(ns, m[u].devInfo.value);
    if x == leaf {
      PlacedDevice(s, own, ns, m, u);
      DeviceAtLeaf(ns, u, m[u]);
      NodeListed(s, rank, own, Conf(u));
    } else {
      var y := NextDown(leaf, x);
      assert OnSomePath(ns, m, y);
      IsaUp(s, rank, own, y);
      NodeListed(s, rank, own, y);
    }
  }

  lemma {:induction false} NextDown(leaf: Id, x: Id) returns (y: Id)
    requires x in IsaAbove(leaf) && x != leaf
    ensures y in IsaAbove(leaf) && y.Isa? && y.up == x
    decreases leaf
  {
    if leaf.up == x {
      y := leaf;
    } else {
      y := NextDown(leaf.up, x);
    }
  }

  lemma PlacedDevice(s: Snap, own: string -> string, ns: string, m: map<string, Device>, u: string)
    requires u in m && Placed(m[u]) && KeepsToItself(own, u, m[u]) && CfgAt(s, own, ns, m, Conf(u))
    ensures Conf(u) in s.objects && s.objects[Conf(u)] == DeviceObj(ns, u, m[u])
  {
    PlaceObjsGrows(map[Conf(u) := DeviceObj(ns, u, m[u])], DeviceNodes(u, m[u].devInfo.value));
  }

  /** A device node in the tree is one the configuration places. */
  lemma DeviceIsPlaced(s: Snap, own: string -> string, ns: string, m: map<string, Device>, u: string)
    requires own(u) == u && IsConfig(s, Conf(u)) && CfgAt(s, own, ns, m, Conf(u))
    ensures u in m && Placed(m[u]) && s.objects[Conf(u)] == DeviceObj(ns, u, m[u])
  {
    PlaceObjsGrows(map[Conf(u) := DeviceObj(ns, u, m[u])], DeviceNodes(u, m[u].devInfo.value));
  }

  lemma NodeListed(s: Snap, rank: Id -> nat, own: string -> string, c: Id)
    requires WellFormed(s, rank, own) && c in s.objects
    ensures c in Kids(s, s.objects[c].parentId)
  {
    hide Ranked, NodeOk;
  }

  lemma DeviceAtLeaf(ns: string, u: string, d: Device)
    requires Placed(d)
    ensures DeviceObj(ns, u, d).parentId == Leaf(ns, d.devInfo.value)
  {
  }

  lemma KidShape(s: Snap, rank: Id -> nat, own: string -> string, x: Id, c: Id)
    requires WellFormed(s, rank, own) && x.Isa? && c in Kids(s, x)
    ensures c in s.objects && s.objects[c].parentId == x && IsConfig(s, c)
    ensures if c.Isa? then c.up == x else IsDevice(own, c)
  {
    hide Ranked;
    assert NodeOk(s, own, {}, c);
  }

  lemma KidUsesParent(s: Snap, rank: Id -> nat, own: string -> string, ns: string,
                      m: map<string, Device>, x: Id, c: Id)
    requires WellFormed(s, rank, own) && CleaningAt(s, own, ns, m, x)
    requires x.Isa? && c in Kids(s, x)
    ensures OnSomePath(ns, m, x)
  {
    hide DeviceNodes, CfgAt, Wf, NodeOk, Kids;
    KidShape(s, rank, own, x, c);
    if c.Isa? {
      IsaAboveSmaller(x, c);
      OnPathUp(ns, m, c);
    } else {
      DeviceIsPlaced(s, own, ns, m, c.uuid);
    }
  }

  lemma OnPathUp(ns: string, m: map<string, Device>, c: Id)
    requires c.Isa? && c.up.Isa? && OnSomePath(ns, m, c)
    ensures OnSomePath(ns, m, c.up)
  {
    var u :| u in m && Placed(m[u]) && c in IsaAbove(Leaf(ns, m[u].devInfo.value));
    IsaAboveUp(Leaf(ns, m[u].devInfo.value), c);
  }

  lemma {:induction false} IsaAboveUp(leaf: Id, c: Id)
    requires c in IsaAbove(leaf) && c.up.Isa?
    ensures c.up in IsaAbove(leaf)
    decreases leaf
  {
    if c != leaf {
      IsaAboveUp(leaf.up, c);
    }
  }

  lemma {:induction false} AllAboveUsed(ns: string, m: map<string, Device>, x: Id)
    requires x.Isa? ==> OnSomePath(ns, m, x)
    ensures forall y :: y in IsaAbove(x) ==> OnSomePath(ns, m, y)
    decreases x
  {
    if x.Isa? {
      if x.up.Isa? {
        OnPathUp(ns, m, x);
      }
      AllAboveUsed(ns, m, x.up);
    }
  }

  /** The clean-up leaves exactly the ISA-95 nodes that some device still needs. */
  lemma {:induction false} CleanUpCfg(s: Snap, rank: Id -> nat, own: string -> string, ns: string,
                                      m: map<string, Device>, x: Id)
    requires WellFormed(s, rank, own) && GoodDevices(own, m) && CleaningAt(s, own, ns, m, x)
    ensures CleaningAt(CleanUp(s, x), own, ns, m, Slash)
    decreases x
  {
    hide Wf, NodeOk, GoodDevices, OnSomePath, CfgAt, DropIsa;
    if x.Isa? {
      ChildlessIffUnused(s, rank, own, ns, m, x);
      if Kids(s, x) != {} {
        AllAboveUsed(ns, m, x);
      } else if x in s.objects {
        DropIsaKeepsWf(s, rank, own, x);
        DropCleaning(s, rank, own, ns, m, x);
        CleanUpCfg(DropIsa(s, x), rank, own, ns, m, x.up);
      } else {
        CleanUpCfg(s, rank, own, ns, m, x.up);
      }
    }
  }

  lemma DropCleaning(s: Snap, rank: Id -> nat, own: string -> string, ns: string, m: map<string, Device>, x: Id)
    requires CleaningAt(s, own, ns, m, x) && x.Isa? && x in s.objects && !OnSomePath(ns, m, x)
    ensures CleaningAt(DropIsa(s, x), own, ns, m, x.up)
  {
    hide OnSomePath, CfgAt;
    var t := DropIsa(s, x);
    forall id: Id | !id.Isa? ensures CfgAt(t, own, ns, m, id) {
      CfgElsewhere(s, t, own, ns, m, m, id);
    }
  }

  lemma DetachCleaning(s: Snap, rank: Id -> nat, own: string -> string, ns: string,
                       m: map<string, Device>, u: string)
    requires WellFormed(s, rank, own) && ConfigEq(s, own, ns, m) && GoodDevices(own, m)
    requires own(u) == u && Conf(u) in s.objects
    ensures var p := s.objects[Conf(u)].parentId;
      CleaningAt(Detach(s, Owned(s, own, u), Conf(u), p), own, ns, m - {u}, p)
  {
    hide Wf, NodeOk, CfgAt, IsaAbove;
    var m', p := m - {u}, s.objects[Conf(u)].parentId;
    var t := Detach(s, Owned(s, own, u), Conf(u), p);
    KeysAgree(s, rank, own);
    DeviceIsConfig(s, rank, own, u);
    DeviceIsPlaced(s, own, ns, m, u);
    forall id: Id | !id.Isa? ensures CfgAt(t, own, ns, m', id) {
      if OwnedBy(own, u, id) {
        GoneAt(t, own, ns, m', u, id);
      } else {
        CfgElsewhere(s, t, own, ns, m, m', id);
      }
    }
    forall y: Id | y.Isa? && y in t.objects ensures OnSomePath(ns, m', y) || y in IsaAbove(p) {
      IsaIsConfig(s, rank, own, y);
      assert CfgAt(s, own, ns, m, y);
      PathWithout(s, own, ns, m, u, y);
    }
    forall y: Id | y.Isa? && OnSomePath(ns, m', y) ensures y in t.objects {
      assert CfgAt(s, own, ns, m, y);
      PathWith(s, own, ns, m, u, y);
    }
  }

  lemma GoneAt(t: Snap, own: string -> string, ns: string, m: map<string, Device>, u: string, id: Id)
    requires OwnedBy(own, u, id) && id !in t.objects && u !in m && !id.Isa?
    ensures CfgAt(t, own, ns, m, id)
  {
  }

  lemma PathWithout(s: Snap, own: string -> string, ns: string, m: map<string, Device>, u: string, y: Id)
    requires y.Isa? && u in m && Placed(m[u]) && IsConfig(s, y) && CfgAt(s, own, ns, m, y)
    ensures OnSomePath(ns, m - {u}, y) || y in IsaAbove(Leaf(ns, m[u].devInfo.value))
  {
    hide IsaAbove;
    var v :| v in m && Placed(m[v]) && y in IsaAbove(Leaf(ns, m[v].devInfo.value));
    assert v != u ==> v in m - {u} && (m - {u})[v] == m[v];
  }

  lemma PathWith(s: Snap, own: string -> string, ns: string, m: map<string, Device>, u: string, y: Id)
    requires y.Isa? && OnSomePath(ns, m - {u}, y) && CfgAt(s, own, ns, m, y)
    ensures y in s.objects
  {
    hide IsaAbove;
    var v :| v in m - {u} && Placed((m - {u})[v]) && y in IsaAbove(Leaf(ns, (m - {u})[v].devInfo.value));
    assert v in m && m[v] == (m - {u})[v];
  }

  lemma CleanIsConfigEq(s: Snap, rank: Id -> nat, own: string -> string, ns: string, m: map<string, Device>)
    requires WellFormed(s, rank, own) && CleaningAt(s, own, ns, m, Slash)
    ensures ConfigEq(s, own, ns, m)
  {
    forall id ensures CfgAt(s, own, ns, m, id) {
      if id.Isa? && id in s.objects {
        assert NodeOk(s, own, {}, id);
      }
    }
  }

  /** Removing a device from a tree leaves the tree of the configuration without it. */
  lemma RemoveCfg(s: Snap, rank: Id -> nat, own: string -> string, ns: string, m: map<string, Device>, u: string)
    requires WellFormed(s, rank, own) && ConfigEq(s, own, ns, m) && GoodDevices(own, m) && own(u) == u
    ensures WellFormed(RemovedDevice(s, own, u), rank, own)
    ensures ConfigEq(RemovedDevice(s, own, u), own, ns, m - {u})
  {
    hide Wf, NodeOk, CfgAt, Detach, Owned, CleaningAt;
    if Conf(u) in s.objects {
      var p := s.objects[Conf(u)].parentId;
      var t := Detach(s, Owned(s, own, u), Conf(u), p);
      DetachCleaning(s, rank, own, ns, m, u);
      DetachKeepsWf(s, rank, own, u);
      CleanUpCfg(t, rank, own, ns, m - {u}, p);
      CleanUpKeepsWf(t, rank, own, p);
      CleanIsConfigEq(CleanUp(t, p), rank, own, ns, m - {u});
    } else {
      AbsentCfg(s, rank, own, ns, m, u);
    }
  }

  /** A device without a node contributes nothing. */
  lemma AbsentCfg(s: Snap, rank: Id -> nat, own: string -> string, ns: string, m: map<string, Device>, u: string)
    requires WellFormed(s, rank, own) && ConfigEq(s, own, ns, m) && GoodDevices(own, m)
    requires Conf(u) !in s.objects
    ensures ConfigEq(s, own, ns, m - {u})
  {
    hide Wf, NodeOk, IsaAbove;
    var m' := m - {u};
    if u in m {
      assert CfgAt(s, own, ns, m, Conf(u));
      if Placed(m[u]) {
        PlacedDevice(s, own, ns, m, u);
      }
    }
    forall id ensures CfgAt(s, own, ns, m', id) {
      assert CfgAt(s, own, ns, m, id);
      if id.Isa? {
        assert OnSomePath(ns, m, id) <==> OnSomePath(ns, m', id) by {
          if v :| v in m && Placed(m[v]) && id in IsaAbove(Leaf(ns, m[v].devInfo.value)) {
            assert v in m' && m'[v] == m[v];
          }
          if v :| v in m' && Placed(m'[v]) && id in IsaAbove(Leaf(ns, m'[v].devInfo.value)) {
            assert v in m && m'[v] == m[v];
          }
        }
      }
    }
  }
}
