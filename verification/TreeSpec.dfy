/**
 * What each operation on the tree does to its maps, as functions of the old
 * maps. The child lists are not mentioned: in a well-formed tree the objects
 * determine them.
 */
module TreeSpec {
  import opened OriginMaps
  import opened TreeShape

  /** The ISA-95 nodes from `x` up to the top. */
  function IsaAbove(x: Id): (above: set<Id>)
    ensures forall y :: y in above ==> y.Isa?
  {
    if x.Isa? then {x} + IsaAbove(x.up) else {}
  }

  /** The same nodes, bottom-up. */
  function Ancestors(x: Id): seq<Id> {
    if x.Isa? then [x] + Ancestors(x.up) else []
  }

  /** The nodes with the missing ISA-95 levels up to `leaf` added. */
  function WithPath(objs: map<Id, Obj>, leaf: Id): map<Id, Obj> {
    if !leaf.Isa? then objs
    else
      var above := WithPath(objs, leaf.up);
      if leaf in above then above else above[leaf := IsaObj(leaf.up, leaf.segment)]
  }

  lemma {:induction false} WithPathIs(objs: map<Id, Obj>, leaf: Id)
    ensures WithPath(objs, leaf).Keys == objs.Keys + IsaAbove(leaf)
    ensures forall x :: x in WithPath(objs, leaf) ==>
      WithPath(objs, leaf)[x] ==
        if x in objs then objs[x] else if x.Isa? then IsaObj(x.up, x.segment) else WithPath(objs, leaf)[x]
    decreases leaf
  {
    if leaf.Isa? {
      WithPathIs(objs, leaf.up);
    }
  }

  lemma {:induction false} IsaAboveSmaller(y: Id, x: Id)
    requires y < x
    ensures x !in IsaAbove(y)
    decreases y
  {
    if y.Isa? {
      IsaAboveSmaller(y.up, x);
    }
  }

  /** `t` is `s` with config nodes added: nothing removed, no tag changed, same types. */
  ghost predicate Grew(s: Snap, t: Snap) {
    && s.objects.Keys <= t.objects.Keys
    && t.sources.Keys == t.objects.Keys
    && (forall c :: c in t.sources ==> t.sources[c] == if c in s.sources then s.sources[c] else Config)
    && t.objectTypes == s.objectTypes
  }

  lemma GrewSame(s: Snap, rank: Id -> nat, own: string -> string, loose: set<Id>)
    requires Wf(s, rank, own, loose)
    ensures Grew(s, s)
  {
  }

  lemma GrewTwice(s: Snap, t: Snap, w: Snap)
    requires s.sources.Keys == s.objects.Keys
    requires Grew(s, t) && Grew(t, w)
    ensures Grew(s, w)
  {
  }

  lemma GrewInsert(s: Snap, t: Snap, o: Obj)
    requires s.sources.Keys == s.objects.Keys
    requires Grew(s, t) && o.elementId !in t.objects
    ensures Grew(s, Insert(t, o, Config))
  {
  }

  /** None of the nodes a device has in the tree came from a UNS message. */
  ghost predicate AllConfig(s: Snap, own: string -> string, u: string) {
    forall c :: c in s.objects && OwnedBy(own, u, c) ==> IsConfig(s, c)
  }

  lemma AllConfigKept(s: Snap, t: Snap, own: string -> string, u: string)
    requires AllConfig(s, own, u) && s.sources.Keys == s.objects.Keys && Grew(s, t)
    ensures AllConfig(t, own, u)
  {
  }

  lemma {:induction false} IsaIdIsIsa(path: seq<string>)
    ensures path != [] ==> IsaId(path).Isa?
    ensures IsaId(path).Slash? || IsaId(path).Isa?
  {
  }

  function Leaf(ns: string, di: DevInfo): (leaf: Id)
    ensures leaf.Isa?
  {
    IsaId(DevicePath(ns, di))
  }

  function BuiltObjs(objs: map<Id, Obj>, ns: string, u: string, d: Device): map<Id, Obj> {
    if !Placed(d) then objs
    else PlaceObjs(WithPath(objs, Leaf(ns, d.devInfo.value))[Conf(u) := DeviceObj(ns, u, d)],
                   DeviceNodes(u, d.devInfo.value))
  }

  function BuiltMeta(metas: map<Id, MetricMeta>, u: string, d: Device): map<Id, MetricMeta> {
    if !Placed(d) then metas else PlaceMeta(metas, DeviceNodes(u, d.devInfo.value))
  }

  /** `t` is `s` with one more device built into it. */
  ghost predicate BuiltFrom(s: Snap, t: Snap, ns: string, u: string, d: Device) {
    && t.objects == BuiltObjs(s.objects, ns, u, d)
    && t.metricMeta == BuiltMeta(s.metricMeta, u, d)
    && Grew(s, t)
  }

  /** The nodes of a config all belong to the device. */
  predicate AllOwned(own: string -> string, u: string, ps: seq<Placement>) {
    forall i :: 0 <= i < |ps| ==> OwnedBy(own, u, ps[i].obj.elementId)
  }

  /** A config that keeps to the device's own ids. */
  predicate KeepsToItself(own: string -> string, u: string, d: Device) {
    && own(u) == u
    && (Placed(d) ==> AllOwned(own, u, DeviceNodes(u, d.devInfo.value)))
  }

  lemma {:induction false} PlaceObjsAppend(objs: map<Id, Obj>, a: seq<Placement>, b: seq<Placement>)
    ensures PlaceObjs(objs, a + b) == PlaceObjs(PlaceObjs(objs, a), b)
    decreases a
  {
    if a == [] {
      assert a + b == b;
    } else {
      assert (a + b)[1..] == a[1..] + b;
      PlaceObjsAppend(if a[0].obj.elementId in objs then objs else objs[a[0].obj.elementId := a[0].obj], a[1..], b);
    }
  }

  lemma {:induction false} PlaceMetaAppend(metas: map<Id, MetricMeta>, a: seq<Placement>, b: seq<Placement>)
    ensures PlaceMeta(metas, a + b) == PlaceMeta(PlaceMeta(metas, a), b)
    decreases a
  {
    if a == [] {
      assert a + b == b;
    } else {
      assert (a + b)[1..] == a[1..] + b;
      PlaceMetaAppend(
        if a[0].meta.Some? then metas[a[0].obj.elementId := a[0].meta.value] else metas, a[1..], b);
    }
  }

  lemma {:induction false} PlaceObjsGrows(objs: map<Id, Obj>, ps: seq<Placement>)
    ensures objs.Keys <= PlaceObjs(objs, ps).Keys
    ensures forall c :: c in objs ==> PlaceObjs(objs, ps)[c] == objs[c]
    decreases ps
  {
    if ps != [] {
      PlaceObjsGrows(if ps[0].obj.elementId in objs then objs else objs[ps[0].obj.elementId := ps[0].obj], ps[1..]);
    }
  }

  // ---- Removing a device ----

  ghost function RemovedDevice(s: Snap, own: string -> string, u: string): Snap {
    if Conf(u) !in s.objects then s
    else
      var p := s.objects[Conf(u)].parentId;
      CleanUp(Detach(s, Owned(s, own, u), Conf(u), p), p)
  }

  // ---- Carrying UNS nodes over ----

  ghost function Ids(s: Snap): iset<Id> {
    iset c | c in s.objects
  }

  /** A UNS node that the new config does not name, reached from it through such nodes only. */
  ghost predicate Kept(s: Snap, rank: Id -> nat, base: iset<Id>, c: Id)
    requires Ranked(s, rank)
    decreases rank(c)
  {
    && IsUns(s, c)
    && c !in base
    && (s.objects[c].parentId in base ||
        (s.objects[c].parentId in s.objects && Kept(s, rank, base, s.objects[c].parentId)))
  }

  ghost function KeptSet(s: Snap, rank: Id -> nat, base: iset<Id>): set<Id>
    requires Ranked(s, rank)
  {
    set c | c in s.objects && Kept(s, rank, base, c)
  }

  /** One map with the entries of another put in at `g`. */
  ghost predicate GraftedMap<V>(t: map<Id, V>, w: map<Id, V>, src: map<Id, V>, g: set<Id>) {
    && w.Keys == t.Keys + g * src.Keys
    && forall c :: c in w ==> w[c] == if c in g && c in src then src[c] else t[c]
  }

  ghost predicate GraftedTags(t: map<Id, Source>, w: map<Id, Source>, ids: set<Id>, g: set<Id>) {
    && w.Keys == t.Keys + g * ids
    && forall c :: c in w ==> w[c] == if c in g && c in ids then Uns else t[c]
  }

  /** `w` is `t` with the nodes `g` of `s` copied in as UNS nodes. */
  ghost predicate Grafted(t: Snap, w: Snap, s: Snap, g: set<Id>) {
    && w.objectTypes == t.objectTypes
    && GraftedMap(t.objects, w.objects, s.objects, g)
    && GraftedMap(t.metricMeta, w.metricMeta, s.metricMeta, g)
    && GraftedTags(t.sources, w.sources, s.objects.Keys, g)
  }

  /** The same, with each copied node listed under its parent. */
  ghost predicate Overlaid(t: Snap, w: Snap, s: Snap, g: set<Id>) {
    && Grafted(t, w, s, g)
    && forall q :: Kids(w, q) == Kids(t, q) + set c | c in g && c in s.objects && s.objects[c].parentId == q
  }

  /** Where a rebuild starts copying: UNS nodes the new config lacks, under nodes it has. */
  ghost predicate CarryRoot(s: Snap, base: iset<Id>, r: Id) {
    IsUns(s, r) && r !in base && s.objects[r].parentId in base
  }

  /** What a rebuild copies: those nodes with everything that was below them. */
  ghost function Carried(s: Snap, rank: Id -> nat, base: iset<Id>): set<Id>
    requires Ranked(s, rank)
  {
    set c | c in s.objects && exists r :: CarryRoot(s, base, r) && Below(s, rank, c, r)
  }
}
