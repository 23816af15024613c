/**
 * Which entries of an originMap become nodes, stated over ways down through
 * its fields and without the walk itself.
 */
module OriginWalk {
  import opened Basics
  import opened OriginMaps
  import opened TreeShape
  import opened TreeSpec

  /** A way down through the fields, from object to object, by keys that are not metadata. */
  ghost predicate Way(fs: seq<Field>, way: seq<Field>) {
    && way != [] && way[0] in fs
    && (forall i :: 0 <= i < |way| ==> way[i].key !in METADATA_KEYS && way[i].value.Object?)
    && (forall i :: 0 < i < |way| ==> way[i] in way[i - 1].value.fields)
  }

  /** What the field holds has an object nested in it, under a key that is not metadata. */
  ghost predicate Holds(f: Field) {
    f.value.Object? && exists g :: g in f.value.fields && g.key !in METADATA_KEYS && g.value.Object?
  }

  predicate Typed(f: Field) {
    Get(f.value, "Sparkplug_Type").Str?
  }

  /** The id at the end of a way: the instance UUID there, or the key below the id above. */
  function WayId(parent: Id, way: seq<Field>): Id {
    if way == [] then parent
    else
      var f := way[|way| - 1];
      match Get(f.value, "Instance_UUID")
      case Null => Metric(WayId(parent, way[..|way| - 1]), f.key)
      case uuid => Conf(Text(uuid))
  }

  /** The keys of a way with slashes between them; empty keys at the start leave no trace. */
  function WayText(prefix: string, way: seq<Field>): string {
    if way == [] then prefix
    else
      var above := WayText(prefix, way[..|way| - 1]);
      if above == "" then way[|way| - 1].key else above + "/" + way[|way| - 1].key
  }

  /** The node at the end of a way. */
  predicate NodeAt(o: Obj, parent: Id, way: seq<Field>)
    requires way != []
  {
    var f := way[|way| - 1];
    && o.elementId == WayId(parent, way) && o.parentId == WayId(parent, way[..|way| - 1])
    && o.displayName == f.key
    && match Get(f.value, "Schema_UUID")
       case Null => o.typeElementId == "unknown"
       case s => o.typeElementId == Text(s)
  }

  /** The metadata of a metric whose full path is `text`: its name is what follows the last slash. */
  ghost predicate MetaOf(meta: MetricMeta, top: string, text: string, spType: string) {
    && meta.topLevel == top && meta.sparkplugType == spType
    && '/' !in meta.metricName
    && text == (if '/' in text then meta.metricPath + "/" + meta.metricName else meta.metricName)
    && ('/' !in text ==> meta.metricPath == "")
    && (spType != "Double" ==> SuffixOf(spType, meta.typeSuffix))
  }

  const ENDINGS: set<string> := {"", "LE", "Le", "lE", "le", "BE", "Be", "bE", "be"}

  const NUMBERS: set<string> := {"8", "16", "32", "64"}

  /** The one letter for a type of Sparkplug, whatever its byte order and the case in which that is written. */
  ghost predicate SuffixOf(spType: string, suffix: string) {
    if FromNames({"Float", "Double"}, spType) then suffix == "d"
    else if FromNames(set n | n in NUMBERS :: "Int" + n, spType) then suffix == "i"
    else if FromNames(set n | n in NUMBERS :: "UInt" + n, spType) then suffix == "u"
    else if FromNames({"Boolean"}, spType) then suffix == "b"
    else suffix == "s"
  }

  ghost predicate FromNames(names: set<string>, spType: string) {
    exists n, e :: n in names && e in ENDINGS && spType == n + e
  }

  predicate EndsSo(s: string) {
    |s| >= 2 && Upper(s[|s| - 1]) == 'E' && (Upper(s[|s| - 2]) == 'L' || Upper(s[|s| - 2]) == 'B')
  }

  lemma EndingIs(s: string)
    requires |s| >= 2
    ensures EndsSo(s) <==> s[|s| - 2..] in ENDINGS
  {
    var e := s[|s| - 2..];
    assert e == [e[0], e[1]];
    assert forall x: string :: |x| == 2 && x[0] == e[0] && x[1] == e[1] ==> x == e;
    if EndsSo(s) {
      assert e[1] == 'E' || e[1] == 'e';
      assert e[0] == 'L' || e[0] == 'l' || e[0] == 'B' || e[0] == 'b';
    }
  }

  lemma FromNamesIs(names: set<string>, s: string)
    ensures FromNames(names, s) <==> s in names || (EndsSo(s) && s[..|s| - 2] in names)
  {
    if s in names {
      assert s == s + "" && "" in ENDINGS;
    }
    if EndsSo(s) {
      EndingIs(s);
      assert s == s[..|s| - 2] + s[|s| - 2..];
    }
    if FromNames(names, s) {
      var n, e :| n in names && e in ENDINGS && s == n + e;
      if e == "" {
        assert s == n;
      } else {
        assert |e| == 2 && s[..|s| - 2] == n && s[|s| - 2..] == e;
        EndingIs(s);
      }
    }
  }

  lemma SetsOfNames()
    ensures (set n | n in NUMBERS :: "Int" + n) == {"Int8", "Int16", "Int32", "Int64"}
    ensures (set n | n in NUMBERS :: "UInt" + n) == {"UInt8", "UInt16", "UInt32", "UInt64"}
  {
    assert "Int" + "8" == "Int8" && "Int" + "16" == "Int16" && "Int" + "32" == "Int32" && "Int" + "64" == "Int64";
    assert "UInt" + "8" == "UInt8" && "UInt" + "16" == "UInt16";
    assert "UInt" + "32" == "UInt32" && "UInt" + "64" == "UInt64";
    forall n | n in NUMBERS ensures n == "8" || n == "16" || n == "32" || n == "64" {}
  }

  /** No name but one ends like a byte order. */
  lemma NamesEnd(s: string)
    requires s in {"Float", "Double", "Boolean"} || s in {"Int8", "Int16", "Int32", "Int64"} ||
             s in {"UInt8", "UInt16", "UInt32", "UInt64"}
    ensures EndsSo(s) <==> s == "Double"
  {
  }

  /** The letter goes by the name, or by what is left of it without what looks like a byte order. */
  lemma TypeSuffixIs(spType: string)
    ensures var t := if EndsSo(spType) then spType[..|spType| - 2] else spType;
      TypeSuffix(spType) ==
        if t in {"Float", "Double"} then "d"
        else if t in {"Int8", "Int16", "Int32", "Int64"} then "i"
        else if t in {"UInt8", "UInt16", "UInt32", "UInt64"} then "u"
        else if t in {"Boolean"} then "b"
        else "s"
  {
  }

  /** The letter is right for every type but one: a plain `Double` loses its last two letters as a byte order. */
  lemma TypeSuffixExact(spType: string)
    ensures SuffixOf(spType, TypeSuffix(spType)) <==> spType != "Double"
    ensures TypeSuffix("Double") == "s"
  {
    hide EndsSo, FromNames, TypeSuffix;
    TypeSuffixIs(spType);
    TypeSuffixIs("Double");
    SetsOfNames();
    FromNamesIs({"Float", "Double"}, spType);
    FromNamesIs({"Int8", "Int16", "Int32", "Int64"}, spType);
    FromNamesIs({"UInt8", "UInt16", "UInt32", "UInt64"}, spType);
    FromNamesIs({"Boolean"}, spType);
    NamesEnd("Double");
    assert "Double"[..4] == "Doub";
    if spType == "Double" {
      assert spType[..|spType| - 2] == "Doub";
    } else if spType in {"Float", "Boolean"} || spType in {"Int8", "Int16", "Int32", "Int64"} ||
              spType in {"UInt8", "UInt16", "UInt32", "UInt64"} {
      NamesEnd(spType);
    }
  }

  lemma MetaForIs(top: string, text: string, spType: string)
    ensures MetaOf(MetaFor(top, text, spType), top, text, spType)
  {
    hide SuffixOf, TypeSuffix;
    TypeSuffixExact(spType);
    var n := AfterLastSlash(text);
    if n > 0 {
      assert text == text[..n - 1] + "/" + text[n..];
    } else {
      assert text[n..] == text;
    }
  }

  // ---- The walk goes every such way and no other ----

  lemma HoldsIs(f: Field)
    ensures HasChildContainers(f.value) <==> Holds(f)
  {
    if Holds(f) {
      var g :| g in f.value.fields && g.key !in METADATA_KEYS && g.value.Object?;
      var i :| 0 <= i < |f.value.fields| && f.value.fields[i] == g;
    }
  }

  lemma {:induction false} WayIdBelow(parent: Id, f: Field, way: seq<Field>)
    ensures WayId(parent, [f] + way) == WayId(NodeId(f, parent), way)
  {
    var all := [f] + way;
    if way == [] {
      assert all[..0] == [];
    } else {
      assert all[..|all| - 1] == [f] + way[..|way| - 1];
      WayIdBelow(parent, f, way[..|way| - 1]);
    }
  }

  lemma {:induction false} WayTextBelow(prefix: string, f: Field, way: seq<Field>)
    ensures WayText(prefix, [f] + way) == WayText(Join(prefix, f.key), way)
  {
    var all := [f] + way;
    if way == [] {
      assert all[..0] == [];
    } else {
      assert all[..|all| - 1] == [f] + way[..|way| - 1];
      WayTextBelow(prefix, f, way[..|way| - 1]);
    }
  }

  /** The placement for the end of a way: a leaf, with metadata, if nothing is nested there. */
  ghost predicate PlacedFor(p: Placement, parent: Id, top: string, prefix: string, way: seq<Field>) {
    way != [] &&
    var f := way[|way| - 1];
    && NodeAt(p.obj, parent, way)
    && (p.obj.isComposition <==> Holds(f)) && (p.meta.None? <==> Holds(f))
    && (p.meta.Some? ==> Typed(f) && MetaOf(p.meta.value, top, WayText(prefix, way), Get(f.value, "Sparkplug_Type").s))
  }

  /** A way to an entry with a type or with something nested in it. */
  ghost predicate Asked(fs: seq<Field>, way: seq<Field>) {
    Way(fs, way) && (Typed(way[|way| - 1]) || Holds(way[|way| - 1]))
  }

  lemma FirstPlaced(f: Field, parent: Id, top: string, prefix: string)
    requires f.key !in METADATA_KEYS && f.value.Object? && (Typed(f) || Holds(f))
    ensures IsNode(f) && PlacedFor(NodeFor(f, parent, top, prefix), parent, top, prefix, [f])
  {
    HoldsIs(f);
    assert [f][..0] == [];
    WayIdBelow(parent, f, []);
    WayTextBelow(prefix, f, []);
    MetaForIs(top, Join(prefix, f.key), Text(Get(f.value, "Sparkplug_Type")));
  }

  lemma PlacedBelow(p: Placement, parent: Id, top: string, prefix: string, f: Field, way: seq<Field>)
    requires way != []
    ensures PlacedFor(p, parent, top, prefix, [f] + way) <==>
            PlacedFor(p, NodeId(f, parent), top, Join(prefix, f.key), way)
  {
    var all := [f] + way;
    assert all[|all| - 1] == way[|way| - 1] && all[..|all| - 1] == [f] + way[..|way| - 1];
    WayIdBelow(parent, f, way);
    WayIdBelow(parent, f, way[..|way| - 1]);
    WayTextBelow(prefix, f, way);
  }

  lemma {:induction false} WalkHas(fs: seq<Field>, f: Field, parent: Id, top: string, prefix: string, p: Placement)
    requires f in fs && IsNode(f)
    requires p == NodeFor(f, parent, top, prefix) ||
             (!IsLeaf(f.value) && p in Flatten(f.value.fields, NodeId(f, parent), top, Join(prefix, f.key)))
    ensures p in Flatten(fs, parent, top, prefix)
    decreases fs
  {
    if fs[0] != f {
      WalkHas(fs[1..], f, parent, top, prefix, p);
    }
  }

  /** Every way to an entry that is typed or has objects nested in it ends at a node. */
  lemma {:induction false} WalkFinds(fs: seq<Field>, parent: Id, top: string, prefix: string, way: seq<Field>)
    requires Asked(fs, way)
    ensures exists p :: p in Flatten(fs, parent, top, prefix) && PlacedFor(p, parent, top, prefix, way)
    decreases |way|
  {
    hide PlacedFor, Flatten, NodeFor, NodeId;
    var f := way[0];
    if |way| == 1 {
      assert way == [f];
      FirstPlaced(f, parent, top, prefix);
      WalkHas(fs, f, parent, top, prefix, NodeFor(f, parent, top, prefix));
    } else {
      var id, below, text := NodeId(f, parent), way[1..], Join(prefix, f.key);
      assert way[1] in f.value.fields && way[1].key !in METADATA_KEYS && way[1].value.Object?;
      HoldsIs(f);
      WalkFinds(f.value.fields, id, top, text, below);
      var p :| p in Flatten(f.value.fields, id, top, text) && PlacedFor(p, id, top, text, below);
      assert way == [f] + below;
      PlacedBelow(p, parent, top, prefix, f, below);
      WalkHas(fs, f, parent, top, prefix, p);
    }
  }

  /** And every node is at the end of such a way. */
  lemma {:induction false} WalkOnly(fs: seq<Field>, parent: Id, top: string, prefix: string, p: Placement)
    requires p in Flatten(fs, parent, top, prefix)
    ensures exists way :: Asked(fs, way) && PlacedFor(p, parent, top, prefix, way)
    decreases fs
  {
    hide PlacedFor, NodeFor, NodeId;
    var f, rest := fs[0], Flatten(fs[1..], parent, top, prefix);
    HoldsIs(f);
    if p in rest {
      WalkOnly(fs[1..], parent, top, prefix, p);
      var way :| Asked(fs[1..], way) && PlacedFor(p, parent, top, prefix, way);
      assert Asked(fs, way);
    } else if p == NodeFor(f, parent, top, prefix) {
      FirstPlaced(f, parent, top, prefix);
      assert Asked(fs, [f]);
    } else {
      var id, text := NodeId(f, parent), Join(prefix, f.key);
      WalkOnly(f.value.fields, id, top, text, p);
      var below :| Asked(f.value.fields, below) && PlacedFor(p, id, top, text, below);
      PlacedBelow(p, parent, top, prefix, f, below);
      AskedBelow(fs, f, below);
    }
  }

  lemma AskedBelow(fs: seq<Field>, f: Field, below: seq<Field>)
    requires f in fs && f.key !in METADATA_KEYS && f.value.Object? && Asked(f.value.fields, below)
    ensures Asked(fs, [f] + below)
  {
    var way := [f] + below;
    forall i | 0 < i < |way| ensures way[i] in way[i - 1].value.fields {
      assert way[i] == below[i - 1] && (i > 1 ==> way[i - 1] == below[i - 2]);
    }
    assert way[|way| - 1] == below[|below| - 1];
  }

  // ---- What a built device has in the tree ----

  /** The first placement of an id that is not there yet makes its node. */
  lemma {:induction false} PlacedObjs(objs: map<Id, Obj>, ps: seq<Placement>, c: Id)
    ensures c in PlaceObjs(objs, ps) <==> c in objs || exists i :: 0 <= i < |ps| && ps[i].obj.elementId == c
    ensures c in PlaceObjs(objs, ps) && c !in objs ==>
      exists i :: 0 <= i < |ps| && ps[i].obj == PlaceObjs(objs, ps)[c] && ps[i].obj.elementId == c
    ensures c in objs ==> PlaceObjs(objs, ps)[c] == objs[c]
    decreases ps
  {
    if ps != [] {
      var o := ps[0].obj;
      PlacedObjs(if o.elementId in objs then objs else objs[o.elementId := o], ps[1..], c);
      assert forall i :: 0 < i < |ps| ==> ps[i] == ps[1..][i - 1];
    }
  }

  /** The metadata of an id is that of a leaf placed with it, if there is one. */
  lemma {:induction false} PlacedMeta(metas: map<Id, MetricMeta>, ps: seq<Placement>, c: Id)
    ensures (exists i :: 0 <= i < |ps| && ps[i].obj.elementId == c && ps[i].meta.Some?) ==>
      c in PlaceMeta(metas, ps) &&
      exists i :: 0 <= i < |ps| && ps[i].obj.elementId == c && ps[i].meta == Some(PlaceMeta(metas, ps)[c])
    ensures !(exists i :: 0 <= i < |ps| && ps[i].obj.elementId == c && ps[i].meta.Some?) ==>
      (c in PlaceMeta(metas, ps) <==> c in metas) && (c in metas ==> PlaceMeta(metas, ps)[c] == metas[c])
    decreases ps
  {
    if ps != [] {
      PlacedMeta(if ps[0].meta.Some? then metas[ps[0].obj.elementId := ps[0].meta.value] else metas, ps[1..], c);
      assert forall i :: 0 < i < |ps| ==> ps[i] == ps[1..][i - 1];
    }
  }

  ghost predicate NodeOfWay(fs: seq<Field>, u: string, way: seq<Field>, o: Obj) {
    way != [] && Asked(fs, way) && NodeAt(o, Conf(u), way) && (o.isComposition <==> Holds(way[|way| - 1]))
  }

  ghost predicate MetaOfWay(fs: seq<Field>, u: string, way: seq<Field>, c: Id, meta: MetricMeta) {
    && way != [] && Asked(fs, way) && !Holds(way[|way| - 1]) && WayId(Conf(u), way) == c
    && MetaOf(meta, u, WayText("", way), Get(way[|way| - 1].value, "Sparkplug_Type").s)
  }

  /**
   * A device that is built has a node for every entry of its originMap that is
   * typed or has objects nested in it, and metadata for every one with nothing nested in it.
   */
  lemma BuiltWays(s: Snap, t: Snap, ns: string, u: string, d: Device, way: seq<Field>)
    requires BuiltFrom(s, t, ns, u, d) && Placed(d) && d.devInfo.value.originMap.Object?
    requires way != [] && Asked(d.devInfo.value.originMap.fields, way)
    ensures WayId(Conf(u), way) in t.objects
    ensures !Holds(way[|way| - 1]) ==> WayId(Conf(u), way) in t.metricMeta
  {
    hide DeviceObj, WithPath, Leaf, Asked, Flatten, PlaceObjs, PlaceMeta, PlacedFor, WayId, Holds, Grew;
    var fs, c := d.devInfo.value.originMap.fields, WayId(Conf(u), way);
    WalkFinds(fs, Conf(u), u, "", way);
    var p :| p in Flatten(fs, Conf(u), u, "") && PlacedFor(p, Conf(u), u, "", way);
    PlacedForId(p, Conf(u), u, "", way);
    var nodes := DeviceNodes(u, d.devInfo.value);
    var i :| 0 <= i < |nodes| && nodes[i] == p;
    PlacedObjs(WithPath(s.objects, Leaf(ns, d.devInfo.value))[Conf(u) := DeviceObj(ns, u, d)], nodes, c);
    PlacedMeta(s.metricMeta, nodes, c);
  }

  lemma PlacedForId(p: Placement, parent: Id, top: string, prefix: string, way: seq<Field>)
    requires PlacedFor(p, parent, top, prefix, way)
    ensures way != [] && p.obj.elementId == WayId(parent, way) && (p.meta.None? <==> Holds(way[|way| - 1]))
  {
    hide MetaOf, WayId, WayText, Holds;
  }

  /** A placement gives the node and the metadata of some such entry. */
  lemma PlacementOfWay(u: string, di: DevInfo, p: Placement)
    requires p in DeviceNodes(u, di)
    ensures di.originMap.Object?
    ensures exists way :: NodeOfWay(di.originMap.fields, u, way, p.obj)
    ensures p.meta.Some? ==> exists way :: MetaOfWay(di.originMap.fields, u, way, p.obj.elementId, p.meta.value)
  {
    hide Asked, MetaOf, WayId, WayText, Holds, Flatten;
    var fs := di.originMap.fields;
    WalkOnly(fs, Conf(u), u, "", p);
    var way :| Asked(fs, way) && PlacedFor(p, Conf(u), u, "", way);
    assert NodeOfWay(fs, u, way, p.obj);
    if p.meta.Some? {
      assert MetaOfWay(fs, u, way, p.obj.elementId, p.meta.value);
    }
  }

  /** What is new is the device, the levels above it and the nodes for those entries, each as its entry says. */
  lemma BuiltOnlyWays(s: Snap, t: Snap, ns: string, u: string, d: Device, c: Id)
    requires BuiltFrom(s, t, ns, u, d) && Placed(d)
    ensures c in s.objects && c != Conf(u) ==> c in t.objects && t.objects[c] == s.objects[c]
    ensures c in t.objects && c !in s.objects && c != Conf(u) && !c.Isa? ==>
      d.devInfo.value.originMap.Object? &&
      exists way :: NodeOfWay(d.devInfo.value.originMap.fields, u, way, t.objects[c])
    ensures c in t.objects && c !in s.objects && c != Conf(u) && !c.Isa? ==> t.objects[c].elementId == c
  {
    hide DeviceObj, WithPath, Leaf, PlaceObjs, PlaceMeta, NodeOfWay, DeviceNodes, Grew;
    var nodes, base := DeviceNodes(u, d.devInfo.value), WithPath(s.objects, Leaf(ns, d.devInfo.value));
    WithPathIs(s.objects, Leaf(ns, d.devInfo.value));
    var objs := base[Conf(u) := DeviceObj(ns, u, d)];
    PlacedObjs(objs, nodes, c);
    if c in t.objects && c !in objs {
      var i :| 0 <= i < |nodes| && nodes[i].obj == t.objects[c] && nodes[i].obj.elementId == c;
      PlacementOfWay(u, d.devInfo.value, nodes[i]);
    }
  }

  /** The same for metadata. */
  lemma MetaOnlyWays(s: Snap, t: Snap, ns: string, u: string, d: Device, c: Id)
    requires BuiltFrom(s, t, ns, u, d) && Placed(d) && c in t.metricMeta
    ensures (c in s.metricMeta && t.metricMeta[c] == s.metricMeta[c]) ||
            (d.devInfo.value.originMap.Object? &&
             exists way :: MetaOfWay(d.devInfo.value.originMap.fields, u, way, c, t.metricMeta[c]))
  {
    hide DeviceObj, WithPath, Leaf, PlaceObjs, PlaceMeta, NodeOfWay, MetaOfWay, DeviceNodes, Grew;
    var nodes := DeviceNodes(u, d.devInfo.value);
    PlacedMeta(s.metricMeta, nodes, c);
    if i :| 0 <= i < |nodes| && nodes[i].obj.elementId == c && nodes[i].meta.Some? {
      var j :| 0 <= j < |nodes| && nodes[j].obj.elementId == c && nodes[j].meta == Some(t.metricMeta[c]);
      PlacementOfWay(u, d.devInfo.value, nodes[j]);
    }
  }

  /** The node of the device itself, and whether there is one. */
  lemma BuiltDevice(s: Snap, t: Snap, ns: string, u: string, d: Device)
    requires BuiltFrom(s, t, ns, u, d)
    ensures d.devInfo.None? ==> t.objects == s.objects && t.metricMeta == s.metricMeta
    ensures d.devInfo.Some? ==>
      var di := d.devInfo.value;
      var typeId := if di.schema == Null then Get(di.originMap, "Schema_UUID") else di.schema;
      if typeId == Null || typeId == Str("") || (typeId.Prim? && !typeId.truthy)
      then t.objects == s.objects && t.metricMeta == s.metricMeta
      else
        && Conf(u) in t.objects && t.objects[Conf(u)].elementId == Conf(u) && t.objects[Conf(u)].isComposition
        && t.objects[Conf(u)].typeElementId == Text(typeId)
        && t.objects[Conf(u)].parentId == IsaId(DevicePath(ns, di))
        && (d.name.Some? ==> t.objects[Conf(u)].displayName == d.name.value)
        && (d.name.None? && di.sparkplugName.Some? ==> t.objects[Conf(u)].displayName == di.sparkplugName.value)
        && (d.name.None? && di.sparkplugName.None? ==> t.objects[Conf(u)].displayName == u)
  {
    hide WithPath, PlaceObjs, PlaceMeta, DeviceNodes, Grew, DevicePath, Text;
    if Placed(d) {
      PlacedObjs(WithPath(s.objects, Leaf(ns, d.devInfo.value))[Conf(u) := DeviceObj(ns, u, d)],
                 DeviceNodes(u, d.devInfo.value), Conf(u));
    }
  }

  lemma {:induction false} LevelsAbove(path: seq<string>, k: nat)
    requires 0 < k <= |path|
    ensures IsaId(path[..k]) in IsaAbove(IsaId(path))
    decreases |path|
  {
    if k < |path| {
      LevelsAbove(path[..|path| - 1], k);
      assert path[..|path| - 1][..k] == path[..k];
    } else {
      assert path[..k] == path;
    }
  }

  /** All levels of its path are there, and a new one is named by its segment. */
  lemma BuiltLevels(s: Snap, t: Snap, ns: string, u: string, d: Device, k: nat)
    requires BuiltFrom(s, t, ns, u, d) && Placed(d) && 0 < k <= |DevicePath(ns, d.devInfo.value)|
    ensures var path := DevicePath(ns, d.devInfo.value);
      var up, x := IsaId(path[..k - 1]), IsaId(path[..k]);
      && x in t.objects
      && (x !in s.objects ==> t.objects[x] == Obj(x, path[k - 1], "isa95-level", up, true))
  {
    hide DeviceObj, PlaceObjs, PlaceMeta, DeviceNodes, Grew, DevicePath, WithPath;
    var di, path := d.devInfo.value, DevicePath(ns, d.devInfo.value);
    var x := IsaId(path[..k]);
    assert path[..k][..k - 1] == path[..k - 1];
    LevelsAbove(path, k);
    WithPathIs(s.objects, IsaId(path));
    PlacedObjs(WithPath(s.objects, Leaf(ns, di))[Conf(u) := DeviceObj(ns, u, d)], DeviceNodes(u, di), x);
  }
}
