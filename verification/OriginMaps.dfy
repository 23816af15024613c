/**
 * The pure half of the i3X object tree: element ids, the JSON configs that
 * the tree is built from, and the list of nodes that a config asks for.
 */
module OriginMaps {
  import opened Basics

  /**
   * Element ids. A v5 UUID is a hash of its parent id and a name; hashing is
   * taken to be injective and never to hit a configured UUID, which is what
   * free constructors say.
   */
  datatype Id =
    | Slash                              // the literal parent "/" of the top level
    | Conf(uuid: string)                 // a ConfigDB object or Instance_UUID
    | Isa(up: Id, segment: string)       // v5 of "isa95:<up>:<segment>"
    | Metric(above: Id, key: string)     // v5 of "<above>:<key>"

  /** JSON values. Arrays appear as objects keyed by index, as Object.entries shows them. */
  datatype Json =
    | Null                               // null and undefined
    | Prim(text: string, truthy: bool)   // numbers and booleans
    | Str(s: string)
    | Object(fields: seq<Field>)

  datatype Field = Field(key: string, value: Json)

  function Get(j: Json, key: string): Json {
    if j.Object? then GetField(j.fields, key) else Null
  }

  function GetField(fs: seq<Field>, key: string): Json {
    if fs == [] then Null
    else if fs[0].key == key then fs[0].value
    else GetField(fs[1..], key)
  }

  predicate Truthy(j: Json) {
    match j
    case Null => false
    case Prim(_, t) => t
    case Str(s) => s != ""
    case Object(_) => true
  }

  function Text(j: Json): string {
    match j
    case Null => ""
    case Prim(t, _) => t
    case Str(s) => s
    case Object(_) => "[object Object]"
  }

  /** The nullish-coalescing operator. */
  function Coalesce(a: Json, b: Json): Json {
    if a.Null? then b else a
  }

  const METADATA_KEYS: set<string> := {
    "Schema_UUID", "Instance_UUID", "Method", "Address", "Path",
    "Documentation", "Sparkplug_Type", "Record_To_Historian",
    "Eng_Unit", "Eng_Low", "Eng_High", "Deadband", "Tooltip",
    "Value", "value"
  }

  const ISA95_LEVELS: seq<string> := ["Enterprise", "Site", "Area", "Work Center", "Work Unit"]

  const HIERARCHY_SCHEMA_UUID := "84ac3397-f3a2-440a-99e5-5bb9f6a75091"

  // ---- What a node looks like ----

  datatype Obj = Obj(elementId: Id, displayName: string, typeElementId: string,
                     parentId: Id, isComposition: bool)

  datatype MetricMeta = MetricMeta(topLevel: string, metricPath: string, metricName: string,
                                   sparkplugType: string, typeSuffix: string)

  datatype ObjectType = ObjectType(elementId: string, displayName: string, schema: Json)

  // ---- Device configs ----

  datatype DevInfo = DevInfo(schema: Json, sparkplugName: Option<string>, originMap: Json)

  /** One entry of a pipeline emission: DeviceInformation body and Info name. */
  datatype Device = Device(devInfo: Option<DevInfo>, name: Option<string>)

  /** One schema entry of a pipeline emission. */
  datatype Schema = Schema(schema: Json, name: Option<string>)

  function SchemaOf(di: DevInfo): Json {
    Coalesce(di.schema, Get(di.originMap, "Schema_UUID"))
  }

  /** A device gets a node only when its config and its schema are present. */
  predicate Placed(d: Device) {
    d.devInfo.Some? && Truthy(SchemaOf(d.devInfo.value))
  }

  function DisplayName(uuid: string, d: Device): string {
    d.name.GetOr(if d.devInfo.Some? then d.devInfo.value.sparkplugName.GetOr(uuid) else uuid)
  }

  /** Depth-first search for the first object that carries the given Schema_UUID. */
  function FindBySchema(j: Json, target: string): Option<Json>
    decreases j, 1
  {
    if !j.Object? then None
    else if Get(j, "Schema_UUID") == Str(target) then Some(j)
    else FindInFields(j.fields, target)
  }

  function FindInFields(fs: seq<Field>, target: string): Option<Json>
    decreases fs, 0
  {
    if fs == [] then None
    else
      var found := FindBySchema(fs[0].value, target);
      if found.Some? then found else FindInFields(fs[1..], target)
  }

  /** What a hierarchy says about one level. */
  function LevelValue(hierarchy: Json, level: string): Json {
    var entry := Get(hierarchy, level);
    Coalesce(Get(entry, "Value"), Get(entry, "value"))
  }

  /** The ISA-95 levels in order, up to the first one that is missing. */
  function Isa95Segments(hierarchy: Json, levels: seq<string>): seq<string> {
    if levels == [] then []
    else
      var value := LevelValue(hierarchy, levels[0]);
      if !Truthy(value) then []
      else [Text(value)] + Isa95Segments(hierarchy, levels[1..])
  }

  /** Where a device goes: its ISA-95 path, or "<namespace>/Unknown". */
  function DevicePath(ns: string, di: DevInfo): (path: seq<string>)
    ensures path != []
  {
    var hierarchy := FindBySchema(di.originMap, HIERARCHY_SCHEMA_UUID);
    var segments := if hierarchy.Some? then Isa95Segments(hierarchy.value, ISA95_LEVELS) else [];
    if segments == [] then [ns, "Unknown"] else segments
  }

  /** `path` names the levels from the top, as many as there are before the first gap. */
  predicate LongestRun(hierarchy: Json, levels: seq<string>, path: seq<string>) {
    && |path| <= |levels|
    && (forall i :: 0 <= i < |path| ==>
          var value := Said(hierarchy, levels[i]); Truthy(value) && path[i] == Text(value))
    && (|path| < |levels| ==> !Truthy(Said(hierarchy, levels[|path|])))
  }

  /** The entry of a level has its value under `Value` or, if that is null, under `value`. */
  function Said(hierarchy: Json, level: string): Json {
    match Get(Get(hierarchy, level), "Value")
    case Null => Get(Get(hierarchy, level), "value")
    case value => value
  }

  lemma {:induction false} SegmentsAreLongestRun(hierarchy: Json, levels: seq<string>)
    ensures LongestRun(hierarchy, levels, Isa95Segments(hierarchy, levels))
  {
    if levels != [] {
      SegmentsAreLongestRun(hierarchy, levels[1..]);
    }
  }

  /** `x` is `j` or an object nested in it. */
  ghost predicate Nested(j: Json, x: Json) {
    x == j || (j.Object? && exists i :: 0 <= i < |j.fields| && Nested(j.fields[i].value, x))
  }

  predicate CarriesSchema(x: Json, target: string) {
    x.Object? && Get(x, "Schema_UUID") == Str(target)
  }

  ghost predicate HasSchema(j: Json, target: string) {
    exists x :: Nested(j, x) && CarriesSchema(x, target)
  }

  /** The search finds a nested object with the schema whenever there is one. */
  lemma {:induction false} SearchFinds(j: Json, target: string)
    ensures FindBySchema(j, target).Some? <==> HasSchema(j, target)
    ensures FindBySchema(j, target).Some? ==>
      Nested(j, FindBySchema(j, target).value) && CarriesSchema(FindBySchema(j, target).value, target)
    decreases j, 1
  {
    assert Nested(j, j);
    if j.Object? && !CarriesSchema(j, target) {
      FieldSearchFinds(j.fields, target);
    }
  }

  lemma {:induction false} FieldSearchFinds(fs: seq<Field>, target: string)
    ensures var found := FindInFields(fs, target);
      if found.Some?
      then CarriesSchema(found.value, target) && exists i :: 0 <= i < |fs| && Nested(fs[i].value, found.value)
      else forall i :: 0 <= i < |fs| ==> !HasSchema(fs[i].value, target)
    decreases fs, 0
  {
    if fs != [] {
      SearchFinds(fs[0].value, target);
      FieldSearchFinds(fs[1..], target);
      assert forall i :: 0 < i < |fs| ==> fs[i] == fs[1..][i - 1];
    }
  }

  /**
   * A device goes below the longest unbroken run of the levels of its
   * hierarchy, if it has one with a first level, and below Unknown if not.
   */
  lemma DevicePathIs(ns: string, di: DevInfo)
    ensures var found, path := FindBySchema(di.originMap, HIERARCHY_SCHEMA_UUID), DevicePath(ns, di);
      && (found.Some? <==> HasSchema(di.originMap, HIERARCHY_SCHEMA_UUID))
      && (found.Some? ==>
            Nested(di.originMap, found.value) && CarriesSchema(found.value, HIERARCHY_SCHEMA_UUID))
      && if found.Some? && Truthy(Said(found.value, ISA95_LEVELS[0]))
         then LongestRun(found.value, ISA95_LEVELS, path)
         else path == [ns, "Unknown"]
  {
    SearchFinds(di.originMap, HIERARCHY_SCHEMA_UUID);
    var found := FindBySchema(di.originMap, HIERARCHY_SCHEMA_UUID);
    if found.Some? {
      SegmentsAreLongestRun(found.value, ISA95_LEVELS);
    }
  }

  /** The id of the ISA-95 node at the end of a path. */
  function IsaId(path: seq<string>): Id {
    if path == [] then Slash else Isa(IsaId(path[..|path|-1]), path[|path|-1])
  }

  function IsaObj(up: Id, segment: string): Obj {
    Obj(Isa(up, segment), segment, "isa95-level", up, true)
  }

  function DeviceObj(ns: string, uuid: string, d: Device): Obj
    requires Placed(d)
  {
    Obj(Conf(uuid), DisplayName(uuid, d), Text(SchemaOf(d.devInfo.value)),
        IsaId(DevicePath(ns, d.devInfo.value)), true)
  }

  // ---- The nodes an originMap asks for ----

  /** One node visited by the walk, in the order of the walk. */
  datatype Placement = Placement(obj: Obj, meta: Option<MetricMeta>)

  predicate HasChildContainers(entry: Json) {
    entry.Object? &&
    exists i :: 0 <= i < |entry.fields| && entry.fields[i].key !in METADATA_KEYS && entry.fields[i].value.Object?
  }

  function Join(prefix: string, key: string): string {
    if prefix == "" then key else prefix + "/" + key
  }

  /** Position just after the last '/', or 0. */
  function AfterLastSlash(path: string): (n: nat)
    ensures n <= |path|
    ensures n > 0 ==> path[n-1] == '/'
    ensures forall i :: n <= i < |path| ==> path[i] != '/'
  {
    if path == "" then 0
    else if path[|path|-1] == '/' then |path|
    else AfterLastSlash(path[..|path|-1])
  }

  function Upper(c: char): char {
    if 'a' <= c <= 'z' then (c as int - 32) as char else c
  }

  function TypeSuffix(spType: string): string {
    var n := |spType|;
    var t := if n >= 2 && Upper(spType[n-1]) == 'E' && (Upper(spType[n-2]) == 'L' || Upper(spType[n-2]) == 'B')
             then spType[..n-2] else spType;
    if t in {"Float", "Double"} then "d"
    else if t in {"Int8", "Int16", "Int32", "Int64"} then "i"
    else if t in {"UInt8", "UInt16", "UInt32", "UInt64"} then "u"
    else if t == "Boolean" then "b"
    else "s"
  }

  function MetaFor(top: string, path: string, spType: string): MetricMeta {
    var n := AfterLastSlash(path);
    MetricMeta(top, if n == 0 then "" else path[..n-1], path[n..], spType, TypeSuffix(spType))
  }

  predicate IsLeaf(entry: Json) {
    Get(entry, "Sparkplug_Type").Str? && !HasChildContainers(entry)
  }

  /** Whether an entry of an originMap becomes a node at all. */
  predicate IsNode(f: Field) {
    && f.key !in METADATA_KEYS
    && f.value.Object?
    && (Get(f.value, "Sparkplug_Type").Str? || HasChildContainers(f.value))
  }

  function NodeId(f: Field, parent: Id): Id {
    var inst := Get(f.value, "Instance_UUID");
    if inst.Null? then Metric(parent, f.key) else Conf(Text(inst))
  }

  function NodeFor(f: Field, parent: Id, top: string, prefix: string): Placement
    requires IsNode(f)
  {
    var leaf := IsLeaf(f.value);
    var typeId := Get(f.value, "Schema_UUID");
    Placement(
      Obj(NodeId(f, parent), f.key, if typeId.Null? then "unknown" else Text(typeId), parent, !leaf),
      if leaf then Some(MetaFor(top, Join(prefix, f.key), Text(Get(f.value, "Sparkplug_Type")))) else None)
  }

  /** The nodes of an originMap, parents before children. */
  function Flatten(fs: seq<Field>, parent: Id, top: string, prefix: string): seq<Placement> {
    if fs == [] then []
    else
      var f := fs[0];
      var rest := Flatten(fs[1..], parent, top, prefix);
      if !IsNode(f) then rest
      else
        var below := if IsLeaf(f.value) then []
                     else Flatten(f.value.fields, NodeId(f, parent), top, Join(prefix, f.key));
        [NodeFor(f, parent, top, prefix)] + below + rest
  }

  /** The nested nodes of one device. */
  function DeviceNodes(uuid: string, di: DevInfo): seq<Placement> {
    if di.originMap.Object? then Flatten(di.originMap.fields, Conf(uuid), uuid, "") else []
  }

  /** An id already present keeps its node: the walk never overwrites. */
  function PlaceObjs(objs: map<Id, Obj>, ps: seq<Placement>): map<Id, Obj>
    decreases ps
  {
    if ps == [] then objs
    else
      var o := ps[0].obj;
      PlaceObjs(if o.elementId in objs then objs else objs[o.elementId := o], ps[1..])
  }

  /** Metric metadata is written every time a leaf is visited. */
  function PlaceMeta(metas: map<Id, MetricMeta>, ps: seq<Placement>): map<Id, MetricMeta>
    decreases ps
  {
    if ps == [] then metas
    else PlaceMeta(if ps[0].meta.Some? then metas[ps[0].obj.elementId := ps[0].meta.value] else metas, ps[1..])
  }
}
