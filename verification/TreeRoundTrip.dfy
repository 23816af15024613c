/**
 * What adding and then removing a device leaves behind, and two facts about
 * every well-formed tree.
 */
module TreeRoundTrip {
  import opened Basics
  import opened OriginMaps
  import opened TreeShape
  import opened TreeSpec
  import opened TreeFacts
  import opened TreeConfig
  import opened TreeUns
  import opened TreeDiff
  import opened ObjectTrees

  /** Two snapshots show the same tree: equal maps, and equal child lists up to empty ones. */
  ghost predicate SameTree(s: Snap, t: Snap) {
    && t.objects == s.objects && t.sources == s.sources && t.metricMeta == s.metricMeta
    && t.objectTypes == s.objectTypes
    && forall p :: Kids(t, p) == Kids(s, p)
  }

  /** Every ISA-95 node on the way up from `x` that is in the tree has a child. */
  ghost predicate NoneChildless(s: Snap, x: Id) {
    forall y :: y in IsaAbove(x) && y in s.objects ==> Kids(s, y) != {}
  }

  /** `t` is `s` with the missing ISA-95 nodes up to `x`, and no more. */
  ghost predicate PathOver(s: Snap, t: Snap, x: Id) {
    && t.objects == WithPath(s.objects, x)
    && t.metricMeta == s.metricMeta && t.objectTypes == s.objectTypes
    && t.sources.Keys == t.objects.Keys
    && forall c :: c in s.sources ==> c in t.sources && t.sources[c] == s.sources[c]
  }

  lemma PathOverNothing(s: Snap, rank: Id -> nat, t: Snap, trank: Id -> nat, own: string -> string)
    requires WellFormed(s, rank, own) && WellFormed(t, trank, own)
    requires t.objects == s.objects && t.metricMeta == s.metricMeta && t.objectTypes == s.objectTypes
    requires forall c :: c in s.sources ==> c in t.sources && t.sources[c] == s.sources[c]
    ensures SameTree(s, t)
  {
    hide NodeOk;
    assert t.sources.Keys == s.sources.Keys;
    KidsFromObjects(t, s);
  }

  /** The nodes on the path are above `x`, so they are not its children. */
  lemma KidsOverPath(s: Snap, rank: Id -> nat, t: Snap, trank: Id -> nat, own: string -> string, x: Id)
    requires WellFormed(s, rank, own) && WellFormed(t, trank, own) && PathOver(s, t, x) && x.Isa?
    ensures Kids(t, x) == Kids(s, x)
    ensures x !in s.objects ==> Kids(s, x) == {}
  {
    hide Wf, NodeOk, Ranked, Linked, Kids;
    RankedNow(s, rank, own);
    WithPathIs(s.objects, x);
    IsaAboveSmaller(x.up, x);
    forall c | c in Kids(t, x) ensures c in Kids(s, x) {
      KidInTree(t, trank, own, x, c);
      if c !in s.objects {
        IsaUp(t, trank, own, c);
        NotOwnAncestor(x, c);
      }
      NodeListed(s, rank, own, c);
    }
    forall c | c in Kids(s, x) ensures c in Kids(t, x) {
      KidInTree(s, rank, own, x, c);
      NodeListed(t, trank, own, c);
    }
    ParentPresent(s, rank, x);
  }

  lemma ParentPresent(s: Snap, rank: Id -> nat, x: Id)
    requires Linked(s, {}) && Ranked(s, rank) && x != Slash
    ensures Kids(s, x) != {} ==> x in s.objects
  {
    if c :| c in Kids(s, x) {
      assert c in s.objects && s.objects[c].parentId == x;
    }
  }

  lemma {:induction false} NotOwnAncestor(x: Id, c: Id)
    requires c.Isa? && c.up == x
    ensures c !in IsaAbove(x)
  {
    IsaAboveSmaller(x, c);
  }

  /** The whole path is there as soon as its lowest node is. */
  lemma {:induction false} PathClosed(s: Snap, rank: Id -> nat, own: string -> string, x: Id)
    requires WellFormed(s, rank, own) && (x.Isa? ==> x in s.objects)
    ensures forall y :: y in IsaAbove(x) ==> y in s.objects
    ensures forall y :: y in IsaAbove(x) && y != x ==> Kids(s, y) != {}
    decreases x
  {
    hide Wf, NodeOk;
    if x.Isa? {
      IsaUp(s, rank, own, x);
      RankedNow(s, rank, own);
      PathClosed(s, rank, own, x.up);
      if x.up.Isa? {
        assert x in Kids(s, x.up);
      }
    }
  }

  /** Cleaning up from `x` restores `s` exactly when no node of `s` on the way was childless. */
  lemma {:induction false} CleanUpExact(s: Snap, rank: Id -> nat, t: Snap, trank: Id -> nat, own: string -> string, x: Id)
    requires WellFormed(s, rank, own) && WellFormed(t, trank, own) && PathOver(s, t, x)
    requires x.Isa? || x.Slash?
    ensures SameTree(s, CleanUp(t, x)) <==> NoneChildless(s, x)
    decreases x
  {
    hide Wf, NodeOk, DropIsa;
    if !x.Isa? {
      PathOverNothing(s, rank, t, trank, own);
    } else {
      KidsOverPath(s, rank, t, trank, own, x);
      if x in s.objects {
        PathClosed(s, rank, own, x);
        WithPathThere(s.objects, x);
        assert t.objects == s.objects;
        if Kids(s, x) == {} {
          CleanUpShrinks(DropIsa(t, x), x.up);
          DropIsaIs(t, x);
          assert x !in CleanUp(t, x).objects;
          assert x in IsaAbove(x);
        } else {
          PathOverNothing(s, rank, t, trank, own);
        }
      } else {
        WithPathIs(s.objects, x);
        TidyNow(s, rank, own);
        DropIsaKeepsWf(t, trank, own, x);
        DropPath(s, t, x);
        UpOfPath(t, trank, own, x);
        CleanUpExact(s, rank, DropIsa(t, x), trank, own, x.up);
      }
    }
  }

  lemma UpOfPath(t: Snap, trank: Id -> nat, own: string -> string, x: Id)
    requires WellFormed(t, trank, own) && x in t.objects && x.Isa?
    ensures x.up.Isa? || x.up.Slash?
  {
    assert NodeOk(t, own, {}, x);
  }

  lemma DropPath(s: Snap, t: Snap, x: Id)
    requires PathOver(s, t, x) && x.Isa? && x !in s.objects && x in t.objects && x !in s.sources
    ensures PathOver(s, DropIsa(t, x), x.up)
  {
    WithPathIs(s.objects, x.up);
    IsaAboveSmaller(x.up, x);
    assert x !in WithPath(s.objects, x.up);
    assert WithPath(s.objects, x) - {x} == WithPath(s.objects, x.up);
    assert DropIsa(t, x).metricMeta == t.metricMeta;
  }

  /** Dropping what a device owns from a map leaves the map that agrees elsewhere. */
  lemma DropOwned<V>(a: map<Id, V>, b: map<Id, V>, gone: set<Id>, own: string -> string, u: string)
    requires AgreeElsewhere(a, b, own, u)
    requires forall id :: id in a && OwnedBy(own, u, id) ==> id in gone
    requires forall id :: id in gone ==> OwnedBy(own, u, id)
    requires forall id :: OwnedBy(own, u, id) ==> id !in b
    ensures a - gone == b
  {
    assert (a - gone).Keys == b.Keys;
  }

  lemma DetachMaps(t: Snap, gone: set<Id>, d: Id, p: Id)
    ensures Detach(t, gone, d, p).objects == t.objects - gone
    ensures Detach(t, gone, d, p).metricMeta == t.metricMeta - gone
    ensures Detach(t, gone, d, p).sources == t.sources - gone
    ensures Detach(t, gone, d, p).objectTypes == t.objectTypes
  {
  }

  lemma DetachBuilt(s: Snap, rank: Id -> nat, t: Snap, trank: Id -> nat, own: string -> string, ns: string,
                    u: string, d: Device)
    requires WellFormed(s, rank, own) && Owned(s, own, u) == {} && Placed(d) && KeepsToItself(own, u, d)
    requires WellFormed(t, trank, own) && BuiltFrom(s, t, ns, u, d) && Conf(u) in t.objects
    ensures PathOver(s, Detach(t, Owned(t, own, u), Conf(u), t.objects[Conf(u)].parentId), Leaf(ns, d.devInfo.value))
  {
    hide Wf, NodeOk, BuiltFrom, DevObjs, DevMeta, IsaAbove, KeepsToItself, Detach, AgreeElsewhere, AgreeOwned;
    var leaf, gone := Leaf(ns, d.devInfo.value), Owned(t, own, u);
    NothingOwned(s, rank, own, u);
    BuiltParts(s, t, ns, own, u, d);
    BuiltGrew(s, t, ns, u, d);
    TidyNow(s, rank, own);
    TidyNow(t, trank, own);
    WithPathIs(s.objects, leaf);
    forall id | OwnedBy(own, u, id) ensures id !in WithPath(s.objects, leaf) {
      NotAboveOwned(own, u, leaf, id);
    }
    DetachMaps(t, gone, Conf(u), t.objects[Conf(u)].parentId);
    DropOwned(t.objects, WithPath(s.objects, leaf), gone, own, u);
    DropOwned(t.metricMeta, s.metricMeta, gone, own, u);
  }

  lemma NotAboveOwned(own: string -> string, u: string, leaf: Id, id: Id)
    requires OwnedBy(own, u, id)
    ensures id !in IsaAbove(leaf)
  {
  }

  /** The device's own node hangs from the end of its path. */
  lemma BuiltDevice(s: Snap, t: Snap, ns: string, own: string -> string, u: string, d: Device)
    requires BuiltFrom(s, t, ns, u, d) && Placed(d) && Conf(u) !in s.objects
    ensures Conf(u) in t.objects && t.objects[Conf(u)].parentId == Leaf(ns, d.devInfo.value)
  {
    PlaceObjsGrows(WithPath(s.objects, Leaf(ns, d.devInfo.value))[Conf(u) := DeviceObj(ns, u, d)],
                   DeviceNodes(u, d.devInfo.value));
  }

  /**
   * Removing a device straight after adding it restores the tree exactly when
   * no ISA-95 node that was already on the device's path was childless.
   */
  lemma AddThenRemove(s: Snap, rank: Id -> nat, t: Snap, trank: Id -> nat, own: string -> string, ns: string,
                      u: string, d: Device)
    requires WellFormed(s, rank, own) && Owned(s, own, u) == {} && KeepsToItself(own, u, d)
    requires WellFormed(t, trank, own) && BuiltFrom(s, t, ns, u, d)
    ensures SameTree(s, RemovedDevice(t, own, u)) <==>
            (Placed(d) ==> NoneChildless(s, Leaf(ns, d.devInfo.value)))
  {
    hide Wf, NodeOk, BuiltFrom, NoneChildless, SameTree, Owned, Detach, PathOver, IsaAbove, KeepsToItself;
    OwnSelf(own, u, d);
    NothingOwned(s, rank, own, u);
    assert OwnedBy(own, u, Conf(u));
    if Placed(d) {
      BuiltDevice(s, t, ns, own, u, d);
      var leaf := Leaf(ns, d.devInfo.value);
      var w := Detach(t, Owned(t, own, u), Conf(u), leaf);
      DetachBuilt(s, rank, t, trank, own, ns, u, d);
      DetachKeepsWf(t, trank, own, u);
      CleanUpExact(s, rank, w, trank, own, leaf);
      RemovedPresent(t, own, u);
    } else {
      NothingBuilt(s, rank, t, own, ns, u, d);
    }
  }

  lemma RemovedPresent(t: Snap, own: string -> string, u: string)
    requires Conf(u) in t.objects
    ensures var p := t.objects[Conf(u)].parentId;
      RemovedDevice(t, own, u) == CleanUp(Detach(t, Owned(t, own, u), Conf(u), p), p)
  {
  }

  lemma NothingBuilt(s: Snap, rank: Id -> nat, t: Snap, own: string -> string, ns: string, u: string, d: Device)
    requires WellFormed(s, rank, own) && BuiltFrom(s, t, ns, u, d) && !Placed(d) && Conf(u) !in s.objects
    requires exists r :: WellFormed(t, r, own)
    ensures SameTree(s, RemovedDevice(t, own, u))
  {
    hide NodeOk;
    var trank :| WellFormed(t, trank, own);
    RemovedAbsent(t, own, u);
    PathOverNothing(s, rank, t, trank, own);
  }

  /** In the tree of a configuration no ISA-95 node is childless, so there the round trip always holds. */
  lemma ConfigHasNoneChildless(s: Snap, rank: Id -> nat, own: string -> string, ns: string, m: map<string, Device>)
    requires WellFormed(s, rank, own) && ConfigEq(s, own, ns, m) && GoodDevices(own, m)
    ensures forall x: Id :: x.Isa? && x in s.objects ==> Kids(s, x) != {}
    ensures forall x :: NoneChildless(s, x)
  {
    hide Wf, NodeOk, CfgIs, GoodDevices;
    forall x: Id | x.Isa? && x in s.objects ensures Kids(s, x) != {} {
      ConfigIsClean(s, rank, own, ns, m, x);
      ChildlessIffUnused(s, rank, own, ns, m, x);
      IsaIsConfig(s, rank, own, x);
      assert CfgAt(s, own, ns, m, x);
    }
  }

  lemma ConfigIsClean(s: Snap, rank: Id -> nat, own: string -> string, ns: string, m: map<string, Device>, x: Id)
    requires WellFormed(s, rank, own) && ConfigEq(s, own, ns, m)
    ensures CleaningAt(s, own, ns, m, x)
  {
    hide Wf, NodeOk, CfgIs, OnSomePath;
    forall y: Id | y.Isa? ensures y in s.objects <==> OnSomePath(ns, m, y) {
      assert CfgAt(s, own, ns, m, y);
      if y in s.objects {
        IsaIsConfig(s, rank, own, y);
      }
    }
  }

  // ---- Parent chains ----

  /** From any node the parent pointers lead, in finitely many steps and without repetition of rank, to "/". */
  lemma {:induction false} ChainEnds(s: Snap, rank: Id -> nat, own: string -> string, c: Id) returns (chain: seq<Id>)
    requires WellFormed(s, rank, own) && c in s.objects
    ensures chain != [] && chain[0] == c
    ensures forall i :: 0 <= i < |chain| ==> chain[i] in s.objects
    ensures forall i :: 0 <= i < |chain| - 1 ==> chain[i + 1] == s.objects[chain[i]].parentId
    ensures s.objects[chain[|chain| - 1]].parentId == Slash
    ensures forall i, j :: 0 <= i < j < |chain| ==> chain[i] != chain[j]
    ensures forall i :: 0 <= i < |chain| ==> rank(chain[i]) <= rank(c)
    decreases rank(c)
  {
    hide NodeOk, Tidy, Linked;
    var p := s.objects[c].parentId;
    if p == Slash {
      chain := [c];
    } else {
      var rest := ChainEnds(s, rank, own, p);
      chain := [c] + rest;
    }
  }

  /** No configuration node hangs from a UNS node. */
  lemma ConfigAboveConfig(s: Snap, rank: Id -> nat, own: string -> string, c: Id)
    requires WellFormed(s, rank, own) && IsConfig(s, c) && s.objects[c].parentId != Slash
    ensures IsConfig(s, s.objects[c].parentId)
  {
    assert NodeOk(s, own, {}, c);
    if s.objects[c].parentId.Isa? {
      assert NodeOk(s, own, {}, s.objects[c].parentId);
    }
  }

  // ---- A rebuild that goes wrong ----

  const D := Conf("d")
  const X := Conf("x")
  const Y := Conf("y")
  const TOP := Isa(Slash, "ns")
  const UNKNOWN := Isa(TOP, "Unknown")

  /** The tree of an emission with one device d that has no metrics. */
  const PLAIN := Device(Some(DevInfo(Str("S"), None, Object([]))), None)
  const SEED := Snap(
    map[],
    map[TOP := IsaObj(Slash, "ns"), UNKNOWN := IsaObj(TOP, "Unknown"), D := Obj(D, "d", "S", UNKNOWN, true)],
    map[Slash := {TOP}, TOP := {UNKNOWN}, UNKNOWN := {D}],
    map[],
    map[TOP := Config, UNKNOWN := Config, D := Config])

  /** The same after d has sent a message that shows d / X / Y. */
  const BEFORE :=
    Insert(Insert(SEED, Obj(X, "X", "unknown", D, true), Uns), Obj(Y, "Y", "unknown", X, false), Uns)

  /** The next configuration names the instance of Y, directly under d. */
  const Y_ENTRY := Object([Field("Instance_UUID", Str("y")), Field("Sparkplug_Type", Str("FloatLE"))])
  const AFTER := Device(Some(DevInfo(Str("S"), None, Object([Field("Y", Y_ENTRY)]))), None)

  function Depth(x: Id): nat {
    if x == TOP then 1 else if x == UNKNOWN then 2 else if x == D then 3 else if x == X then 4 else 5
  }

  predicate SeedOrBefore(s: Snap) {
    s == SEED || s == BEFORE
  }

  lemma ExampleKids(s: Snap, q: Id)
    requires SeedOrBefore(s)
    ensures Kids(s, q) ==
      if q == Slash then {TOP} else if q == TOP then {UNKNOWN} else if q == UNKNOWN then {D}
      else if s == BEFORE && q == D then {X} else if s == BEFORE && q == X then {Y} else {}
  {
  }

  function ExampleParent(c: Id): Id {
    if c == TOP then Slash else if c == UNKNOWN then TOP else if c == D then UNKNOWN else if c == X then D else X
  }

  lemma ExampleNodes(s: Snap, c: Id)
    requires SeedOrBefore(s) && c in s.objects
    ensures c == TOP || c == UNKNOWN || c == D || (s == BEFORE && (c == X || c == Y))
    ensures s.objects[c].parentId == ExampleParent(c) && s.objects[c].elementId == c && c != Slash
    ensures ExampleParent(c) == Slash || (ExampleParent(c) in s.objects && Depth(ExampleParent(c)) < Depth(c))
  {
  }

  lemma ExampleLinks(s: Snap)
    requires SeedOrBefore(s)
    ensures Tidy(s) && Linked(s, {}) && Ranked(s, Depth)
  {
    hide Kids, Depth, SeedOrBefore, Linked, Ranked;
    SameKeys(s);
    forall c | c in s.objects ensures s.objects[c].elementId == c && c != Slash {
      ExampleNodes(s, c);
    }
    ExampleLinked(s);
    ExampleRanked(s);
  }

  lemma ExampleRanked(s: Snap)
    requires SeedOrBefore(s)
    ensures Ranked(s, Depth)
  {
    hide Depth, SeedOrBefore;
    SameKeys(s);
    forall c | c in s.objects
      ensures var p := s.objects[c].parentId; p == Slash || (p in s.objects && Depth(p) < Depth(c))
    {
      ExampleNodes(s, c);
    }
  }

  lemma ExampleLinked(s: Snap)
    requires SeedOrBefore(s)
    ensures Linked(s, {})
  {
    hide Kids, SeedOrBefore, ExampleParent;
    forall c | c in s.objects ensures c in Kids(s, s.objects[c].parentId) {
      ExampleNodes(s, c);
      ListedByParent(s, c);
    }
    forall p, c | c in Kids(s, p) ensures c in s.objects && s.objects[c].parentId == p {
      ExampleListed(s, p, c);
    }
  }

  lemma ListedByParent(s: Snap, c: Id)
    requires SeedOrBefore(s) && c in s.objects
    ensures c in Kids(s, ExampleParent(c))
  {
    hide Kids;
    ExampleNodes(s, c);
    ExampleKids(s, ExampleParent(c));
  }

  lemma SameKeys(s: Snap)
    requires SeedOrBefore(s)
    ensures s.objects.Keys == s.sources.Keys && s.metricMeta == map[] && Slash !in s.objects
  {
  }

  lemma ExampleListed(s: Snap, p: Id, c: Id)
    requires SeedOrBefore(s) && c in Kids(s, p)
    ensures c in s.objects && s.objects[c].parentId == p
  {
  }

  lemma ExampleNodeOk(s: Snap, own: string -> string, c: Id)
    requires SeedOrBefore(s) && own("d") == "d" && own("x") == "d" && own("y") == "d" && c in s.objects
    ensures NodeOk(s, own, {}, c)
  {
    assert X != D && Y != D;
    ExampleNodes(s, c);
  }

  lemma ExampleIsWellFormed(s: Snap, own: string -> string)
    requires SeedOrBefore(s) && forall x :: own(x) == "d"
    ensures WellFormed(s, Depth, own)
  {
    hide Tidy, Linked, Ranked, NodeOk, SeedOrBefore;
    ExampleLinks(s);
    forall c | c in s.objects ensures NodeOk(s, own, {}, c) {
      ExampleNodeOk(s, own, c);
    }
  }

  lemma PlainNodes()
    ensures DevObjs("ns", "d", PLAIN) == map[D := SEED.objects[D]] && DevMeta("d", PLAIN) == map[]
    ensures Placed(PLAIN) && Leaf("ns", PLAIN.devInfo.value) == UNKNOWN
  {
    var path := DevicePath("ns", PLAIN.devInfo.value);
    assert path == ["ns", "Unknown"];
    assert path[..1] == ["ns"] && path[..1][..0] == [];
    assert IsaId(["ns"]) == TOP;
    assert DeviceNodes("d", PLAIN.devInfo.value) == [];
  }

  lemma ExampleConfig(s: Snap, own: string -> string)
    requires SeedOrBefore(s) && forall x :: own(x) == "d"
    ensures ConfigEq(s, own, "ns", map["d" := PLAIN])
  {
    hide CfgAt, SeedOrBefore;
    var m := map["d" := PLAIN];
    forall id ensures CfgAt(s, own, "ns", m, id) {
      if id.Isa? {
        ExampleLevel(s, own, m, id);
      } else {
        ExampleCfgAt(s, own, m, id);
      }
    }
  }

  lemma ExampleLevel(s: Snap, own: string -> string, m: map<string, Device>, id: Id)
    requires SeedOrBefore(s) && m == map["d" := PLAIN] && id.Isa?
    ensures CfgAt(s, own, "ns", m, id)
  {
    hide OnSomePath, IsaAbove, Leaf, SeedOrBefore, ExampleParent, Depth;
    PlainLevels(m, id);
    ExampleIsa(s);
    if id in s.objects {
      ExampleNodes(s, id);
    }
  }

  lemma ExampleIsa(s: Snap)
    requires SeedOrBefore(s)
    ensures IsConfig(s, TOP) && s.objects[TOP] == IsaObj(Slash, "ns")
    ensures IsConfig(s, UNKNOWN) && s.objects[UNKNOWN] == IsaObj(TOP, "Unknown")
  {
  }

  lemma ExampleCfgAt(s: Snap, own: string -> string, m: map<string, Device>, id: Id)
    requires SeedOrBefore(s) && (forall x :: own(x) == "d") && m == map["d" := PLAIN] && !id.Isa?
    ensures CfgAt(s, own, "ns", m, id)
  {
    hide DevObjs, DevMeta, OnSomePath;
    PlainNodes();
    if id in s.objects {
      ExampleNodes(s, id);
    }
  }

  lemma PlainLevels(m: map<string, Device>, id: Id)
    requires m == map["d" := PLAIN]
    ensures OnSomePath("ns", m, id) <==> id == TOP || id == UNKNOWN
  {
    PlainNodes();
    assert IsaAbove(UNKNOWN) == {UNKNOWN, TOP};
    assert forall u :: u in m ==> Leaf("ns", m[u].devInfo.value) == UNKNOWN;
    assert "d" in m;
  }

  lemma ExampleGrows(own: string -> string)
    requires forall x :: own(x) == "d"
    ensures UnsGrew(SEED, BEFORE, own, "d")
  {
    hide UnsGrew, Wf;
    var x := Obj(X, "X", "unknown", D, true);
    ExampleIsWellFormed(SEED, own);
    UnsGrewNone(SEED, Depth, own, "d");
    UnsGrewInsert(SEED, SEED, own, "d", x);
    UnsGrewInsert(SEED, Insert(SEED, x, Uns), own, "d", Obj(Y, "Y", "unknown", X, false));
  }

  lemma ExampleMessage()
    ensures Shows(SEED, BEFORE, [D, X, Y], ["d", "x", "y"], [], ["X", "Y"], 2)
  {
    var path, segments: seq<string> := [D, X, Y], ["X", "Y"];
    assert IsSegment(BEFORE, X, path, [], segments, 0);
    assert IsSegment(BEFORE, Y, path, [], segments, 1);
    forall c | c in BEFORE.objects && c !in SEED.objects ensures FromSegment(BEFORE, c, path, [], segments) {
      ExampleNodes(BEFORE, c);
    }
    assert GoesTo(BEFORE, D, X, "X", InstanceAt(["d", "x", "y"], 0));
    assert GoesTo(BEFORE, X, Y, "Y", InstanceAt(["d", "x", "y"], 1));
  }

  lemma AfterNamesY(own: string -> string)
    requires forall x :: own(x) == "d"
    ensures KeepsToItself(own, "d", AFTER)
    ensures D in DevObjs("ns", "d", AFTER) && Y in DevObjs("ns", "d", AFTER) && X !in DevObjs("ns", "d", AFTER)
  {
    var f := Field("Y", Y_ENTRY);
    var fs := [f];
    assert Get(Y_ENTRY, "Instance_UUID") == Str("y");
    assert Y_ENTRY.fields[1..][0].key == "Sparkplug_Type";
    assert Get(Y_ENTRY, "Sparkplug_Type") == Str("FloatLE");
    assert IsNode(f) && NodeId(f, D) == Y;
    assert !HasChildContainers(Y_ENTRY);
    assert IsLeaf(Y_ENTRY);
    var node := NodeFor(f, D, "d", "");
    assert fs[1..] == [];
    assert Flatten(fs, D, "d", "") == [node] + [] + [];
    assert DeviceNodes("d", AFTER.devInfo.value) == [node];
    var o := DeviceObj("ns", "d", AFTER);
    assert [node][1..] == [];
    assert PlaceObjs(map[D := o], [node]) == map[D := o, Y := node.obj];
  }

  /**
   * Ids below a carried UNS node can be reused: an emission, a message that
   * shows d / X / Y, and an emission that gives the instance of Y to a metric
   * of d itself.
   */
  lemma ReuseExample(own: string -> string)
    requires forall x :: own(x) == "d"
    ensures WellFormed(SEED, Depth, own) && ConfigEq(SEED, own, "ns", map["d" := PLAIN])
    ensures UnsGrew(SEED, BEFORE, own, "d")
    ensures Shows(SEED, BEFORE, [D, X, Y], ["d", "x", "y"], [], ["X", "Y"], 2)
    ensures WellFormed(BEFORE, Depth, own) && ConfigEq(BEFORE, own, "ns", map["d" := PLAIN])
    ensures GoodDevices(own, map["d" := AFTER])
    ensures !NoReuse(BEFORE, Depth, CfgIds(own, "ns", map["d" := AFTER]))
    ensures Y in Carried(BEFORE, Depth, CfgIds(own, "ns", map["d" := AFTER]))
    ensures CfgHas(own, "ns", map["d" := AFTER], Y)
  {
    ExampleIsWellFormed(SEED, own);
    ExampleIsWellFormed(BEFORE, own);
    ExampleConfig(SEED, own);
    ExampleConfig(BEFORE, own);
    ExampleGrows(own);
    ExampleMessage();
    AfterNamesY(own);
    AfterReusesY(own);
  }

  lemma AfterReusesY(own: string -> string)
    requires Ranked(BEFORE, Depth) && forall x :: own(x) == "d"
    ensures CfgHas(own, "ns", map["d" := AFTER], Y)
    ensures Y in Carried(BEFORE, Depth, CfgIds(own, "ns", map["d" := AFTER]))
    ensures !NoReuse(BEFORE, Depth, CfgIds(own, "ns", map["d" := AFTER]))
  {
    AfterNamesY(own);
    var m := map["d" := AFTER];
    var base := CfgIds(own, "ns", m);
    assert CfgHas(own, "ns", m, D) && CfgHas(own, "ns", m, Y) && !CfgHas(own, "ns", m, X);
    assert CarryRoot(BEFORE, base, X);
    assert Below(BEFORE, Depth, X, X) && Below(BEFORE, Depth, Y, X);
    assert Y in Carried(BEFORE, Depth, base);
  }

  /**
   * The rebuild then lets the UNS node win over the metric of the same id:
   * whatever fresh tree `t` it starts from, the result is not the tree of the
   * emission and is not linked.
   */
  lemma ReuseOutcome(own: string -> string, t: Snap, trank: Id -> nat, w: Snap)
    requires forall x :: own(x) == "d"
    requires WellFormed(t, trank, own) && AllFromConfig(t) && ConfigEq(t, own, "ns", map["d" := AFTER])
    requires Ranked(BEFORE, Depth) && Overlaid(t, w, BEFORE, Carried(BEFORE, Depth, Ids(t)))
    ensures IsConfig(t, Y) && IsUns(w, Y) && w.objects[Y].parentId == X
    ensures !ConfigEq(w, own, "ns", map["d" := AFTER]) && !Linked(w, {})
  {
    hide Wf, NodeOk, Ranked, Linked, ConfigEq, Carried, NoReuse, CfgIds, CfgHas;
    var m := map["d" := AFTER];
    AfterReusesY(own);
    ExampleIsWellFormed(BEFORE, own);
    AllConfigured(t, own, "ns", m);
    RebuildExact(BEFORE, Depth, own, t, trank, w, "ns", m);
    assert Y in BEFORE.objects && BEFORE.objects[Y].parentId == X;
  }

  lemma AllConfigured(t: Snap, own: string -> string, ns: string, m: map<string, Device>)
    requires AllFromConfig(t) && ConfigEq(t, own, ns, m)
    ensures Ids(t) == CfgIds(own, ns, m)
    ensures forall id :: IsConfig(t, id) <==> CfgHas(own, ns, m, id)
  {
    hide CfgHas, CfgIs;
    forall id ensures (id in t.objects <==> CfgHas(own, ns, m, id)) && (IsConfig(t, id) <==> CfgHas(own, ns, m, id)) {
      assert CfgAt(t, own, ns, m, id);
    }
  }
}
