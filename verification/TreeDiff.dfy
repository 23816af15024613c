/**
 * One emission applied as a diff: what is true after each per-device step,
 * and that the end is what a full rebuild would have given.
 */
module TreeDiff {
  import opened Basics
  import opened OriginMaps
  import opened TreeShape
  import opened TreeSpec
  import opened TreeFacts
  import opened TreeConfig
  import opened TreeUns
  import opened TreeHeld

  function TypeOf(u: string, sc: Schema): ObjectType {
    var title := Get(sc.schema, "title");
    ObjectType(u, sc.name.GetOr(if title.Null? then u else Text(title)),
               if sc.schema.Null? then Object([]) else sc.schema)
  }

  /** A type is named by Info, or else by its schema's title, or else by its UUID; without a schema it has an empty one. */
  lemma TypeIs(u: string, sc: Schema)
    ensures var t := TypeOf(u, sc);
      && t.elementId == u
      && (sc.name.Some? ==> t.displayName == sc.name.value)
      && (sc.name.None? && Get(sc.schema, "title") != Null ==> t.displayName == Text(Get(sc.schema, "title")))
      && (sc.name.None? && Get(sc.schema, "title") == Null ==> t.displayName == u)
      && (sc.schema != Null ==> t.schema == sc.schema) && (sc.schema == Null ==> t.schema == Object([]))
  {
  }

  ghost predicate TypesEq(types: map<string, ObjectType>, schemas: map<string, Schema>) {
    && types.Keys == schemas.Keys
    && forall u :: u in schemas ==> types[u] == TypeOf(u, schemas[u])
  }

  /** As far as UNS nodes go, `t` has at `id` what the original tree `s` keeps over `base`. */
  ghost predicate UnsAt(s: Snap, rank: Id -> nat, base: iset<Id>, t: Snap, id: Id)
    requires Ranked(s, rank)
  {
    && (IsUns(t, id) <==> Kept(s, rank, base, id))
    && (IsUns(t, id) ==> id in s.objects && t.objects[id] == s.objects[id])
    && (IsUns(t, id) ==> (id in t.metricMeta <==> id in s.metricMeta))
    && (IsUns(t, id) && id in t.metricMeta ==> t.metricMeta[id] == s.metricMeta[id])
  }

  /** The tree that the emission `m` asks for, with the surviving UNS nodes of `s`. */
  ghost predicate Refreshed(s: Snap, rank: Id -> nat, t: Snap, own: string -> string, ns: string, m: map<string, Device>)
    requires Ranked(s, rank)
  {
    && ConfigEq(t, own, ns, m)
    && forall id :: UnsAt(s, rank, CfgIds(own, ns, m), t, id)
  }

  /** That description leaves no choice. */
  lemma RefreshedUnique(s: Snap, rank: Id -> nat, own: string -> string, ns: string, m: map<string, Device>,
                        t: Snap, trank: Id -> nat, w: Snap, wrank: Id -> nat)
    requires Ranked(s, rank)
    requires WellFormed(t, trank, own) && Refreshed(s, rank, t, own, ns, m)
    requires WellFormed(w, wrank, own) && Refreshed(s, rank, w, own, ns, m)
    ensures t.objects == w.objects && t.sources == w.sources && t.metricMeta == w.metricMeta
    ensures forall p :: Kids(t, p) == Kids(w, p)
  {
    forall id ensures SameAt(t, w, id) {
      RefreshedSameAt(s, rank, own, ns, m, t, trank, w, wrank, id);
    }
    SameMaps(t, w);
    KidsFromObjects(t, w);
  }

  /** The configuration nodes of a tree depend on the emission alone, however the tree came about. */
  lemma ConfigDetermined(own: string -> string, ns: string, m: map<string, Device>, t: Snap, w: Snap, id: Id)
    requires ConfigEq(t, own, ns, m) && ConfigEq(w, own, ns, m)
    ensures IsConfig(t, id) <==> IsConfig(w, id)
    ensures IsConfig(t, id) ==> t.objects[id] == w.objects[id]
    ensures IsConfig(t, id) && !id.Isa? ==>
      (id in t.metricMeta <==> id in w.metricMeta) && (id in t.metricMeta ==> t.metricMeta[id] == w.metricMeta[id])
  {
    hide DevObjs, DevMeta, OnSomePath;
    assert CfgAt(t, own, ns, m, id) && CfgAt(w, own, ns, m, id);
  }

  /** Two descriptions of the same object types are the same map. */
  lemma TypesDetermined(a: map<string, ObjectType>, b: map<string, ObjectType>, schemas: map<string, Schema>)
    requires TypesEq(a, schemas) && TypesEq(b, schemas)
    ensures a == b
  {
  }

  /**
   * The incremental path and the rebuild agree: a diff applied to the tree `s`
   * and a full rebuild over the same `s` end with the same tree.
   */
  lemma DiffIsRebuild(s: Snap, rank: Id -> nat, own: string -> string, ns: string, e: Emission,
                      byDiff: Snap, drank: Id -> nat, byRebuild: Snap, rrank: Id -> nat)
    requires Ranked(s, rank)
    requires WellFormed(byDiff, drank, own) && Refreshed(s, rank, byDiff, own, ns, e.devices)
    requires WellFormed(byRebuild, rrank, own) && Refreshed(s, rank, byRebuild, own, ns, e.devices)
    requires TypesEq(byDiff.objectTypes, e.schemas) && TypesEq(byRebuild.objectTypes, e.schemas)
    ensures byDiff.(children := map[]) == byRebuild.(children := map[])
    ensures forall p :: Kids(byDiff, p) == Kids(byRebuild, p)
  {
    hide Wf, Refreshed, Ranked;
    RefreshedUnique(s, rank, own, ns, e.devices, byDiff, drank, byRebuild, rrank);
    TypesDetermined(byDiff.objectTypes, byRebuild.objectTypes, e.schemas);
  }

  lemma SameMaps(t: Snap, w: Snap)
    requires forall id :: SameAt(t, w, id)
    ensures t.objects == w.objects && t.sources == w.sources && t.metricMeta == w.metricMeta
  {
    forall id
      ensures id in t.objects <==> id in w.objects
      ensures id in t.sources <==> id in w.sources
      ensures id in t.metricMeta <==> id in w.metricMeta
    {
      assert SameAt(t, w, id);
    }
    assert t.objects.Keys == w.objects.Keys;
    assert t.sources.Keys == w.sources.Keys;
    assert t.metricMeta.Keys == w.metricMeta.Keys;
    forall id | id in t.objects ensures t.objects[id] == w.objects[id] { assert SameAt(t, w, id); }
    forall id | id in t.sources ensures t.sources[id] == w.sources[id] { assert SameAt(t, w, id); }
    forall id | id in t.metricMeta ensures t.metricMeta[id] == w.metricMeta[id] { assert SameAt(t, w, id); }
  }

  lemma KidsFromObjects(t: Snap, w: Snap)
    requires Linked(t, {}) && Linked(w, {}) && t.objects == w.objects
    ensures forall p :: Kids(t, p) == Kids(w, p)
  {
    forall p ensures Kids(t, p) == Kids(w, p) {
      forall c ensures c in Kids(t, p) <==> c in Kids(w, p) {
        if c in t.objects {
          assert c in Kids(t, t.objects[c].parentId) && c in Kids(w, w.objects[c].parentId);
        }
      }
    }
  }

  lemma RefreshedSameAt(s: Snap, rank: Id -> nat, own: string -> string, ns: string, m: map<string, Device>,
                        t: Snap, trank: Id -> nat, w: Snap, wrank: Id -> nat, id: Id)
    requires Ranked(s, rank)
    requires WellFormed(t, trank, own) && CfgAt(t, own, ns, m, id) && UnsAt(s, rank, CfgIds(own, ns, m), t, id)
    requires WellFormed(w, wrank, own) && CfgAt(w, own, ns, m, id) && UnsAt(s, rank, CfgIds(own, ns, m), w, id)
    ensures SameAt(t, w, id)
  {
    hide Kept, Ranked, Linked, NodeOk, DevObjs, DevMeta, OnSomePath;
    assert Tidy(t) && Tidy(w);
    assert id in t.objects ==> IsConfig(t, id) || IsUns(t, id);
    assert id in w.objects ==> IsConfig(w, id) || IsUns(w, id);
  }

  // ---- Local views ----

  /** `Kept` looks only at ids of the node's own device. */
  lemma {:induction false} KeptLocal(s: Snap, rank: Id -> nat, base: iset<Id>,
                                     t: Snap, trank: Id -> nat, base': iset<Id>,
                                     own: string -> string, v: string, id: Id)
    requires WellFormed(s, rank, own) && Ranked(s, rank)
    requires WellFormed(t, trank, own) && Ranked(t, trank)
    requires forall x :: OwnedBy(own, v, x) ==> SameAt(s, t, x)
    requires forall x :: OwnedBy(own, v, x) ==> (x in base <==> x in base')
    requires OwnedBy(own, v, id)
    ensures Kept(s, rank, base, id) <==> Kept(t, trank, base', id)
    decreases rank(id)
  {
    hide Wf, NodeOk, Ranked;
    if IsUns(s, id) {
      UnsNode(s, rank, own, id);
      UnsNode(t, trank, own, id);
      KeptLocal(s, rank, base, t, trank, base', own, v, s.objects[id].parentId);
    }
  }

  /** In a tree that holds its configuration every UNS node is kept. */
  lemma {:induction false} AllKept(s: Snap, rank: Id -> nat, own: string -> string, ns: string,
                                   m: map<string, Device>, id: Id)
    requires WellFormed(s, rank, own) && Ranked(s, rank) && ConfigHeld(s, own, ns, m)
    ensures IsUns(s, id) <==> Kept(s, rank, CfgIds(own, ns, m), id)
    decreases rank(id)
  {
    hide Wf, NodeOk, CfgHas, Ranked, SameButHung;
    if IsUns(s, id) {
      UnsNode(s, rank, own, id);
      assert HeldAt(s, own, ns, m, id);
      var p := s.objects[id].parentId;
      assert HeldAt(s, own, ns, m, p);
      TidyNow(s, rank, own);
      if !IsConfig(s, p) {
        AllKept(s, rank, own, ns, m, p);
      }
    }
  }

  /** A device that the configuration does not have keeps nothing. */
  lemma {:induction false} NoneKept(s: Snap, rank: Id -> nat, own: string -> string, base: iset<Id>, v: string, id: Id)
    requires WellFormed(s, rank, own) && Ranked(s, rank)
    requires forall x :: OwnedBy(own, v, x) ==> x !in base
    requires OwnedBy(own, v, id)
    ensures !Kept(s, rank, base, id)
    decreases rank(id)
  {
    hide Wf, NodeOk, Ranked;
    if IsUns(s, id) {
      UnsNode(s, rank, own, id);
      NoneKept(s, rank, own, base, v, s.objects[id].parentId);
    }
  }

  // ---- The state between two steps ----

  /** Where a diff leaves a device: where it was, or in its place if its config body is new. */
  ghost predicate HungAs(s0: Snap, s: Snap, own: string -> string, ns: string, prev: map<string, Device>,
                         next: map<string, Device>, v: string)
  {
    v in next && Placed(next[v]) && own(v) == v ==>
      && Conf(v) in s.objects
      && if v in prev && prev[v].devInfo == next[v].devInfo
         then Conf(v) in s0.objects && s.objects[Conf(v)].parentId == s0.objects[Conf(v)].parentId
         else s.objects[Conf(v)].parentId == Leaf(ns, next[v].devInfo.value)
  }

  /**
   * What a diff makes of the tree `s0`, wherever messages have moved devices:
   * the nodes that the emission asks for, the surviving UNS nodes, and every
   * device where it was or in its place.
   */
  ghost predicate Updated(s0: Snap, rank0: Id -> nat, t: Snap, own: string -> string, ns: string,
                          prev: map<string, Device>, next: map<string, Device>)
    requires Ranked(s0, rank0)
  {
    && ConfigHeld(t, own, ns, next)
    && (forall id :: UnsAt(s0, rank0, CfgIds(own, ns, next), t, id))
    && (forall v :: HungAs(s0, t, own, ns, prev, next, v))
  }

  /** Devices in `done` have their final form; the others are as they were in `s0`. */
  ghost predicate Underway(s0: Snap, rank0: Id -> nat, s: Snap, own: string -> string, ns: string,
                           prev: map<string, Device>, cur: map<string, Device>, next: map<string, Device>,
                           done: set<string>)
    requires Ranked(s0, rank0)
  {
    && ConfigHeld(s, own, ns, cur)
    && (forall v :: v in done ==> (v in cur <==> v in next) && (v in cur ==> cur[v] == next[v]))
    && (forall v :: v !in done ==> (v in cur <==> v in prev) && (v in cur ==> cur[v] == prev[v]))
    && (forall id: Id :: Owner(own, id).Some? && Owner(own, id).value !in done ==> SameAt(s0, s, id))
    && (forall id: Id :: Owner(own, id).Some? && Owner(own, id).value in done ==>
          UnsAt(s0, rank0, CfgIds(own, ns, next), s, id))
    && (forall v :: v in done ==> HungAs(s0, s, own, ns, prev, next, v))
  }

  /** Nothing that belongs to another device than `v` changes. */
  ghost predicate OnlyTouches(s: Snap, t: Snap, own: string -> string, v: string) {
    forall id: Id :: Owner(own, id).Some? && !OwnedBy(own, v, id) ==> SameAt(s, t, id)
  }

  lemma UnderwayStep(s0: Snap, rank0: Id -> nat, s: Snap, t: Snap, own: string -> string, ns: string,
                     prev: map<string, Device>, cur: map<string, Device>, cur': map<string, Device>,
                     next: map<string, Device>, done: set<string>, v: string)
    requires Ranked(s0, rank0)
    requires Underway(s0, rank0, s, own, ns, prev, cur, next, done)
    requires OnlyTouches(s, t, own, v) && HungAs(s0, t, own, ns, prev, next, v)
    requires forall x :: x != v ==> (x in cur <==> x in cur') && (x in cur ==> cur[x] == cur'[x])
    requires (v in cur' <==> v in next) && (v in cur' ==> cur'[v] == next[v])
    requires forall id :: OwnedBy(own, v, id) ==>
      HeldAt(t, own, ns, cur', id) && UnsAt(s0, rank0, CfgIds(own, ns, next), t, id)
    ensures Underway(s0, rank0, t, own, ns, prev, cur', next, done + {v})
  {
    hide HeldAt, UnsAt, SameAt, Ranked, HungAs;
    forall id | Owner(own, id).Some? ensures HeldAt(t, own, ns, cur', id) {
      if !OwnedBy(own, v, id) {
        HeldElsewhere(s, t, own, ns, cur, cur', id);
      }
    }
    UnderwayUns(s0, rank0, s, t, own, ns, prev, cur, next, done, v);
    forall w | w in done + {v} ensures HungAs(s0, t, own, ns, prev, next, w) {
      if w != v {
        HungElsewhere(s0, s, t, own, ns, prev, next, v, w);
      }
    }
  }

  lemma HungElsewhere(s0: Snap, s: Snap, t: Snap, own: string -> string, ns: string,
                      prev: map<string, Device>, next: map<string, Device>, v: string, w: string)
    requires OnlyTouches(s, t, own, v) && w != v && HungAs(s0, s, own, ns, prev, next, w)
    ensures HungAs(s0, t, own, ns, prev, next, w)
  {
    hide Placed, Leaf;
    if own(w) == w {
      assert !OwnedBy(own, v, Conf(w));
      assert SameAt(s, t, Conf(w));
    }
  }

  lemma UnderwayUns(s0: Snap, rank0: Id -> nat, s: Snap, t: Snap, own: string -> string, ns: string,
                    prev: map<string, Device>, cur: map<string, Device>, next: map<string, Device>,
                    done: set<string>, v: string)
    requires Ranked(s0, rank0)
    requires Underway(s0, rank0, s, own, ns, prev, cur, next, done) && OnlyTouches(s, t, own, v)
    requires forall id :: OwnedBy(own, v, id) ==> UnsAt(s0, rank0, CfgIds(own, ns, next), t, id)
    ensures forall id: Id :: Owner(own, id).Some? && Owner(own, id).value in done + {v} ==>
      UnsAt(s0, rank0, CfgIds(own, ns, next), t, id)
    ensures forall id: Id :: Owner(own, id).Some? && Owner(own, id).value !in done + {v} ==> SameAt(s0, t, id)
  {
    hide ConfigHeld, HungAs, Kept, Ranked;
    forall id: Id | Owner(own, id).Some? && Owner(own, id).value in done + {v}
      ensures UnsAt(s0, rank0, CfgIds(own, ns, next), t, id)
    {
      if !OwnedBy(own, v, id) {
        assert SameAt(s, t, id);
        assert UnsAt(s0, rank0, CfgIds(own, ns, next), s, id);
      }
    }
    forall id: Id | Owner(own, id).Some? && Owner(own, id).value !in done + {v} ensures SameAt(s0, t, id) {
      assert SameAt(s, t, id) && SameAt(s0, s, id);
    }
  }

  // ---- Replacing, adding ----

  lemma {:induction false} CleanUpElsewhere(s: Snap, x: Id, id: Id)
    requires !id.Isa?
    ensures SameAt(s, CleanUp(s, x), id)
    decreases x
  {
    if x.Isa? && Kids(s, x) == {} {
      CleanUpElsewhere(if x in s.objects then DropIsa(s, x) else s, x.up, id);
    }
  }

  lemma RemovedElsewhere(s: Snap, own: string -> string, v: string, id: Id)
    requires Owner(own, id).Some? && !OwnedBy(own, v, id)
    ensures SameAt(s, RemovedDevice(s, own, v), id)
  {
    if Conf(v) in s.objects {
      var p := s.objects[Conf(v)].parentId;
      var t := Detach(s, Owned(s, own, v), Conf(v), p);
      assert SameAt(s, t, id);
      CleanUpElsewhere(t, p, id);
    }
  }

  lemma BuiltElsewhere(s: Snap, t: Snap, rank: Id -> nat, ns: string, own: string -> string, v: string, d: Device, id: Id)
    requires WellFormed(s, rank, own) && Owned(s, own, v) == {}
    requires BuiltFrom(s, t, ns, v, d) && KeepsToItself(own, v, d)
    requires Owner(own, id).Some? && !OwnedBy(own, v, id)
    ensures SameAt(s, t, id)
  {
    hide Wf, WithPath, BuiltFrom, Owned, KeepsToItself, DevObjs, DevMeta, NodeOk;
    NothingOwned(s, rank, own, v);
    BuiltParts(s, t, ns, own, v, d);
    BuiltGrew(s, t, ns, v, d);
    KeysAgree(s, rank, own);
    if Placed(d) {
      WithPathIs(s.objects, Leaf(ns, d.devInfo.value));
      NotAbove(Leaf(ns, d.devInfo.value), id);
    }
  }

  lemma GraftElsewhere(t: Snap, w: Snap, s: Snap, g: set<Id>, id: Id)
    requires Grafted(t, w, s, g) && id !in g
    ensures SameAt(t, w, id)
  {
  }

  lemma NoMetaOutside(s: Snap, rank: Id -> nat, own: string -> string)
    requires WellFormed(s, rank, own)
    ensures forall c :: c in s.metricMeta ==> c in s.objects
  {
  }

  /** After a replacement the tree matches the configuration with the new entry. */
  lemma ReplaceCfg(s: Snap, rank: Id -> nat, built: Snap, t: Snap, own: string -> string, ns: string,
                   cur: map<string, Device>, v: string, d: Device)
    requires WellFormed(s, rank, own) && Ranked(s, rank) && ConfigEq(s, own, ns, cur) && GoodDevices(own, cur)
    requires KeepsToItself(own, v, d)
    requires BuiltFrom(RemovedDevice(s, own, v), built, ns, v, d)
    requires Grafted(built, t, s, KeptSet(s, rank, Ids(built)) * Owned(s, own, v))
    ensures WellFormed(RemovedDevice(s, own, v), rank, own) && Owned(RemovedDevice(s, own, v), own, v) == {}
    ensures Grew(RemovedDevice(s, own, v), built)
    ensures ConfigEq(built, own, ns, cur[v := d]) && ConfigEq(t, own, ns, cur[v := d])
  {
    hide Wf, NodeOk, Ranked, CfgAt, BuiltFrom, KeepsToItself, GoodDevices, RemovedDevice, Owned, Kept;
    var r := RemovedDevice(s, own, v);
    OwnSelf(own, v, d);
    RemoveCfg(s, rank, own, ns, cur, v);
    RemovedHasNone(s, rank, own, v);
    assert (cur - {v})[v := d] == cur[v := d];
    AddCfg(r, built, rank, ns, own, cur - {v}, v, d);
    BuiltGrew(r, built, ns, v, d);
    KeysAgree(r, rank, own);
    GrewKeys(r, built);
    NoMetaOutside(s, rank, own);
    KeptOutside(s, rank, Ids(built));
    GraftKeepsCfg(built, t, s, KeptSet(s, rank, Ids(built)) * Owned(s, own, v), own, ns, cur[v := d]);
  }

  lemma OwnSelf(own: string -> string, v: string, d: Device)
    requires KeepsToItself(own, v, d)
    ensures own(v) == v
  {
  }

  lemma GrewKeys(s: Snap, t: Snap)
    requires Grew(s, t)
    ensures t.sources.Keys == t.objects.Keys
  {
  }

  lemma KeptOutside(s: Snap, rank: Id -> nat, base: iset<Id>)
    requires Ranked(s, rank)
    ensures forall c :: c in KeptSet(s, rank, base) ==> c !in base
  {
  }

  lemma RemovedHasNone(s: Snap, rank: Id -> nat, own: string -> string, v: string)
    requires WellFormed(s, rank, own) && own(v) == v
    ensures Owned(RemovedDevice(s, own, v), own, v) == {}
  {
    hide Wf, NodeOk;
    if Conf(v) in s.objects {
      RemovedOwnsNothing(s, rank, own, v);
    } else {
      NoneWithoutDevice(s, rank, own, v);
    }
  }

  lemma NoneWithoutDevice(s: Snap, rank: Id -> nat, own: string -> string, v: string)
    requires WellFormed(s, rank, own) && Conf(v) !in s.objects
    ensures Owned(s, own, v) == {}
  {
    hide Wf, NodeOk;
    forall c | c in s.objects ensures !OwnedBy(own, v, c) {
      if OwnedBy(own, v, c) {
        OwnerPresent(s, rank, own, v, c);
      }
    }
  }

  /** The id sets that decide what a device keeps are the same for its own nodes. */
  lemma SameBase(r: Snap, rank: Id -> nat, built: Snap, own: string -> string, ns: string,
                 cur: map<string, Device>, next: map<string, Device>, v: string, x: Id)
    requires WellFormed(r, rank, own) && Owned(r, own, v) == {} && Grew(r, built)
    requires CfgAt(built, own, ns, cur, x) && OwnedBy(own, v, x)
    requires (v in cur <==> v in next) && (v in cur ==> cur[v] == next[v])
    ensures x in CfgIds(own, ns, next) <==> x in Ids(built)
    ensures !IsUns(built, x)
  {
    hide Wf, NodeOk, DevObjs, DevMeta;
    NothingOwned(r, rank, own, v);
    KeysAgree(r, rank, own);
  }

  lemma ReplaceUnsAt(s0: Snap, rank0: Id -> nat, s: Snap, rank: Id -> nat, built: Snap, t: Snap,
                     own: string -> string, ns: string, next: map<string, Device>, v: string, id: Id)
    requires WellFormed(s0, rank0, own) && Ranked(s0, rank0)
    requires WellFormed(s, rank, own) && Ranked(s, rank)
    requires forall x :: OwnedBy(own, v, x) ==> SameAt(s0, s, x)
    requires forall x :: OwnedBy(own, v, x) ==> (x in CfgIds(own, ns, next) <==> x in Ids(built)) && !IsUns(built, x)
    requires built.sources.Keys == built.objects.Keys
    requires forall c :: c in built.metricMeta && OwnedBy(own, v, c) ==> c in built.objects
    requires Grafted(built, t, s, KeptSet(s, rank, Ids(built)) * Owned(s, own, v))
    requires OwnedBy(own, v, id)
    ensures UnsAt(s0, rank0, CfgIds(own, ns, next), t, id)
  {
    hide Wf, NodeOk, Ranked, CfgHas, Kept;
    KeptLocal(s0, rank0, CfgIds(own, ns, next), s, rank, Ids(built), own, v, id);
    KeptIsUns(s, rank, Ids(built), id);
  }

  lemma KeptIsUns(s: Snap, rank: Id -> nat, base: iset<Id>, id: Id)
    requires Ranked(s, rank)
    ensures Kept(s, rank, base, id) ==> IsUns(s, id) && id !in base
  {
  }

  lemma BuiltMetaInside(r: Snap, rank: Id -> nat, built: Snap, own: string -> string, ns: string, v: string, d: Device)
    requires WellFormed(r, rank, own) && Owned(r, own, v) == {}
    requires BuiltFrom(r, built, ns, v, d) && KeepsToItself(own, v, d)
    ensures forall c :: c in built.metricMeta && OwnedBy(own, v, c) ==> c in built.objects
  {
    hide Wf, WithPath, BuiltFrom, Owned, KeepsToItself, DevObjs, DevMeta, NodeOk;
    NothingOwned(r, rank, own, v);
    BuiltParts(r, built, ns, own, v, d);
    DevMetaInside(ns, v, d);
  }

  lemma DevMetaInside(ns: string, v: string, d: Device)
    ensures DevMeta(v, d).Keys <= DevObjs(ns, v, d).Keys
  {
    if Placed(d) {
      PlaceMetaInside(map[Conf(v) := DeviceObj(ns, v, d)], map[], DeviceNodes(v, d.devInfo.value));
    }
  }

  lemma {:induction false} PlaceMetaInside(objs: map<Id, Obj>, metas: map<Id, MetricMeta>, ps: seq<Placement>)
    requires metas.Keys <= objs.Keys
    ensures PlaceMeta(metas, ps).Keys <= PlaceObjs(objs, ps).Keys
    decreases ps
  {
    if ps != [] {
      var p := ps[0];
      PlaceMetaInside(if p.obj.elementId in objs then objs else objs[p.obj.elementId := p.obj],
                      if p.meta.Some? then metas[p.obj.elementId := p.meta.value] else metas, ps[1..]);
    }
  }

  lemma ReplaceStep(s0: Snap, rank0: Id -> nat, s: Snap, rank: Id -> nat, built: Snap, t: Snap,
                    own: string -> string, ns: string, prev: map<string, Device>,
                    cur: map<string, Device>, next: map<string, Device>, done: set<string>, v: string)
    requires WellFormed(s0, rank0, own) && Ranked(s0, rank0)
    requires WellFormed(s, rank, own) && Ranked(s, rank)
    requires Underway(s0, rank0, s, own, ns, prev, cur, next, done)
    requires GoodDevices(own, cur) && v in next && v !in done && KeepsToItself(own, v, next[v])
    requires !(v in prev && prev[v].devInfo == next[v].devInfo)
    requires BuiltFrom(RemovedDevice(s, own, v), built, ns, v, next[v])
    requires Grafted(built, t, s, KeptSet(s, rank, Ids(built)) * Owned(s, own, v))
    ensures Underway(s0, rank0, t, own, ns, prev, cur[v := next[v]], next, done + {v})
    ensures ConfigEq(s, own, ns, cur) ==> ConfigEq(t, own, ns, cur[v := next[v]])
  {
    hide Wf, NodeOk, Ranked, CfgAt, BuiltFrom, KeepsToItself, GoodDevices, RemovedDevice, Owned, Kept, KeptSet,
         Grafted, CfgHas, Grew, UnsAt, SameAt, HeldAt, Leaf, Underway, ConfigEq, OnlyTouches;
    var d, r, cur' := next[v], RemovedDevice(s, own, v), cur[v := next[v]];
    OwnSelf(own, v, d);
    RemovedKeepsWf(s, rank, own, v);
    RemovedHasNone(s, rank, own, v);
    BuiltGrew(r, built, ns, v, d);
    KeysAgree(r, rank, own);
    GrewKeys(r, built);
    BuiltMetaInside(r, rank, built, own, ns, v, d);
    forall x | OwnedBy(own, v, x)
      ensures (x in CfgIds(own, ns, next) <==> x in Ids(built)) && !IsUns(built, x)
      ensures HeldAt(t, own, ns, cur', x) && CfgAt(t, own, ns, cur', x)
    {
      BuiltCfg(r, rank, built, own, ns, cur', v, d, x);
      SameBase(r, rank, built, own, ns, cur', next, v, x);
      GraftCfg(s, rank, built, t, own, ns, cur', v, x);
      CfgIsHeld(t, own, ns, cur', x);
    }
    assert HungAs(s0, t, own, ns, prev, next, v) by {
      ReplacedHangs(s0, t, own, ns, prev, cur', next, v);
    }
    UnderwaySame(s0, rank0, s, own, ns, prev, cur, next, done, v);
    forall id | OwnedBy(own, v, id) ensures UnsAt(s0, rank0, CfgIds(own, ns, next), t, id) {
      ReplaceUnsAt(s0, rank0, s, rank, built, t, own, ns, next, v, id);
    }
    assert OnlyTouches(s, t, own, v) by {
      ReplaceTouches(s, rank, built, t, own, ns, v, d);
    }
    UnderwayStep(s0, rank0, s, t, own, ns, prev, cur, cur', next, done, v);
    if ConfigEq(s, own, ns, cur) {
      ReplaceCfg(s, rank, built, t, own, ns, cur, v, d);
    }
  }

  lemma ReplaceTouches(s: Snap, rank: Id -> nat, built: Snap, t: Snap, own: string -> string, ns: string,
                       v: string, d: Device)
    requires Ranked(s, rank) && KeepsToItself(own, v, d)
    requires WellFormed(RemovedDevice(s, own, v), rank, own) && Owned(RemovedDevice(s, own, v), own, v) == {}
    requires BuiltFrom(RemovedDevice(s, own, v), built, ns, v, d)
    requires Grafted(built, t, s, KeptSet(s, rank, Ids(built)) * Owned(s, own, v))
    ensures OnlyTouches(s, t, own, v)
  {
    hide Wf, NodeOk, Ranked, BuiltFrom, KeepsToItself, RemovedDevice, KeptSet, Grafted, SameAt;
    forall id: Id | Owner(own, id).Some? && !OwnedBy(own, v, id) ensures SameAt(s, t, id) {
      ReplaceElsewhere(s, rank, built, t, own, ns, v, d, id);
    }
  }

  lemma UnderwaySame(s0: Snap, rank0: Id -> nat, s: Snap, own: string -> string, ns: string,
                     prev: map<string, Device>, cur: map<string, Device>, next: map<string, Device>,
                     done: set<string>, v: string)
    requires Ranked(s0, rank0) && Underway(s0, rank0, s, own, ns, prev, cur, next, done) && v !in done
    ensures forall x :: OwnedBy(own, v, x) ==> SameAt(s0, s, x)
  {
    hide ConfigHeld, HungAs, UnsAt, Ranked;
  }

  /** What a device has after it was built is what its config asks for. */
  lemma BuiltCfg(r: Snap, rank: Id -> nat, built: Snap, own: string -> string, ns: string,
                 m: map<string, Device>, v: string, d: Device, id: Id)
    requires WellFormed(r, rank, own) && Owned(r, own, v) == {} && OwnedBy(own, v, id)
    requires BuiltFrom(r, built, ns, v, d) && KeepsToItself(own, v, d) && v in m && m[v] == d
    ensures CfgAt(built, own, ns, m, id)
  {
    hide Wf, NodeOk, CfgAt, BuiltFrom, KeepsToItself, Owned, DevObjs, DevMeta;
    NothingOwned(r, rank, own, v);
    BuiltParts(r, built, ns, own, v, d);
    BuiltGrew(r, built, ns, v, d);
    KeysAgree(r, rank, own);
    AddCfgOwned(built, own, ns, m, v, d, id);
  }

  /** The UNS nodes put back beside it do not disturb it. */
  lemma GraftCfg(s: Snap, rank: Id -> nat, built: Snap, t: Snap, own: string -> string, ns: string,
                 m: map<string, Device>, v: string, id: Id)
    requires Ranked(s, rank) && CfgAt(built, own, ns, m, id) && Owner(own, id).Some?
    requires Grafted(built, t, s, KeptSet(s, rank, Ids(built)) * Owned(s, own, v))
    ensures CfgAt(t, own, ns, m, id)
  {
    hide Ranked, CfgHas, DevObjs, DevMeta, KeptSet;
    KeptOutside(s, rank, Ids(built));
    if id !in KeptSet(s, rank, Ids(built)) * Owned(s, own, v) {
      GraftElsewhere(built, t, s, KeptSet(s, rank, Ids(built)) * Owned(s, own, v), id);
    }
  }

  lemma ReplacedHangs(s0: Snap, t: Snap, own: string -> string, ns: string, prev: map<string, Device>,
                      m: map<string, Device>, next: map<string, Device>, v: string)
    requires v in m && v in next && m[v] == next[v] && KeepsToItself(own, v, next[v])
    requires CfgAt(t, own, ns, m, Conf(v))
    requires !(v in prev && prev[v].devInfo == next[v].devInfo)
    ensures HungAs(s0, t, own, ns, prev, next, v)
  {
    hide CfgAt, KeepsToItself;
    if Placed(next[v]) {
      PlacedDevice(t, own, ns, m, v);
      DeviceAtLeaf(ns, v, next[v]);
    }
  }

  lemma RemovedKeepsWf(s: Snap, rank: Id -> nat, own: string -> string, v: string)
    requires WellFormed(s, rank, own) && own(v) == v
    ensures WellFormed(RemovedDevice(s, own, v), rank, own)
  {
    hide Wf, NodeOk, Detach, Owned, CleanUp;
    if Conf(v) in s.objects {
      var p := s.objects[Conf(v)].parentId;
      DetachKeepsWf(s, rank, own, v);
      CleanUpKeepsWf(Detach(s, Owned(s, own, v), Conf(v), p), rank, own, p);
    }
  }

  lemma ReplaceElsewhere(s: Snap, rank: Id -> nat, built: Snap, t: Snap, own: string -> string, ns: string,
                         v: string, d: Device, id: Id)
    requires Ranked(s, rank) && KeepsToItself(own, v, d)
    requires WellFormed(RemovedDevice(s, own, v), rank, own) && Owned(RemovedDevice(s, own, v), own, v) == {}
    requires BuiltFrom(RemovedDevice(s, own, v), built, ns, v, d)
    requires Grafted(built, t, s, KeptSet(s, rank, Ids(built)) * Owned(s, own, v))
    requires Owner(own, id).Some? && !OwnedBy(own, v, id)
    ensures SameAt(s, t, id)
  {
    hide Wf, NodeOk, Ranked, BuiltFrom, KeepsToItself, RemovedDevice, KeptSet, Grafted;
    var r := RemovedDevice(s, own, v);
    RemovedElsewhere(s, own, v, id);
    BuiltElsewhere(r, built, rank, ns, own, v, d, id);
    GraftElsewhere(built, t, s, KeptSet(s, rank, Ids(built)) * Owned(s, own, v), id);
  }

  // ---- Keeping, renaming ----

  lemma {:induction false} PlaceObjsOver(objs: map<Id, Obj>, k: Id, o: Obj, ps: seq<Placement>)
    requires k in objs
    ensures PlaceObjs(objs[k := o], ps) == PlaceObjs(objs, ps)[k := o]
    decreases ps
  {
    if ps != [] {
      var p := ps[0].obj;
      if p.elementId in objs {
        PlaceObjsOver(objs, k, o, ps[1..]);
      } else {
        assert objs[k := o][p.elementId := p] == objs[p.elementId := p][k := o];
        PlaceObjsOver(objs[p.elementId := p], k, o, ps[1..]);
      }
    }
  }

  /** A new name changes the device's own node and nothing else. */
  lemma DevObjsRenamed(ns: string, v: string, d: Device, d': Device)
    requires d'.devInfo == d.devInfo
    ensures DevObjs(ns, v, d').Keys == DevObjs(ns, v, d).Keys && DevMeta(v, d') == DevMeta(v, d)
    ensures forall x :: x in DevObjs(ns, v, d) && x != Conf(v) ==> DevObjs(ns, v, d')[x] == DevObjs(ns, v, d)[x]
    ensures Conf(v) in DevObjs(ns, v, d) <==> Placed(d)
    ensures Placed(d) ==> DevObjs(ns, v, d')[Conf(v)] ==
                          DevObjs(ns, v, d)[Conf(v)].(displayName := DisplayName(v, d'))
  {
    if Placed(d) {
      var o, o', nodes := DeviceObj(ns, v, d), DeviceObj(ns, v, d'), DeviceNodes(v, d.devInfo.value);
      PlaceObjsOver(map[Conf(v) := o], Conf(v), o', nodes);
      PlaceObjsGrows(map[Conf(v) := o], nodes);
      assert map[Conf(v) := o][Conf(v) := o'] == map[Conf(v) := o'];
    }
  }

  /** What the diff does to the tree for a device whose config body did not change. */
  ghost predicate Renamed(s: Snap, t: Snap, v: string, name: string) {
    && t.sources == s.sources && t.metricMeta == s.metricMeta && t.objectTypes == s.objectTypes
    && t.objects == if Conf(v) in s.objects then s.objects[Conf(v) := s.objects[Conf(v)].(displayName := name)]
                    else s.objects
  }

  lemma RenameCfgAt(s: Snap, t: Snap, own: string -> string, ns: string, m: map<string, Device>,
                    v: string, d': Device, id: Id)
    requires CfgAt(s, own, ns, m, id) && CfgAt(s, own, ns, m, Conf(v)) && v in m && own(v) == v
    requires Conf(v) in s.objects ==> IsConfig(s, Conf(v))
    requires d'.devInfo == m[v].devInfo && Renamed(s, t, v, DisplayName(v, d'))
    ensures CfgAt(t, own, ns, m[v := d'], id)
  {
    hide DevObjs, DevMeta, OnSomePath, IsaAbove;
    DevObjsRenamed(ns, v, m[v], d');
    var m' := m[v := d'];
    assert Owner(own, Conf(v)) == Some(v);
    if id.Isa? {
      SamePaths(ns, m, v, d', id);
    }
  }

  lemma SamePaths(ns: string, m: map<string, Device>, v: string, d': Device, id: Id)
    requires v in m && d'.devInfo == m[v].devInfo
    ensures OnSomePath(ns, m[v := d'], id) <==> OnSomePath(ns, m, id)
  {
    var m' := m[v := d'];
    if u :| u in m && Placed(m[u]) && id in IsaAbove(Leaf(ns, m[u].devInfo.value)) {
      assert u in m' && Placed(m'[u]) && m'[u].devInfo == m[u].devInfo;
    }
    if u :| u in m' && Placed(m'[u]) && id in IsaAbove(Leaf(ns, m'[u].devInfo.value)) {
      assert u in m && Placed(m[u]) && m'[u].devInfo == m[u].devInfo;
    }
  }

  lemma SameBaseKeys(own: string -> string, ns: string, prev: map<string, Device>, next: map<string, Device>,
                     v: string, x: Id)
    requires OwnedBy(own, v, x) && v in prev && v in next && next[v].devInfo == prev[v].devInfo
    ensures x in CfgIds(own, ns, prev) <==> x in CfgIds(own, ns, next)
  {
    hide DevObjs;
    DevObjsRenamed(ns, v, prev[v], next[v]);
  }

  lemma KeepUnsAt(s0: Snap, rank0: Id -> nat, s: Snap, t: Snap, own: string -> string, ns: string,
                  prev: map<string, Device>, next: map<string, Device>, v: string, id: Id)
    requires WellFormed(s0, rank0, own) && Ranked(s0, rank0) && ConfigHeld(s0, own, ns, prev)
    requires v in prev && v in next && next[v].devInfo == prev[v].devInfo
    requires SameAt(s0, s, id) && OwnedBy(own, v, id)
    requires id != Conf(v) ==> SameAt(s, t, id)
    requires id == Conf(v) ==> !IsUns(t, id) && !IsUns(s0, id)
    ensures UnsAt(s0, rank0, CfgIds(own, ns, next), t, id)
  {
    hide Wf, NodeOk, Ranked, CfgHas, Kept;
    forall x | OwnedBy(own, v, x)
      ensures SameAt(s0, s0, x) && (x in CfgIds(own, ns, prev) <==> x in CfgIds(own, ns, next))
    {
      SameBaseKeys(own, ns, prev, next, v, x);
    }
    AllKept(s0, rank0, own, ns, prev, id);
    KeptLocal(s0, rank0, CfgIds(own, ns, prev), s0, rank0, CfgIds(own, ns, next), own, v, id);
  }

  lemma KeepStep(s0: Snap, rank0: Id -> nat, s: Snap, rank: Id -> nat, t: Snap,
                 own: string -> string, ns: string, prev: map<string, Device>,
                 cur: map<string, Device>, next: map<string, Device>, done: set<string>, v: string)
    requires WellFormed(s0, rank0, own) && Ranked(s0, rank0) && ConfigHeld(s0, own, ns, prev)
    requires WellFormed(s, rank, own)
    requires Underway(s0, rank0, s, own, ns, prev, cur, next, done)
    requires v in prev && v in next && v !in done && own(v) == v
    requires next[v].devInfo == prev[v].devInfo
    requires Renamed(s, t, v, DisplayName(v, next[v])) || (t == s && next[v] == prev[v])
    ensures Underway(s0, rank0, t, own, ns, prev, cur[v := next[v]], next, done + {v})
    ensures ConfigEq(s, own, ns, cur) ==> ConfigEq(t, own, ns, cur[v := next[v]])
  {
    hide Wf, NodeOk, Ranked, CfgHas, Kept, CfgAt, UnsAt, HeldAt, SameAt, Underway, ConfigEq, ConfigHeld, OnlyTouches,
         HungAs, Renamed;
    var cur' := cur[v := next[v]];
    UnderwaySame(s0, rank0, s, own, ns, prev, cur, next, done, v);
    CurrentIs(s0, rank0, s, own, ns, prev, cur, next, done, v);
    if Conf(v) in s.objects {
      DeviceIsConfig(s, rank, own, v);
    }
    if Conf(v) in s0.objects {
      DeviceIsConfig(s0, rank0, own, v);
    }
    forall id | OwnedBy(own, v, id)
      ensures HeldAt(t, own, ns, cur', id) && UnsAt(s0, rank0, CfgIds(own, ns, next), t, id)
    {
      KeepHeldAt(s, t, own, ns, cur, v, next[v], id);
      KeepSame(s, t, own, v, DisplayName(v, next[v]), id);
      KeepUnsAt(s0, rank0, s, t, own, ns, prev, next, v, id);
    }
    assert HungAs(s0, t, own, ns, prev, next, v) by {
      KeepHangs(s0, rank0, s, t, own, ns, prev, next, v);
    }
    assert OnlyTouches(s, t, own, v) by {
      KeepTouches(s, t, own, v, DisplayName(v, next[v]));
    }
    UnderwayStep(s0, rank0, s, t, own, ns, prev, cur, cur', next, done, v);
    if ConfigEq(s, own, ns, cur) {
      KeepCfg(s, rank, t, own, ns, cur, v, next[v]);
    }
  }

  lemma CurrentIs(s0: Snap, rank0: Id -> nat, s: Snap, own: string -> string, ns: string,
                  prev: map<string, Device>, cur: map<string, Device>, next: map<string, Device>,
                  done: set<string>, v: string)
    requires Ranked(s0, rank0) && Underway(s0, rank0, s, own, ns, prev, cur, next, done) && v !in done
    ensures (v in cur <==> v in prev) && (v in cur ==> cur[v] == prev[v])
    ensures ConfigHeld(s, own, ns, cur)
  {
    hide ConfigHeld, HungAs, UnsAt, Ranked, SameAt;
  }

  lemma KeepSame(s: Snap, t: Snap, own: string -> string, v: string, name: string, id: Id)
    requires t == s || Renamed(s, t, v, name)
    requires Conf(v) in s.objects ==> IsConfig(s, Conf(v))
    ensures id != Conf(v) ==> SameAt(s, t, id)
    ensures !IsUns(t, Conf(v))
  {
  }

  lemma KeepTouches(s: Snap, t: Snap, own: string -> string, v: string, name: string)
    requires t == s || Renamed(s, t, v, name)
    requires own(v) == v
    ensures OnlyTouches(s, t, own, v)
  {
    assert OwnedBy(own, v, Conf(v));
  }

  lemma KeepHangs(s0: Snap, rank0: Id -> nat, s: Snap, t: Snap, own: string -> string, ns: string,
                  prev: map<string, Device>, next: map<string, Device>, v: string)
    requires WellFormed(s0, rank0, own) && ConfigHeld(s0, own, ns, prev)
    requires own(v) == v && SameAt(s0, s, Conf(v)) && v in prev && v in next && next[v].devInfo == prev[v].devInfo
    requires t == s || Renamed(s, t, v, DisplayName(v, next[v]))
    ensures HungAs(s0, t, own, ns, prev, next, v)
  {
    hide Wf, NodeOk, HeldAt, ConfigHeld;
    HeldOf(s0, own, ns, prev, Conf(v));
    HeldDevice(s0, rank0, own, ns, prev, v);
  }

  lemma KeepHeldAt(s: Snap, t: Snap, own: string -> string, ns: string, m: map<string, Device>, v: string,
                   d': Device, id: Id)
    requires ConfigHeld(s, own, ns, m) && OwnedBy(own, v, id) && v in m && own(v) == v
    requires Conf(v) in s.objects ==> IsConfig(s, Conf(v))
    requires d'.devInfo == m[v].devInfo
    requires Renamed(s, t, v, DisplayName(v, d')) || (t == s && m[v] == d')
    ensures HeldAt(t, own, ns, m[v := d'], id)
  {
    hide DevObjs, DevMeta;
    DevObjsRenamed(ns, v, m[v], d');
    assert Owner(own, Conf(v)) == Some(v);
    assert HeldAt(s, own, ns, m, id) && HeldAt(s, own, ns, m, Conf(v));
  }

  lemma KeepCfg(s: Snap, rank: Id -> nat, t: Snap, own: string -> string, ns: string, m: map<string, Device>,
                v: string, d': Device)
    requires WellFormed(s, rank, own) && ConfigEq(s, own, ns, m) && v in m && own(v) == v
    requires d'.devInfo == m[v].devInfo
    requires Renamed(s, t, v, DisplayName(v, d')) || (t == s && m[v] == d')
    ensures ConfigEq(t, own, ns, m[v := d'])
  {
    hide Wf, NodeOk, CfgAt, Renamed;
    if Conf(v) in s.objects {
      DeviceIsConfig(s, rank, own, v);
    }
    if t == s && m[v] == d' {
      assert m[v := d'] == m;
    } else {
      var m' := m[v := d'];
      forall id ensures CfgAt(t, own, ns, m', id) {
        assert CfgAt(s, own, ns, m, id) && CfgAt(s, own, ns, m, Conf(v));
        RenameCfgAt(s, t, own, ns, m, v, d', id);
      }
    }
  }

  // ---- Removing ----

  lemma AbsentBase(own: string -> string, ns: string, next: map<string, Device>, v: string)
    requires v !in next
    ensures forall x :: OwnedBy(own, v, x) ==> x !in CfgIds(own, ns, next)
  {
  }

  lemma RemoveStep(s0: Snap, rank0: Id -> nat, s: Snap, rank: Id -> nat,
                   own: string -> string, ns: string, prev: map<string, Device>,
                   cur: map<string, Device>, next: map<string, Device>, done: set<string>, v: string)
    requires WellFormed(s0, rank0, own) && Ranked(s0, rank0)
    requires WellFormed(s, rank, own) && GoodDevices(own, cur)
    requires Underway(s0, rank0, s, own, ns, prev, cur, next, done)
    requires v !in next && v !in done && own(v) == v
    ensures Underway(s0, rank0, RemovedDevice(s, own, v), own, ns, prev, cur - {v}, next, done + {v})
    ensures ConfigEq(s, own, ns, cur) ==> ConfigEq(RemovedDevice(s, own, v), own, ns, cur - {v})
  {
    hide Wf, NodeOk, Ranked, CfgHas, Kept, CfgAt, RemovedDevice, GoodDevices, HeldAt, Underway, SameAt, ConfigEq;
    var t := RemovedDevice(s, own, v);
    RemovedKeepsWf(s, rank, own, v);
    RemovedHasNone(s, rank, own, v);
    NothingOwned(t, rank, own, v);
    AbsentBase(own, ns, next, v);
    forall id | OwnedBy(own, v, id)
      ensures HeldAt(t, own, ns, cur - {v}, id) && UnsAt(s0, rank0, CfgIds(own, ns, next), t, id)
    {
      NoneKept(s0, rank0, own, CfgIds(own, ns, next), v, id);
      GoneAt(t, own, ns, cur - {v}, v, id);
      CfgIsHeld(t, own, ns, cur - {v}, id);
    }
    assert HungAs(s0, t, own, ns, prev, next, v);
    forall id: Id | Owner(own, id).Some? && !OwnedBy(own, v, id) ensures SameAt(s, t, id) {
      RemovedElsewhere(s, own, v, id);
    }
    UnderwayStep(s0, rank0, s, t, own, ns, prev, cur, cur - {v}, next, done, v);
    if ConfigEq(s, own, ns, cur) {
      RemoveCfg(s, rank, own, ns, cur, v);
    }
  }

  // ---- Beginning and end ----

  lemma DiffStarts(s: Snap, rank: Id -> nat, own: string -> string, ns: string,
                   prev: map<string, Device>, next: map<string, Device>)
    requires Ranked(s, rank) && ConfigHeld(s, own, ns, prev)
    ensures Underway(s, rank, s, own, ns, prev, prev, next, {})
  {
  }

  lemma DiffEnds(s0: Snap, rank0: Id -> nat, s: Snap, rank: Id -> nat, own: string -> string, ns: string,
                 prev: map<string, Device>, cur: map<string, Device>, next: map<string, Device>, done: set<string>)
    requires WellFormed(s0, rank0, own) && Ranked(s0, rank0) && ConfigHeld(s0, own, ns, prev)
    requires WellFormed(s, rank, own)
    requires Underway(s0, rank0, s, own, ns, prev, cur, next, done)
    requires prev.Keys <= done && next.Keys <= done
    ensures cur == next && Updated(s0, rank0, s, own, ns, prev, next)
    ensures ConfigEq(s, own, ns, cur) ==> Refreshed(s0, rank0, s, own, ns, next)
  {
    hide Wf, NodeOk, Ranked, CfgHas, Kept, ConfigHeld, HungAs, ConfigEq;
    assert cur == next;
    forall v ensures HungAs(s0, s, own, ns, prev, next, v) {
      if v !in done {
        NotAskedFor(s0, s, own, ns, prev, next, v);
      }
    }
    forall id ensures UnsAt(s0, rank0, CfgIds(own, ns, next), s, id) {
      KeptIsUns(s0, rank0, CfgIds(own, ns, next), id);
      if Owner(own, id).None? {
        OwnerlessIsNotUns(s, rank, own, id);
        OwnerlessIsNotUns(s0, rank0, own, id);
      } else if Owner(own, id).value !in done {
        var v := Owner(own, id).value;
        StrangerHasNone(s0, rank0, own, ns, prev, v);
        NothingOwned(s0, rank0, own, v);
        assert SameAt(s0, s, id);
      }
    }
  }

  lemma NotAskedFor(s0: Snap, s: Snap, own: string -> string, ns: string, prev: map<string, Device>,
                    next: map<string, Device>, v: string)
    requires v !in next
    ensures HungAs(s0, s, own, ns, prev, next, v)
  {
  }

  /** That description leaves no choice for any node of a device. */
  lemma UpdatedUnique(s0: Snap, rank0: Id -> nat, own: string -> string, ns: string, prev: map<string, Device>,
                      next: map<string, Device>, t: Snap, trank: Id -> nat, w: Snap, wrank: Id -> nat, id: Id)
    requires Ranked(s0, rank0) && Owner(own, id).Some?
    requires WellFormed(t, trank, own) && Updated(s0, rank0, t, own, ns, prev, next)
    requires WellFormed(w, wrank, own) && Updated(s0, rank0, w, own, ns, prev, next)
    ensures SameAt(t, w, id)
  {
    hide Ranked, Linked, NodeOk, DevMeta, CfgHas, HeldAt, UnsAt, HungAs, DeviceNodes, Leaf;
    assert Tidy(t) && Tidy(w);
    var v := Owner(own, id).value;
    assert HeldAt(t, own, ns, next, id) && HeldAt(w, own, ns, next, id);
    assert UnsAt(s0, rank0, CfgIds(own, ns, next), t, id) && UnsAt(s0, rank0, CfgIds(own, ns, next), w, id);
    assert HungAs(s0, t, own, ns, prev, next, v) && HungAs(s0, w, own, ns, prev, next, v);
    if IsConfig(t, id) {
      SameHeld(s0, t, w, own, ns, prev, next, id);
    }
    SameUns(s0, rank0, CfgIds(own, ns, next), t, w, id);
    assert IsConfig(t, id) <==> IsConfig(w, id) by { SameSource(t, w, own, ns, next, id); }
  }

  lemma SameSource(t: Snap, w: Snap, own: string -> string, ns: string, m: map<string, Device>, id: Id)
    requires Owner(own, id).Some? && HeldAt(t, own, ns, m, id) && HeldAt(w, own, ns, m, id)
    ensures IsConfig(t, id) <==> IsConfig(w, id)
  {
    hide CfgHas, DevObjs, DevMeta, SameButHung;
  }

  lemma SameUns(s: Snap, rank: Id -> nat, base: iset<Id>, t: Snap, w: Snap, id: Id)
    requires Ranked(s, rank) && UnsAt(s, rank, base, t, id) && UnsAt(s, rank, base, w, id)
    ensures IsUns(t, id) <==> IsUns(w, id)
    ensures IsUns(t, id) ==> t.objects[id] == w.objects[id]
    ensures IsUns(t, id) ==> (id in t.metricMeta <==> id in w.metricMeta)
    ensures IsUns(t, id) && id in t.metricMeta ==> t.metricMeta[id] == w.metricMeta[id]
  {
    hide Kept, Ranked;
  }

  lemma SameHeld(s0: Snap, t: Snap, w: Snap, own: string -> string, ns: string, prev: map<string, Device>,
                 next: map<string, Device>, id: Id)
    requires Owner(own, id).Some? && IsConfig(t, id)
    requires HeldAt(t, own, ns, next, id) && HeldAt(w, own, ns, next, id)
    requires HungAs(s0, t, own, ns, prev, next, Owner(own, id).value)
    requires HungAs(s0, w, own, ns, prev, next, Owner(own, id).value)
    ensures IsConfig(w, id) && t.objects[id] == w.objects[id]
    ensures id in t.metricMeta <==> id in w.metricMeta
    ensures id in t.metricMeta ==> t.metricMeta[id] == w.metricMeta[id]
  {
    hide DevMeta, DeviceNodes, Leaf;
  }

  lemma OwnerlessIsNotUns(s: Snap, rank: Id -> nat, own: string -> string, id: Id)
    requires WellFormed(s, rank, own) && Owner(own, id).None?
    ensures !IsUns(s, id)
  {
    if id in s.objects {
      assert NodeOk(s, own, {}, id);
    }
  }
}
