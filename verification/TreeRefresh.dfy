/**
 * The pipeline that keeps the tree current: a full rebuild that swaps in a
 * fresh snapshot, and a diff between two emissions that edits the live one.
 */
module TreeRefresh {
  import opened Basics
  import opened OriginMaps
  import opened TreeShape
  import opened TreeSpec
  import opened TreeFacts
  import opened TreeConfig
  import opened TreeUns
  import opened TreeHeld
  import opened TreeDiff
  import opened ObjectTrees

  // ---- Facts about types and emissions ----

  lemma EmptyCfg(own: string -> string, ns: string)
    ensures ConfigEq(EMPTY, own, ns, map[])
  {
  }

  lemma GrewAllFromConfig(s: Snap, rank: Id -> nat, own: string -> string, t: Snap)
    requires WellFormed(s, rank, own) && AllFromConfig(s) && Grew(s, t)
    ensures AllFromConfig(t)
  {
  }

  lemma IdsAreCfgIds(t: Snap, own: string -> string, ns: string, m: map<string, Device>)
    requires AllFromConfig(t) && ConfigEq(t, own, ns, m)
    ensures Ids(t) == CfgIds(own, ns, m)
  {
    hide DevObjs, DevMeta, OnSomePath;
    forall id ensures id in Ids(t) <==> id in CfgIds(own, ns, m) {
      assert CfgAt(t, own, ns, m, id);
    }
  }

  /** Without reuse a rebuild ends where the unique description says. */
  lemma RebuildRefreshed(s: Snap, rank: Id -> nat, own: string -> string, t: Snap, trank: Id -> nat, w: Snap,
                         ns: string, m: map<string, Device>)
    requires WellFormed(s, rank, own) && Ranked(s, rank) && WellFormed(t, trank, own)
    requires AllFromConfig(t) && ConfigEq(t, own, ns, m)
    requires Overlaid(t, w, s, Carried(s, rank, Ids(t))) && NoReuse(s, rank, Ids(t))
    ensures Refreshed(s, rank, w, own, ns, m)
  {
    hide Wf, NodeOk, Ranked, Linked, DevObjs, DevMeta, OnSomePath, CfgHas, Kept, Carried, CfgAt;
    RebuildExact(s, rank, own, t, trank, w, ns, m);
    CarriedIsKept(s, rank, own, Ids(t));
    IdsAreCfgIds(t, own, ns, m);
    TidyNow(s, rank, own);
    TidyNow(t, trank, own);
    forall id ensures UnsAt(s, rank, CfgIds(own, ns, m), w, id) {
      OverlayUnsAt(s, rank, t, w, id);
    }
  }

  lemma OverlayUnsAt(s: Snap, rank: Id -> nat, t: Snap, w: Snap, id: Id)
    requires Ranked(s, rank) && AllFromConfig(t)
    requires t.sources.Keys == t.objects.Keys && t.metricMeta.Keys <= t.objects.Keys
    requires s.metricMeta.Keys <= s.objects.Keys
    requires Grafted(t, w, s, KeptSet(s, rank, Ids(t)))
    ensures UnsAt(s, rank, Ids(t), w, id)
  {
    hide Ranked, Kept, KeptSet;
    KeptIsUns(s, rank, Ids(t), id);
    InKeptSet(s, rank, Ids(t), id);
  }

  lemma InKeptSet(s: Snap, rank: Id -> nat, base: iset<Id>, id: Id)
    requires Ranked(s, rank)
    ensures id in KeptSet(s, rank, base) <==> Kept(s, rank, base, id)
  {
  }

  lemma RemovedTypes(s: Snap, own: string -> string, u: string)
    ensures RemovedDevice(s, own, u).objectTypes == s.objectTypes
  {
    if Conf(u) in s.objects {
      var p := s.objects[Conf(u)].parentId;
      CleanUpTypes(Detach(s, Owned(s, own, u), Conf(u), p), p);
    }
  }

  lemma {:induction false} CleanUpTypes(s: Snap, x: Id)
    ensures CleanUp(s, x).objectTypes == s.objectTypes
    decreases x
  {
    if x.Isa? && Kids(s, x) == {} {
      CleanUpTypes(if x in s.objects then DropIsa(s, x) else s, x.up);
    }
  }

  lemma ReplacedTypes(s: Snap, own: string -> string, ns: string, u: string, d: Device, built: Snap, t: Snap, g: set<Id>)
    requires BuiltFrom(RemovedDevice(s, own, u), built, ns, u, d) && Grafted(built, t, s, g)
    ensures t.objectTypes == s.objectTypes
  {
    RemovedTypes(s, own, u);
  }

  lemma TypeUnchanged(u: string, a: Schema, b: Schema)
    requires a.schema == b.schema && a.name == b.name
    ensures TypeOf(u, a) == TypeOf(u, b)
  {
  }

  lemma CurrentIsGood(own: string -> string, prev: map<string, Device>, cur: map<string, Device>,
                      next: map<string, Device>, done: set<string>)
    requires GoodDevices(own, prev) && GoodDevices(own, next)
    requires forall v :: v in done ==> (v in cur <==> v in next) && (v in cur ==> cur[v] == next[v])
    requires forall v :: v !in done ==> (v in cur <==> v in prev) && (v in cur ==> cur[v] == prev[v])
    ensures GoodDevices(own, cur)
  {
  }

  lemma UnderwayIsGood(s0: Snap, rank0: Id -> nat, s: Snap, own: string -> string, ns: string,
                       prev: map<string, Device>, cur: map<string, Device>, next: map<string, Device>,
                       done: set<string>)
    requires Ranked(s0, rank0) && Underway(s0, rank0, s, own, ns, prev, cur, next, done)
    requires GoodDevices(own, prev) && GoodDevices(own, next)
    ensures GoodDevices(own, cur)
  {
    hide ConfigHeld, HungAs, UnsAt, SameAt, KeepsToItself;
    CurrentIsGood(own, prev, cur, next, done);
  }

  lemma GoodAt(own: string -> string, m: map<string, Device>, u: string)
    requires GoodDevices(own, m) && u in m
    ensures KeepsToItself(own, u, m[u]) && own(u) == u
  {
  }

  /** A device seen for the first time is a replacement of nothing. */
  lemma AddIsReplace(s0: Snap, rank0: Id -> nat, s: Snap, rank: Id -> nat, t: Snap,
                     own: string -> string, ns: string, prev: map<string, Device>,
                     cur: map<string, Device>, next: map<string, Device>, done: set<string>, v: string)
    requires WellFormed(s0, rank0, own) && Ranked(s0, rank0)
    requires WellFormed(s, rank, own) && Ranked(s, rank) && Owned(s, own, v) == {}
    requires Underway(s0, rank0, s, own, ns, prev, cur, next, done)
    requires GoodDevices(own, cur) && v in next && v !in prev && v !in done && KeepsToItself(own, v, next[v])
    requires BuiltFrom(s, t, ns, v, next[v])
    ensures Underway(s0, rank0, t, own, ns, prev, cur[v := next[v]], next, done + {v})
    ensures ConfigEq(s, own, ns, cur) ==> ConfigEq(t, own, ns, cur[v := next[v]])
  {
    hide Wf, NodeOk, Ranked, CfgAt, BuiltFrom, KeepsToItself, GoodDevices, Owned, Kept, KeptSet, Underway, Grafted,
         ConfigEq;
    OwnSelf(own, v, next[v]);
    NothingOwned(s, rank, own, v);
    assert OwnedBy(own, v, Conf(v));
    RemovedAbsent(s, own, v);
    NothingKept(s, rank, own, v, t);
    ReplaceStep(s0, rank0, s, rank, t, t, own, ns, prev, cur, next, done, v);
  }

  class ObjectTree {
    const ns: string
    var snapshot: TreeSnapshot
    ghost const own: string -> string

    ghost predicate Valid()
      reads this, snapshot
    {
      snapshot.own == own && snapshot.Valid()
    }

    constructor (ns: string, ghost own: string -> string)
      ensures Valid() && fresh(snapshot) && snapshot.View() == EMPTY
      ensures this.ns == ns && this.own == own
    {
      this.ns := ns;
      this.own := own;
      snapshot := new TreeSnapshot(own);
    }

    method AddObjectType(uuid: string, sc: Schema)
      modifies snapshot`objectTypes
      ensures snapshot.objectTypes == old(snapshot.objectTypes)[uuid := TypeOf(uuid, sc)]
    {
      snapshot.objectTypes := snapshot.objectTypes[uuid := TypeOf(uuid, sc)];
    }

    /** Build all devices of one emission into a fresh snapshot. */
    method BuildDevices(input: Emission) returns (next: TreeSnapshot)
      requires GoodDevices(own, input.devices)
      ensures fresh(next) && next.own == own && next.Valid()
      ensures AllFromConfig(next.View()) && ConfigEq(next.View(), own, ns, input.devices)
      ensures next.objectTypes == map[]
    {
      hide Wf, ConfigEq, GoodDevices, BuiltFrom, Grew, KeepsToItself, Owned, AllFromConfig;
      next := new TreeSnapshot(own);
      EmptyCfg(own, ns);
      NoNodes();
      ghost var cur: map<string, Device> := map[];
      var todo := input.devices.Keys;
      while todo != {}
        invariant fresh(next) && next.own == own && next.Valid()
        invariant todo <= input.devices.Keys && cur == input.devices - todo
        invariant AllFromConfig(next.View()) && ConfigEq(next.View(), own, ns, cur)
        invariant next.objectTypes == map[]
      {
        var uuid :| uuid in todo;
        GoodAt(own, input.devices, uuid);
        ghost var s, rk := next.View(), next.rank;
        EqIsHeld(s, own, ns, cur);
        StrangerHasNone(s, rk, own, ns, cur, uuid);
        next.BuildDevice(ns, uuid, input.devices[uuid]);
        AddCfg(s, next.View(), rk, ns, own, cur, uuid, input.devices[uuid]);
        GrewAllFromConfig(s, rk, own, next.View());
        GrewTypes(s, next.View());
        todo := todo - {uuid};
        cur := cur[uuid := input.devices[uuid]];
      }
      assert cur == input.devices;
    }

    /** Build the configuration of one emission into a fresh snapshot. */
    method BuildFresh(input: Emission) returns (next: TreeSnapshot)
      requires GoodDevices(own, input.devices)
      ensures fresh(next) && next.own == own && next.Valid()
      ensures AllFromConfig(next.View()) && ConfigEq(next.View(), own, ns, input.devices)
      ensures TypesEq(next.objectTypes, input.schemas)
    {
      hide Wf, ConfigEq, GoodDevices, AllFromConfig;
      next := BuildDevices(input);
      var pending := input.schemas.Keys;
      while pending != {}
        invariant fresh(next) && next.own == own && next.Valid()
        invariant pending <= input.schemas.Keys
        invariant AllFromConfig(next.View()) && ConfigEq(next.View(), own, ns, input.devices)
        invariant TypesEq(next.objectTypes, input.schemas - pending)
      {
        var uuid :| uuid in pending;
        ghost var s := next.View();
        next.objectTypes := next.objectTypes[uuid := TypeOf(uuid, input.schemas[uuid])];
        OnlyTypes(s, next.View(), next.rank, own, ns, input.devices);
        pending := pending - {uuid};
      }
      assert input.schemas - pending == input.schemas;
    }

    /**
     * Rebuild from one emission and swap the result in, carrying UNS nodes
     * over. The result is well formed, and true to the emission, exactly when
     * the emission reuses no id from below a carried UNS node.
     */
    method RefreshFromSnapshot(input: Emission)
      requires Valid() && GoodDevices(own, input.devices)
      modifies this
      ensures fresh(snapshot) && snapshot.own == own
      ensures Ranked(old(snapshot.View()), old(snapshot.rank))
      ensures TypesEq(snapshot.objectTypes, input.schemas)
      ensures NoReuse(old(snapshot.View()), old(snapshot.rank), CfgIds(own, ns, input.devices)) <==>
              ConfigEq(snapshot.View(), own, ns, input.devices)
      ensures NoReuse(old(snapshot.View()), old(snapshot.rank), CfgIds(own, ns, input.devices)) <==>
              Linked(snapshot.View(), {})
      ensures NoReuse(old(snapshot.View()), old(snapshot.rank), CfgIds(own, ns, input.devices)) ==>
              Valid() && Refreshed(old(snapshot.View()), old(snapshot.rank), snapshot.View(), own, ns, input.devices)
    {
      hide Wf, ConfigEq, GoodDevices, Carried, NoReuse, Linked, AllFromConfig, CfgIds, Overlaid, Refreshed, Ids;
      var prev := snapshot;
      ghost var s, rk := prev.View(), prev.rank;
      RankedNow(s, rk, own);
      var next := BuildFresh(input);
      ghost var t, trank := next.View(), next.rank;
      IdsAreCfgIds(t, own, ns, input.devices);
      next.PreserveUnsNodes(prev);
      ghost var w := next.View();
      RebuildExact(s, rk, own, t, trank, w, ns, input.devices);
      OverlaidTypes(t, w, s, Carried(s, rk, Ids(t)));
      if NoReuse(s, rk, Ids(t)) {
        OverlayWf(s, rk, own, t, trank, w);
        RebuildRefreshed(s, rk, own, t, trank, w, ns, input.devices);
        next.rank := Stack(trank, rk, Bound(trank, t.objects.Keys), Carried(s, rk, Ids(t)));
      }
      snapshot := next;
    }
  }

  lemma OverlaidTypes(t: Snap, w: Snap, s: Snap, g: set<Id>)
    requires Overlaid(t, w, s, g)
    ensures w.objectTypes == t.objectTypes
  {
  }

  lemma NoNodes()
    ensures AllFromConfig(EMPTY)
  {
  }

  lemma GrewTypes(s: Snap, t: Snap)
    requires Grew(s, t)
    ensures t.objectTypes == s.objectTypes
  {
  }

  /** Object types have no part in the shape of the tree. */
  lemma OnlyTypes(s: Snap, t: Snap, rank: Id -> nat, own: string -> string, ns: string, m: map<string, Device>)
    requires WellFormed(s, rank, own) && ConfigEq(s, own, ns, m)
    requires t == s.(objectTypes := t.objectTypes)
    ensures WellFormed(t, rank, own) && ConfigEq(t, own, ns, m)
    ensures AllFromConfig(s) ==> AllFromConfig(t)
  {
    hide DevObjs, DevMeta, OnSomePath, Wf, NodeOk;
    TidyNow(s, rank, own);
    TypesKeepWf(s, t, rank, own);
    forall id ensures CfgAt(t, own, ns, m, id) {
      assert CfgAt(s, own, ns, m, id);
    }
  }

  lemma TypesKeepWf(s: Snap, t: Snap, rank: Id -> nat, own: string -> string)
    requires WellFormed(s, rank, own) && t == s.(objectTypes := t.objectTypes)
    ensures WellFormed(t, rank, own)
  {
    hide NodeOk;
    SameShapeKeepsWf(s, t, rank, own);
  }

  // ---- When a seed reuses no id ----

  /** A tree without UNS nodes carries nothing over, so a rebuild over it is always right. */
  lemma NoUnsNoReuse(s: Snap, rank: Id -> nat, base: iset<Id>)
    requires Ranked(s, rank) && AllFromConfig(s)
    ensures NoReuse(s, rank, base)
  {
    forall r ensures !CarryRoot(s, base, r) {
      assert r in s.objects ==> IsConfig(s, r);
    }
  }

  /** Nor can the emission that the tree already shows reuse one, whatever messages have come in. */
  lemma SameEmissionNoReuse(s: Snap, rank: Id -> nat, own: string -> string, ns: string, m: map<string, Device>)
    requires WellFormed(s, rank, own) && Ranked(s, rank) && ConfigEq(s, own, ns, m)
    ensures NoReuse(s, rank, CfgIds(own, ns, m))
  {
    hide Wf, NodeOk, CfgHas, CfgIs, Carried;
    forall c | c in Carried(s, rank, CfgIds(own, ns, m)) ensures c !in CfgIds(own, ns, m) {
      CarriedIsUns(s, rank, own, CfgIds(own, ns, m), c);
      assert CfgAt(s, own, ns, m, c);
    }
  }

  lemma CarriedIsUns(s: Snap, rank: Id -> nat, own: string -> string, base: iset<Id>, c: Id)
    requires WellFormed(s, rank, own) && Ranked(s, rank) && c in Carried(s, rank, base)
    ensures IsUns(s, c)
  {
    hide Wf, NodeOk;
    var r :| CarryRoot(s, base, r) && Below(s, rank, c, r);
    CarriedNode(s, rank, own, base, c, r);
  }

  // ---- What can happen to a tree ----

  datatype UnsMessage = UnsMessage(instances: seq<string>, schemas: seq<string>,
                                   segments: seq<string>, isa95: seq<string>)

  datatype Edit =
    | Replace(uuid: string, device: Device)
    | Remove(uuid: string)
    | Rename(uuid: string, name: string)
    | Show(msg: UnsMessage)
    | Rebuild(emission: Emission)

  /** The ids in a message belong to the device that sent it. */
  ghost predicate OwnsMessage(own: string -> string, msg: UnsMessage) {
    && msg.instances != []
    && forall i :: 0 <= i < |msg.instances| ==> own(msg.instances[i]) == msg.instances[0]
  }

  lemma OwnedMessage(own: string -> string, msg: UnsMessage)
    requires OwnsMessage(own, msg)
    ensures msg.instances != [] && forall i :: 0 <= i < |msg.instances| ==> own(msg.instances[i]) == msg.instances[0]
  {
  }

  /** The edit names only ids of its own device. */
  ghost predicate EditOk(own: string -> string, e: Edit) {
    match e
    case Replace(u, d) => KeepsToItself(own, u, d)
    case Remove(u) => own(u) == u
    case Rename(_, _) => true
    case Show(msg) => OwnsMessage(own, msg)
    case Rebuild(emission) => GoodDevices(own, emission.devices)
  }

  /** What makes an edit break the tree that it finds. */
  ghost predicate Breaks(s: Snap, rank: Id -> nat, own: string -> string, ns: string, e: Edit)
    requires Ranked(s, rank)
  {
    match e
    case Show(msg) => msg.instances != [] && Conf(msg.instances[0]) !in s.objects && msg.segments != []
    case Rebuild(emission) => !NoReuse(s, rank, CfgIds(own, ns, emission.devices))
    case _ => false
  }

  ghost predicate ReplacedBy(s: Snap, rank: Id -> nat, built: Snap, t: Snap, own: string -> string, ns: string,
                             u: string, d: Device)
    requires Ranked(s, rank)
  {
    && BuiltFrom(RemovedDevice(s, own, u), built, ns, u, d)
    && Grafted(built, t, s, KeptSet(s, rank, Ids(built)) * Owned(s, own, u))
  }

  /** A message moves its device if it says so, and then shows its path. */
  ghost predicate ShownBy(s: Snap, mid: Snap, t: Snap, path: seq<Id>, own: string -> string, msg: UnsMessage) {
    && msg.instances != []
    && (var u := msg.instances[0];
        && (if Conf(u) in s.objects then Reparented(s, mid, Conf(u), msg.isa95) else mid == s)
        && UnsGrew(mid, t, own, u)
        && path != [] && path[0] == Conf(u))
    && Shows(mid, t, path, msg.instances, msg.schemas, msg.segments, |msg.segments|)
  }

  ghost predicate RebuiltAs(s: Snap, rank: Id -> nat, t: Snap, own: string -> string, ns: string, e: Emission)
    requires Ranked(s, rank)
  {
    && TypesEq(t.objectTypes, e.schemas)
    && (NoReuse(s, rank, CfgIds(own, ns, e.devices)) <==> ConfigEq(t, own, ns, e.devices))
    && (NoReuse(s, rank, CfgIds(own, ns, e.devices)) <==> Linked(t, {}))
    && (NoReuse(s, rank, CfgIds(own, ns, e.devices)) ==> Refreshed(s, rank, t, own, ns, e.devices))
  }

  /** The edit takes the tree `s` to `t`. */
  ghost predicate EditStep(s: Snap, rank: Id -> nat, t: Snap, own: string -> string, ns: string, e: Edit)
    requires Ranked(s, rank)
  {
    match e
    case Replace(u, d) => exists built :: ReplacedBy(s, rank, built, t, own, ns, u, d)
    case Remove(u) => t == RemovedDevice(s, own, u)
    case Rename(u, name) =>
      t == if Conf(u) in s.objects then s.(objects := s.objects[Conf(u) := s.objects[Conf(u)].(displayName := name)])
           else s
    case Show(msg) => exists mid, path :: ShownBy(s, mid, t, path, own, msg)
    case Rebuild(emission) => RebuiltAs(s, rank, t, own, ns, emission)
  }

  /** A tree on the way, with ranks that show it to be well formed if it is. */
  datatype Stage = Stage(tree: Snap, rank: Id -> nat)

  /** Edit `i` met a well-formed tree and took it to the next one. */
  ghost predicate EditAt(trace: seq<Stage>, own: string -> string, ns: string, edits: seq<Edit>, i: nat)
    requires i + 1 < |trace| && i < |edits|
  {
    var s := trace[i];
    && WellFormed(s.tree, s.rank, own) && Ranked(s.tree, s.rank)
    && EditStep(s.tree, s.rank, trace[i + 1].tree, own, ns, edits[i])
  }

  /** Edit `i` broke the tree that it met. */
  ghost predicate EditBreaks(trace: seq<Stage>, own: string -> string, ns: string, edits: seq<Edit>, i: nat)
    requires i + 1 < |trace| && i < |edits| && EditAt(trace, own, ns, edits, i)
  {
    Breaks(trace[i].tree, trace[i].rank, own, ns, edits[i])
  }

  lemma EditAtStays(trace: seq<Stage>, next: Stage, own: string -> string, ns: string, edits: seq<Edit>, i: nat)
    requires i + 1 < |trace| && i < |edits| && EditAt(trace, own, ns, edits, i)
    ensures EditAt(trace + [next], own, ns, edits, i)
    ensures EditBreaks(trace + [next], own, ns, edits, i) == EditBreaks(trace, own, ns, edits, i)
  {
    hide EditStep, Breaks, Wf, Ranked;
    assert (trace + [next])[i] == trace[i] && (trace + [next])[i + 1] == trace[i + 1];
  }

  lemma MoreEdits(trace: seq<Stage>, next: Stage, own: string -> string, ns: string, edits: seq<Edit>, n: nat)
    requires |trace| == n + 1 && n < |edits|
    requires forall i :: 0 <= i < n ==> EditAt(trace, own, ns, edits, i) && !EditBreaks(trace, own, ns, edits, i)
    requires WellFormed(trace[n].tree, trace[n].rank, own) && Ranked(trace[n].tree, trace[n].rank)
    requires EditStep(trace[n].tree, trace[n].rank, next.tree, own, ns, edits[n])
    ensures forall i :: 0 <= i <= n ==> EditAt(trace + [next], own, ns, edits, i)
    ensures forall i :: 0 <= i < n ==> !EditBreaks(trace + [next], own, ns, edits, i)
    ensures EditBreaks(trace + [next], own, ns, edits, n) <==>
            Breaks(trace[n].tree, trace[n].rank, own, ns, edits[n])
  {
    hide EditStep, Breaks, Wf, Ranked;
    assert (trace + [next])[n] == trace[n] && (trace + [next])[n + 1] == next;
    assert EditAt(trace + [next], own, ns, edits, n);
    forall i | 0 <= i < n
      ensures EditAt(trace + [next], own, ns, edits, i) && !EditBreaks(trace + [next], own, ns, edits, i)
    {
      EditAtStays(trace, next, own, ns, edits, i);
    }
  }

  // ---- What the pipeline and the value cache do to it ----

  datatype Event = Emitted(emission: Emission) | Message(msg: UnsMessage)

  ghost predicate EventOk(own: string -> string, e: Event) {
    match e
    case Emitted(emission) => GoodDevices(own, emission.devices)
    case Message(msg) => OwnsMessage(own, msg)
  }

  function LastEmission(events: seq<Event>): Option<Emission> {
    if events == [] then None
    else if events[|events|-1].Emitted? then Some(events[|events|-1].emission)
    else LastEmission(events[..|events|-1])
  }

  lemma OneMore(ns: string, events: seq<Event>, n: nat)
    requires n < |events|
    ensures LastEmission(events[..n + 1]) ==
      if events[n].Emitted? then Some(events[n].emission) else LastEmission(events[..n])
    ensures Astray(ns, events[..n + 1]) == AstrayThen(ns, LastEmission(events[..n]), Astray(ns, events[..n]), events[n])
    ensures EverStrayed(ns, events[..n + 1]) <==>
      EverStrayed(ns, events[..n]) || (events[n].Message? && OffPath(ns, LastEmission(events[..n]), events[n].msg))
  {
    assert events[..n + 1][..n] == events[..n];
  }

  predicate PlacesDevice(e: Emission, u: string) {
    u in e.devices && Placed(e.devices[u])
  }

  /** The message hangs its device, which the emission places, from another path than the configured one. */
  predicate OffPath(ns: string, last: Option<Emission>, msg: UnsMessage) {
    && last.Some? && msg.isa95 != [] && msg.instances != [] && PlacesDevice(last.value, msg.instances[0])
    && msg.isa95 != DevicePath(ns, last.value.devices[msg.instances[0]].devInfo.value)
  }

  predicate SameBody(last: Option<Emission>, e: Emission, u: string) {
    && last.Some? && u in last.value.devices && u in e.devices
    && last.value.devices[u].devInfo == e.devices[u].devInfo
  }

  /** Which devices are out of place after an event, given those that were and the emission before it. */
  function AstrayThen(ns: string, last: Option<Emission>, astray: set<string>, e: Event): set<string> {
    match e
    case Emitted(next) => set u | u in astray && SameBody(last, next, u)
    case Message(msg) =>
      if msg.isa95 == [] || msg.instances == [] then astray
      else if OffPath(ns, last, msg) then astray + {msg.instances[0]}
      else astray - {msg.instances[0]}
  }

  /** The devices out of place after a run of events. */
  function Astray(ns: string, events: seq<Event>): set<string> {
    if events == [] then {}
    else
      var init := events[..|events|-1];
      AstrayThen(ns, LastEmission(init), Astray(ns, init), events[|events|-1])
  }

  /** Whether a message of the run has ever moved a device off its path. */
  predicate EverStrayed(ns: string, events: seq<Event>) {
    events != [] &&
    var init := events[..|events|-1];
    (EverStrayed(ns, init) ||
     (events[|events|-1].Message? && OffPath(ns, LastEmission(init), events[|events|-1].msg)))
  }

  /** Event `i` moved this device off its path. */
  predicate MovesOff(ns: string, events: seq<Event>, i: nat, u: string)
    requires i < |events|
  {
    && events[i].Message? && OffPath(ns, LastEmission(events[..i]), events[i].msg)
    && events[i].msg.instances[0] == u
  }

  /** Event `i` neither hangs this device from any path nor brings it a new config body. */
  predicate LeavesAlone(events: seq<Event>, i: nat, u: string)
    requires i < |events|
  {
    match events[i]
    case Emitted(e) => SameBody(LastEmission(events[..i]), e, u)
    case Message(msg) => msg.isa95 == [] || msg.instances == [] || msg.instances[0] != u
  }

  ghost predicate SinceMovedOff(ns: string, events: seq<Event>, i: nat, u: string) {
    i < |events| && MovesOff(ns, events, i, u) && forall j :: i < j < |events| ==> LeavesAlone(events, j, u)
  }

  lemma SinceOneMore(ns: string, events: seq<Event>, i: nat, u: string)
    requires i + 1 < |events|
    ensures SinceMovedOff(ns, events, i, u) <==>
      SinceMovedOff(ns, events[..|events| - 1], i, u) && LeavesAlone(events, |events| - 1, u)
  {
    hide OffPath, SameBody, LastEmission;
    var init := events[..|events| - 1];
    forall j: nat | j < |init|
      ensures MovesOff(ns, events, j, u) == MovesOff(ns, init, j, u)
      ensures LeavesAlone(events, j, u) == LeavesAlone(init, j, u)
    {
      assert events[..j] == init[..j];
    }
  }

  /** A device is out of place if a message moved it off its path and nothing has put it anywhere since. */
  lemma {:induction false} AstrayIs(ns: string, events: seq<Event>, u: string)
    ensures u in Astray(ns, events) <==> exists i: nat :: SinceMovedOff(ns, events, i, u)
    decreases |events|
  {
    hide OffPath, SameBody, LastEmission, SinceMovedOff, MovesOff, LeavesAlone, Astray;
    if events == [] {
      NotMovedOff(ns, u);
    } else {
      var n := |events| - 1;
      AstrayIs(ns, events[..n], u);
      LastMove(ns, events, u);
      forall i: nat ensures SinceMovedOff(ns, events, i, u) <==>
        if i < n then SinceMovedOff(ns, events[..n], i, u) && LeavesAlone(events, n, u)
        else i == n && MovesOff(ns, events, n, u)
      {
        if i < n {
          SinceOneMore(ns, events, i, u);
        } else {
          SinceLast(ns, events, i, u);
        }
      }
      InitialMoves(ns, events[..n], u);
      if MovesOff(ns, events, n, u) {
        assert SinceMovedOff(ns, events, n, u);
      }
      if i: nat :| SinceMovedOff(ns, events[..n], i, u) {
        assert SinceMovedOff(ns, events, i, u) <==> LeavesAlone(events, n, u);
      }
    }
  }

  lemma NotMovedOff(ns: string, u: string)
    ensures u !in Astray(ns, []) && forall i: nat :: !SinceMovedOff(ns, [], i, u)
  {
  }

  lemma InitialMoves(ns: string, events: seq<Event>, u: string)
    ensures forall i: nat :: SinceMovedOff(ns, events, i, u) ==> i < |events|
  {
  }

  lemma SinceLast(ns: string, events: seq<Event>, i: nat, u: string)
    requires events != [] && i >= |events| - 1
    ensures SinceMovedOff(ns, events, i, u) <==> i == |events| - 1 && MovesOff(ns, events, i, u)
  {
  }

  lemma LastMove(ns: string, events: seq<Event>, u: string)
    requires events != []
    ensures var n := |events| - 1;
      u in Astray(ns, events) <==>
      MovesOff(ns, events, n, u) || (u in Astray(ns, events[..n]) && LeavesAlone(events, n, u))
  {
    hide SameBody, LastEmission;
  }

  /** What makes an event break the tree: a later emission never does. */
  ghost predicate Disrupts(s: Snap, rank: Id -> nat, own: string -> string, ns: string, last: Option<Emission>,
                           e: Event)
    requires Ranked(s, rank)
  {
    match e
    case Message(msg) => Breaks(s, rank, own, ns, Show(msg))
    case Emitted(next) => last.None? && Breaks(s, rank, own, ns, Rebuild(next))
  }

  /** The event takes the tree `s` to `t`, after the emission `last`. */
  ghost predicate EventStep(s: Snap, rank: Id -> nat, t: Snap, own: string -> string, ns: string,
                            last: Option<Emission>, e: Event)
    requires Ranked(s, rank)
  {
    match e
    case Message(msg) => EditStep(s, rank, t, own, ns, Show(msg))
    case Emitted(next) =>
      if last.None? then EditStep(s, rank, t, own, ns, Rebuild(next))
      else
        && TypesEq(t.objectTypes, next.schemas)
        && Updated(s, rank, t, own, ns, last.value.devices, next.devices)
        && (ConfigEq(s, own, ns, last.value.devices) ==> Refreshed(s, rank, t, own, ns, next.devices))
  }

  /** Event `i` met a well-formed tree and took it to the next one. */
  ghost predicate EventAt(trace: seq<Stage>, own: string -> string, ns: string, events: seq<Event>, i: nat)
    requires i + 1 < |trace| && i < |events|
  {
    var s := trace[i];
    && WellFormed(s.tree, s.rank, own) && Ranked(s.tree, s.rank)
    && EventStep(s.tree, s.rank, trace[i + 1].tree, own, ns, LastEmission(events[..i]), events[i])
  }

  /** Event `i` broke the tree that it met. */
  ghost predicate EventBreaks(trace: seq<Stage>, own: string -> string, ns: string, events: seq<Event>, i: nat)
    requires i + 1 < |trace| && i < |events| && EventAt(trace, own, ns, events, i)
  {
    Disrupts(trace[i].tree, trace[i].rank, own, ns, LastEmission(events[..i]), events[i])
  }

  lemma EventAtStays(trace: seq<Stage>, next: Stage, own: string -> string, ns: string, events: seq<Event>, i: nat)
    requires i + 1 < |trace| && i < |events| && EventAt(trace, own, ns, events, i)
    ensures EventAt(trace + [next], own, ns, events, i)
    ensures EventBreaks(trace + [next], own, ns, events, i) == EventBreaks(trace, own, ns, events, i)
  {
    hide EventStep, Disrupts, Wf, Ranked;
    assert (trace + [next])[i] == trace[i] && (trace + [next])[i + 1] == trace[i + 1];
  }

  lemma MoreEvents(trace: seq<Stage>, next: Stage, own: string -> string, ns: string, events: seq<Event>, n: nat)
    requires |trace| == n + 1 && n < |events|
    requires forall i :: 0 <= i < n ==> EventAt(trace, own, ns, events, i) && !EventBreaks(trace, own, ns, events, i)
    requires WellFormed(trace[n].tree, trace[n].rank, own) && Ranked(trace[n].tree, trace[n].rank)
    requires EventStep(trace[n].tree, trace[n].rank, next.tree, own, ns, LastEmission(events[..n]), events[n])
    ensures forall i :: 0 <= i <= n ==> EventAt(trace + [next], own, ns, events, i)
    ensures forall i :: 0 <= i < n ==> !EventBreaks(trace + [next], own, ns, events, i)
    ensures EventBreaks(trace + [next], own, ns, events, n) <==>
            Disrupts(trace[n].tree, trace[n].rank, own, ns, LastEmission(events[..n]), events[n])
  {
    hide EventStep, Disrupts, Wf, Ranked;
    assert (trace + [next])[n] == trace[n] && (trace + [next])[n + 1] == next;
    assert EventAt(trace + [next], own, ns, events, n);
    forall i | 0 <= i < n
      ensures EventAt(trace + [next], own, ns, events, i) && !EventBreaks(trace + [next], own, ns, events, i)
    {
      EventAtStays(trace, next, own, ns, events, i);
    }
  }

  /**
   * The tree holds the nodes and types of the emission, the devices out of
   * place are exactly these, and it is its tree if none has ever strayed.
   */
  ghost predicate Follows(s: Snap, own: string -> string, ns: string, e: Emission, astray: set<string>, strayed: bool) {
    && ConfigHeld(s, own, ns, e.devices) && TypesEq(s.objectTypes, e.schemas)
    && (forall u :: InPlace(s, ns, e.devices, u) <==> u !in astray)
    && (!strayed ==> ConfigEq(s, own, ns, e.devices))
  }

  /** Keep the live tree in step with the pipeline, one emission after another. */
  class ObjectTreeRefresh {
    const tree: ObjectTree
    var prev: Option<Emission>
    /** The devices that are out of place. */
    ghost var astray: set<string>
    /** A message has moved a device off its configured path since the first emission. */
    ghost var strayed: bool

    /** Before the first emission the tree is any well-formed tree; afterwards it follows the last one. */
    ghost predicate Valid()
      reads this, tree, tree.snapshot
    {
      && tree.Valid() && (prev.None? ==> astray == {} && !strayed)
      && (prev.Some? ==>
            && GoodDevices(tree.own, prev.value.devices)
            && Follows(tree.snapshot.View(), tree.own, tree.ns, prev.value, astray, strayed))
    }

    /** The tree has been built, and has perhaps taken messages, before the pipeline starts. */
    constructor (tree: ObjectTree)
      requires tree.Valid()
      ensures Valid() && this.tree == tree && prev.None? && astray == {} && !strayed
    {
      this.tree := tree;
      prev, astray, strayed := None, {}, false;
    }

    method AddSchemas(prev: map<string, Schema>, next: map<string, Schema>)
      requires TypesEq(tree.snapshot.objectTypes, prev)
      modifies tree.snapshot`objectTypes
      ensures tree.snapshot.objectTypes.Keys == prev.Keys + next.Keys
      ensures forall u :: u in next ==> tree.snapshot.objectTypes[u] == TypeOf(u, next[u])
    {
      hide TypeOf;
      var todo := next.Keys;
      while todo != {}
        invariant todo <= next.Keys
        invariant tree.snapshot.objectTypes.Keys == prev.Keys + (next.Keys - todo)
        invariant forall u :: u in next && u !in todo ==> tree.snapshot.objectTypes[u] == TypeOf(u, next[u])
        invariant forall u :: u in prev && (u !in next || u in todo) ==>
          tree.snapshot.objectTypes[u] == TypeOf(u, prev[u])
      {
        var uuid :| uuid in todo;
        if uuid !in prev || prev[uuid].schema != next[uuid].schema || prev[uuid].name != next[uuid].name {
          tree.AddObjectType(uuid, next[uuid]);
        } else {
          TypeUnchanged(uuid, prev[uuid], next[uuid]);
        }
        todo := todo - {uuid};
      }
    }

    method RemoveSchemas(prev: map<string, Schema>, next: map<string, Schema>)
      requires tree.snapshot.objectTypes.Keys == prev.Keys + next.Keys
      requires forall u :: u in next ==> tree.snapshot.objectTypes[u] == TypeOf(u, next[u])
      modifies tree.snapshot`objectTypes
      ensures TypesEq(tree.snapshot.objectTypes, next)
    {
      hide TypeOf;
      var todo := prev.Keys;
      while todo != {}
        invariant todo <= prev.Keys
        invariant tree.snapshot.objectTypes.Keys == next.Keys + todo
        invariant forall u :: u in next ==> tree.snapshot.objectTypes[u] == TypeOf(u, next[u])
      {
        var uuid :| uuid in todo;
        if uuid !in next {
          tree.snapshot.objectTypes := tree.snapshot.objectTypes - {uuid};
        }
        todo := todo - {uuid};
      }
    }

    /** One device of the new emission: add it, replace it, rename it or leave it. */
    method ApplyDevice(before: Emission, next: Emission, uuid: string, ghost s0: Snap, ghost rank0: Id -> nat,
                       ghost cur: map<string, Device>, ghost done: set<string>)
      requires tree.Valid()
      requires GoodDevices(tree.own, before.devices) && GoodDevices(tree.own, next.devices)
      requires WellFormed(s0, rank0, tree.own) && Ranked(s0, rank0)
      requires ConfigHeld(s0, tree.own, tree.ns, before.devices)
      requires Underway(s0, rank0, tree.snapshot.View(), tree.own, tree.ns, before.devices, cur, next.devices, done)
      requires uuid in next.devices && uuid !in done
      modifies tree.snapshot
      ensures tree.Valid() && tree.snapshot.objectTypes == old(tree.snapshot.objectTypes)
      ensures Underway(s0, rank0, tree.snapshot.View(), tree.own, tree.ns, before.devices,
                       cur[uuid := next.devices[uuid]], next.devices, done + {uuid})
      ensures old(ConfigEq(tree.snapshot.View(), tree.own, tree.ns, cur)) ==>
        ConfigEq(tree.snapshot.View(), tree.own, tree.ns, cur[uuid := next.devices[uuid]])
    {
      hide Wf, ConfigEq, ConfigHeld, GoodDevices, Underway, BuiltFrom, Grafted, KeepsToItself, Owned, RemovedDevice,
           KeptSet, Grew;
      var snap, d := tree.snapshot, next.devices[uuid];
      ghost var s, rk, own, ns := snap.View(), snap.rank, tree.own, tree.ns;
      RankedNow(s, rk, own);
      GoodAt(own, next.devices, uuid);
      UnderwayIsGood(s0, rank0, s, own, ns, before.devices, cur, next.devices, done);
      if uuid !in before.devices {
        CurrentIs(s0, rank0, s, own, ns, before.devices, cur, next.devices, done, uuid);
        StrangerHasNone(s, rk, own, ns, cur, uuid);
        snap.AddDevice(tree.ns, uuid, d);
        BuiltGrew(s, snap.View(), ns, uuid, d);
        GrewTypes(s, snap.View());
        AddIsReplace(s0, rank0, s, rk, snap.View(), own, ns, before.devices, cur, next.devices, done, uuid);
      } else if before.devices[uuid].devInfo != d.devInfo {
        ghost var built := snap.ReplaceDeviceSubtree(tree.ns, uuid, d);
        ReplacedTypes(s, own, ns, uuid, d, built, snap.View(), KeptSet(s, rk, Ids(built)) * Owned(s, own, uuid));
        ReplaceStep(s0, rank0, s, rk, built, snap.View(), own, ns, before.devices, cur, next.devices, done, uuid);
      } else {
        if before.devices[uuid].name != d.name {
          snap.UpdateDeviceName(uuid, DisplayName(uuid, d));
        }
        KeepStep(s0, rank0, s, rk, snap.View(), own, ns, before.devices, cur, next.devices, done, uuid);
      }
    }

    /** Every device of the new emission. */
    method ApplyDevices(before: Emission, next: Emission) returns (ghost cur: map<string, Device>)
      requires tree.Valid()
      requires GoodDevices(tree.own, before.devices) && GoodDevices(tree.own, next.devices)
      requires ConfigHeld(tree.snapshot.View(), tree.own, tree.ns, before.devices)
      modifies tree.snapshot
      ensures tree.Valid() && tree.snapshot.objectTypes == old(tree.snapshot.objectTypes)
      ensures Ranked(old(tree.snapshot.View()), old(tree.snapshot.rank))
      ensures Underway(old(tree.snapshot.View()), old(tree.snapshot.rank), tree.snapshot.View(), tree.own, tree.ns,
                       before.devices, cur, next.devices, next.devices.Keys)
      ensures old(ConfigEq(tree.snapshot.View(), tree.own, tree.ns, before.devices)) ==>
        ConfigEq(tree.snapshot.View(), tree.own, tree.ns, cur)
    {
      hide Wf, ConfigEq, ConfigHeld, GoodDevices, Underway;
      var snap := tree.snapshot;
      ghost var s1, rank0, own, ns := snap.View(), snap.rank, tree.own, tree.ns;
      RankedNow(s1, rank0, own);
      DiffStarts(s1, rank0, own, ns, before.devices, next.devices);
      ghost var done: set<string> := {};
      cur := before.devices;
      var todo := next.devices.Keys;
      while todo != {}
        invariant tree.Valid() && tree.snapshot == snap && snap.objectTypes == old(snap.objectTypes)
        invariant todo <= next.devices.Keys && done == next.devices.Keys - todo
        invariant Underway(s1, rank0, snap.View(), own, ns, before.devices, cur, next.devices, done)
        invariant ConfigEq(s1, own, ns, before.devices) ==> ConfigEq(snap.View(), own, ns, cur)
      {
        var uuid :| uuid in todo;
        ApplyDevice(before, next, uuid, s1, rank0, cur, done);
        todo := todo - {uuid};
        cur, done := cur[uuid := next.devices[uuid]], done + {uuid};
      }
      assert done == next.devices.Keys;
    }

    /** The devices that are not in the new emission go. */
    method RemoveLeavers(before: Emission, next: Emission, ghost s1: Snap, ghost rank0: Id -> nat,
                         ghost cur0: map<string, Device>)
      requires tree.Valid()
      requires GoodDevices(tree.own, before.devices) && GoodDevices(tree.own, next.devices)
      requires WellFormed(s1, rank0, tree.own) && Ranked(s1, rank0)
      requires ConfigHeld(s1, tree.own, tree.ns, before.devices)
      requires Underway(s1, rank0, tree.snapshot.View(), tree.own, tree.ns, before.devices, cur0, next.devices,
                        next.devices.Keys)
      modifies tree.snapshot
      ensures tree.Valid() && tree.snapshot.objectTypes == old(tree.snapshot.objectTypes)
      ensures Updated(s1, rank0, tree.snapshot.View(), tree.own, tree.ns, before.devices, next.devices)
      ensures old(ConfigEq(tree.snapshot.View(), tree.own, tree.ns, cur0)) ==>
        Refreshed(s1, rank0, tree.snapshot.View(), tree.own, tree.ns, next.devices)
    {
      hide Wf, ConfigEq, ConfigHeld, GoodDevices, Underway, RemovedDevice, Refreshed, Updated;
      var snap := tree.snapshot;
      ghost var own, ns, before', next' := tree.own, tree.ns, before.devices, next.devices;
      ghost var cur, done := cur0, next'.Keys;
      ghost var types, exact := snap.objectTypes, ConfigEq(snap.View(), own, ns, cur0);
      var leaving := before.devices.Keys - next.devices.Keys;
      while leaving != {}
        invariant tree.Valid() && tree.snapshot == snap && snap.objectTypes == types
        invariant leaving <= before'.Keys - next'.Keys
        invariant done == next'.Keys + (before'.Keys - next'.Keys - leaving)
        invariant Underway(s1, rank0, snap.View(), own, ns, before', cur, next', done)
        invariant exact ==> ConfigEq(snap.View(), own, ns, cur)
      {
        var uuid :| uuid in leaving;
        ghost var s, rk := snap.View(), snap.rank;
        GoodAt(own, before', uuid);
        snap.RemoveDevice(uuid);
        RemovedTypes(s, own, uuid);
        UnderwayIsGood(s1, rank0, s, own, ns, before', cur, next', done);
        RemoveStep(s1, rank0, s, rk, own, ns, before', cur, next', done, uuid);
        leaving := leaving - {uuid};
        cur, done := cur - {uuid}, done + {uuid};
      }
      DiffEnds(s1, rank0, snap.View(), snap.rank, own, ns, before', cur, next', done);
    }

    /**
     * Apply the difference between two emissions to the live tree. Wherever
     * messages have moved devices, every node of every device ends as the new
     * emission asks for; and from the tree of the old emission it gives the
     * refreshed tree of the new one.
     */
    method ApplyDiff(before: Emission, next: Emission)
      requires tree.Valid()
      requires GoodDevices(tree.own, before.devices) && GoodDevices(tree.own, next.devices)
      requires ConfigHeld(tree.snapshot.View(), tree.own, tree.ns, before.devices)
      requires TypesEq(tree.snapshot.objectTypes, before.schemas)
      modifies tree.snapshot
      ensures tree.Valid() && TypesEq(tree.snapshot.objectTypes, next.schemas)
      ensures Ranked(old(tree.snapshot.View()), old(tree.snapshot.rank))
      ensures Updated(old(tree.snapshot.View()), old(tree.snapshot.rank), tree.snapshot.View(),
                      tree.own, tree.ns, before.devices, next.devices)
      ensures old(ConfigEq(tree.snapshot.View(), tree.own, tree.ns, before.devices)) ==>
        Refreshed(old(tree.snapshot.View()), old(tree.snapshot.rank), tree.snapshot.View(),
                  tree.own, tree.ns, next.devices)
    {
      hide Wf, ConfigEq, ConfigHeld, GoodDevices, Underway, Refreshed, Updated;
      var snap := tree.snapshot;
      ghost var s0, rank0, own, ns := snap.View(), snap.rank, tree.own, tree.ns;
      RankedNow(s0, rank0, own);
      AddSchemas(before.schemas, next.schemas);
      ghost var s1 := snap.View();
      TypesKeepWf(s0, s1, rank0, own);
      TypesKeepHeld(s0, s1, own, ns, before.devices);
      if ConfigEq(s0, own, ns, before.devices) {
        OnlyTypes(s0, s1, rank0, own, ns, before.devices);
      }
      ghost var cur := ApplyDevices(before, next);
      RemoveLeavers(before, next, s1, rank0, cur);
      ghost var s2 := snap.View();
      RemoveSchemas(before.schemas, next.schemas);
      TypesKeepWf(s2, snap.View(), snap.rank, own);
      TypesKeepUpdated(s0, s1, rank0, s2, snap.View(), own, ns, before.devices, next.devices);
      if ConfigEq(s0, own, ns, before.devices) {
        TypesKeepRefreshed(s0, s1, rank0, s2, snap.View(), snap.rank, own, ns, next.devices);
      }
    }

    /**
     * One emission. The first rebuilds whatever tree is there, and gives a
     * linked tree that is true to the emission exactly when the emission
     * reuses no id from below a carried UNS node. Every later one is a diff.
     */
    method OnEmission(e: Emission)
      requires Valid() && GoodDevices(tree.own, e.devices)
      modifies this, tree, tree.snapshot
      ensures prev == Some(e) && tree.snapshot.own == tree.own
      ensures tree.snapshot == old(tree.snapshot) || fresh(tree.snapshot)
      ensures Ranked(old(tree.snapshot.View()), old(tree.snapshot.rank))
      ensures EventStep(old(tree.snapshot.View()), old(tree.snapshot.rank), tree.snapshot.View(), tree.own, tree.ns,
                        old(prev), Emitted(e))
      ensures Valid() <==>
        !Disrupts(old(tree.snapshot.View()), old(tree.snapshot.rank), tree.own, tree.ns, old(prev), Emitted(e))
      ensures Valid() <==> Linked(tree.snapshot.View(), {})
      ensures !Valid() ==> !exists r :: WellFormed(tree.snapshot.View(), r, tree.own)
      ensures astray == AstrayThen(tree.ns, old(prev), old(astray), Emitted(e)) && strayed == old(strayed)
    {
      hide Wf, ConfigEq, ConfigHeld, GoodDevices, NoReuse, Linked, CfgIds, Carried, Refreshed, Updated, TypesEq,
           InPlace;
      ghost var s, rk, own, ns := tree.snapshot.View(), tree.snapshot.rank, tree.own, tree.ns;
      RankedNow(s, rk, own);
      match prev {
        case None =>
          tree.RefreshFromSnapshot(e);
          if NoReuse(s, rk, CfgIds(own, ns, e.devices)) {
            TreeOfConfig(tree.snapshot.View(), own, ns, e.devices);
          } else {
            NotLinkedNotWf(tree.snapshot.View(), own);
          }
        case Some(before) =>
          ApplyDiff(before, e);
          UpdatedInPlace(s, rk, tree.snapshot.View(), own, ns, before.devices, e.devices, astray);
          if !strayed {
            RefreshedIsConfig(s, rk, tree.snapshot.View(), own, ns, e.devices);
          }
          RankedNow(tree.snapshot.View(), tree.snapshot.rank, own);
      }
      astray := AstrayThen(ns, prev, astray, Emitted(e));
      prev := Some(e);
    }

    /**
     * A UNS message. Without its device in the tree it breaks the tree unless
     * it shows nothing; otherwise the tree stays well formed, and stays true
     * to its emission exactly if the message leaves the device on its path.
     */
    method OnUnsMessage(msg: UnsMessage)
      requires Valid() && OwnsMessage(tree.own, msg)
      modifies tree.snapshot, this`astray, this`strayed
      ensures prev == old(prev) && Ranked(old(tree.snapshot.View()), old(tree.snapshot.rank))
      ensures EventStep(old(tree.snapshot.View()), old(tree.snapshot.rank), tree.snapshot.View(), tree.own, tree.ns,
                        prev, Message(msg))
      ensures Valid() <==>
        !Disrupts(old(tree.snapshot.View()), old(tree.snapshot.rank), tree.own, tree.ns, prev, Message(msg))
      ensures !Valid() ==> !exists r :: WellFormed(tree.snapshot.View(), r, tree.own)
      ensures astray == AstrayThen(tree.ns, prev, old(astray), Message(msg))
      ensures strayed == (old(strayed) || OffPath(tree.ns, prev, msg))
      ensures old(prev.Some? && !strayed) && Conf(msg.instances[0]) in old(tree.snapshot.objects) ==>
        (ConfigEq(tree.snapshot.View(), tree.own, tree.ns, prev.value.devices) <==> !OffPath(tree.ns, prev, msg))
    {
      hide Wf, ConfigEq, ConfigHeld, GoodDevices, DevicePath, Reparented, UnsGrew, Placed, InPlace, Shows, Follows,
           AstrayThen, OffPath;
      ghost var s, rk, own, ns := tree.snapshot.View(), tree.snapshot.rank, tree.own, tree.ns;
      RankedNow(s, rk, own);
      ghost var mid, midRank, path;
      var leaf;
      leaf, mid, midRank, path := tree.snapshot.AddCompositionFromUns(
        msg.instances, msg.schemas, msg.segments, msg.isa95);
      ghost var t := tree.snapshot.View();
      assert ShownBy(s, mid, t, path, own, msg);
      if prev.Some? && (Conf(msg.instances[0]) in s.objects || msg.segments == []) {
        MessageFollows(s, rk, mid, midRank, t, own, ns, prev.value, astray, strayed, msg);
      }
      if prev.None? {
        NoneAstray(ns, msg);
      }
      astray, strayed := AstrayThen(ns, prev, astray, Message(msg)), strayed || OffPath(ns, prev, msg);
    }

    /** `ok` tells whether the event has left the tree intact. */
    method OnEvent(e: Event) returns (ok: bool)
      requires Valid() && EventOk(tree.own, e)
      modifies this, tree, tree.snapshot
      ensures prev == if e.Emitted? then Some(e.emission) else old(prev)
      ensures tree.snapshot == old(tree.snapshot) || fresh(tree.snapshot)
      ensures Ranked(old(tree.snapshot.View()), old(tree.snapshot.rank))
      ensures EventStep(old(tree.snapshot.View()), old(tree.snapshot.rank), tree.snapshot.View(), tree.own, tree.ns,
                        old(prev), e)
      ensures astray == AstrayThen(tree.ns, old(prev), old(astray), e)
      ensures strayed == (old(strayed) || (e.Message? && OffPath(tree.ns, old(prev), e.msg)))
      ensures ok <==> Valid()
      ensures ok <==>
        !Disrupts(old(tree.snapshot.View()), old(tree.snapshot.rank), tree.own, tree.ns, old(prev), e)
      ensures !ok ==> !exists r :: WellFormed(tree.snapshot.View(), r, tree.own)
    {
      hide Wf, ConfigEq, GoodDevices, OwnsMessage, EventStep, NoReuse, Linked, OffPath, AstrayThen;
      match e {
        case Emitted(emission) =>
          OnEmission(emission);
          ok := tree.snapshot.IsLinked();
          if !ok {
            NotLinkedNotWf(tree.snapshot.View(), tree.own);
          }
        case Message(msg) =>
          OwnedMessage(tree.own, msg);
          ok := Conf(msg.instances[0]) in tree.snapshot.objects || msg.segments == [];
          OnUnsMessage(msg);
      }
    }

    /**
     * Any run of emissions and messages, over a tree that was there before.
     * `trace` has the trees on the way. The run goes on as long as the tree is
     * well formed, and the event that breaks it is the first that disrupts the
     * tree it meets: a message about a device that is not there, or a first
     * emission that reuses an id from below a carried UNS node. After a run
     * without one the tree holds the last emission, and exactly those devices
     * are out of place that the events leave so.
     */
    method Run(events: seq<Event>) returns (done: nat, ok: bool, ghost trace: seq<Stage>)
      requires Valid() && prev.None?
      requires forall i :: 0 <= i < |events| ==> EventOk(tree.own, events[i])
      modifies this, tree, tree.snapshot
      ensures done <= |events| && |trace| == done + 1
      ensures trace[0].tree == old(tree.snapshot.View()) && trace[done].tree == tree.snapshot.View()
      ensures forall i :: 0 <= i < done ==>
        && EventAt(trace, tree.own, tree.ns, events, i)
        && (EventBreaks(trace, tree.own, tree.ns, events, i) <==> !ok && i == done - 1)
      ensures prev == LastEmission(events[..done])
      ensures ok <==> Valid()
      ensures if ok then done == |events|
              else 0 < done && !exists r :: WellFormed(tree.snapshot.View(), r, tree.own)
      ensures ok && prev.Some? ==>
        Follows(tree.snapshot.View(), tree.own, tree.ns, prev.value,
                Astray(tree.ns, events), EverStrayed(tree.ns, events))
    {
      hide Wf, Ranked, Follows, EventStep, Disrupts, EventOk, EventAt, EventBreaks, AstrayThen, OffPath, ConfigEq;
      ghost var first := tree.snapshot;
      done, ok := 0, true;
      trace := [Stage(tree.snapshot.View(), tree.snapshot.rank)];
      assert events[..0] == [];
      while done < |events|
        invariant done <= |events| && |trace| == done + 1 && ok && Valid()
        invariant tree.snapshot == first || fresh(tree.snapshot)
        invariant trace[0].tree == old(tree.snapshot.View())
        invariant trace[done] == Stage(tree.snapshot.View(), tree.snapshot.rank)
        invariant forall i :: 0 <= i < done ==>
          EventAt(trace, tree.own, tree.ns, events, i) && !EventBreaks(trace, tree.own, tree.ns, events, i)
        invariant prev == LastEmission(events[..done])
        invariant astray == Astray(tree.ns, events[..done]) && strayed == EverStrayed(tree.ns, events[..done])
      {
        ghost var before := trace;
        OneMore(tree.ns, events, done);
        ok := OnEvent(events[done]);
        trace := trace + [Stage(tree.snapshot.View(), tree.snapshot.rank)];
        MoreEvents(before, trace[done + 1], tree.own, tree.ns, events, done);
        done := done + 1;
        if !ok {
          return;
        }
      }
      assert events[..done] == events;
    }
  }

  lemma RefreshedIsConfig(s: Snap, rank: Id -> nat, t: Snap, own: string -> string, ns: string, m: map<string, Device>)
    requires Ranked(s, rank) && Refreshed(s, rank, t, own, ns, m)
    ensures ConfigEq(t, own, ns, m)
  {
  }

  /** After a diff a device is out of place exactly if it was and its config body is the same. */
  lemma UpdatedInPlace(s: Snap, rank: Id -> nat, t: Snap, own: string -> string, ns: string,
                       prev: map<string, Device>, next: map<string, Device>, astray: set<string>)
    requires Ranked(s, rank) && Updated(s, rank, t, own, ns, prev, next) && GoodDevices(own, next)
    requires forall u :: InPlace(s, ns, prev, u) <==> u !in astray
    ensures ConfigHeld(t, own, ns, next)
    ensures forall u :: !InPlace(t, ns, next, u) <==>
      u in astray && u in prev && u in next && prev[u].devInfo == next[u].devInfo
  {
    hide ConfigHeld, UnsAt, Ranked, Leaf, KeepsToItself, GoodDevices;
    forall u ensures !InPlace(t, ns, next, u) <==>
      u in astray && u in prev && u in next && prev[u].devInfo == next[u].devInfo
    {
      assert InPlace(s, ns, prev, u) <==> u !in astray;
      if u in next && Placed(next[u]) {
        GoodIsOwn(own, next, u);
        assert HungAs(s, t, own, ns, prev, next, u);
      }
    }
  }

  lemma NoneAstray(ns: string, msg: UnsMessage)
    ensures AstrayThen(ns, None, {}, Message(msg)) == {} && !OffPath(ns, None, msg)
  {
  }

  /** A message over a tree that follows an emission: the tree follows it still. */
  lemma MessageFollows(s: Snap, rank: Id -> nat, mid: Snap, mrank: Id -> nat, t: Snap, own: string -> string,
                       ns: string, e: Emission, astray: set<string>, strayed: bool, msg: UnsMessage)
    requires WellFormed(s, rank, own) && WellFormed(mid, mrank, own) && OwnsMessage(own, msg)
    requires GoodDevices(own, e.devices) && Follows(s, own, ns, e, astray, strayed)
    requires if Conf(msg.instances[0]) in s.objects
             then Reparented(s, mid, Conf(msg.instances[0]), msg.isa95) && UnsGrew(mid, t, own, msg.instances[0])
             else t == s
    ensures Follows(t, own, ns, e, AstrayThen(ns, Some(e), astray, Message(msg)), strayed || OffPath(ns, Some(e), msg))
    ensures Conf(msg.instances[0]) in s.objects && !strayed ==>
      (ConfigEq(t, own, ns, e.devices) <==> !OffPath(ns, Some(e), msg))
  {
    hide Wf, ConfigEq, ConfigHeld, GoodDevices, DevicePath, Reparented, UnsGrew, Placed, InPlace;
    var u := msg.instances[0];
    DeviceKnown(s, rank, own, ns, e.devices, u);
    if Conf(u) in s.objects {
      UnsTypes(s, mid, t, own, u, msg.isa95);
      MessageHeld(s, rank, mid, t, own, ns, e.devices, u, msg.isa95);
      if !strayed {
        UnsMessageExact(s, rank, mid, mrank, t, own, ns, e.devices, u, msg.isa95);
      }
    } else {
      UnplacedInPlace(s, ns, e.devices, u);
    }
  }

  lemma DeviceKnown(s: Snap, rank: Id -> nat, own: string -> string, ns: string, m: map<string, Device>, u: string)
    requires WellFormed(s, rank, own) && ConfigHeld(s, own, ns, m) && own(u) == u
    ensures Conf(u) in s.objects <==> u in m && Placed(m[u])
  {
    hide Wf, HeldAt, ConfigHeld;
    HeldOf(s, own, ns, m, Conf(u));
    HeldDevice(s, rank, own, ns, m, u);
  }

  lemma UnplacedInPlace(s: Snap, ns: string, m: map<string, Device>, u: string)
    requires !(u in m && Placed(m[u]))
    ensures InPlace(s, ns, m, u)
  {
  }

  lemma NotLinkedNotWf(s: Snap, own: string -> string)
    requires !Linked(s, {})
    ensures !exists r :: WellFormed(s, r, own)
  {
  }

  lemma UnsTypes(s: Snap, mid: Snap, t: Snap, own: string -> string, u: string, isa95: seq<string>)
    requires Reparented(s, mid, Conf(u), isa95) && UnsGrew(mid, t, own, u)
    ensures t.objectTypes == s.objectTypes
  {
  }

  lemma TypesKeepRefreshed(s: Snap, s': Snap, rank: Id -> nat, t: Snap, t': Snap, trank: Id -> nat,
                           own: string -> string, ns: string, m: map<string, Device>)
    requires Ranked(s, rank) && Ranked(s', rank) && s' == s.(objectTypes := s'.objectTypes)
    requires WellFormed(t, trank, own) && t' == t.(objectTypes := t'.objectTypes)
    requires Refreshed(s', rank, t, own, ns, m)
    ensures Refreshed(s, rank, t', own, ns, m)
  {
    hide Wf, NodeOk, CfgAt, Kept, CfgHas;
    OnlyTypes(t, t', trank, own, ns, m);
    forall id ensures UnsAt(s, rank, CfgIds(own, ns, m), t', id) {
      TypesKeepKept(s, s', rank, CfgIds(own, ns, m), id);
      assert UnsAt(s', rank, CfgIds(own, ns, m), t, id);
    }
  }

  lemma TypesKeepHeld(s: Snap, t: Snap, own: string -> string, ns: string, m: map<string, Device>)
    requires ConfigHeld(s, own, ns, m) && t == s.(objectTypes := t.objectTypes)
    ensures ConfigHeld(t, own, ns, m)
  {
    hide DevObjs, DevMeta, CfgHas, SameButHung;
    forall id | Owner(own, id).Some? ensures HeldAt(t, own, ns, m, id) {
      assert HeldAt(s, own, ns, m, id);
    }
  }

  lemma TypesKeepUpdated(s: Snap, s': Snap, rank: Id -> nat, t: Snap, t': Snap, own: string -> string, ns: string,
                         prev: map<string, Device>, next: map<string, Device>)
    requires Ranked(s, rank) && Ranked(s', rank) && s' == s.(objectTypes := s'.objectTypes)
    requires t' == t.(objectTypes := t'.objectTypes)
    requires Updated(s', rank, t, own, ns, prev, next)
    ensures Updated(s, rank, t', own, ns, prev, next)
  {
    hide ConfigHeld, Kept, CfgHas, Ranked, Placed, Leaf;
    TypesKeepHeld(t, t', own, ns, next);
    forall id ensures UnsAt(s, rank, CfgIds(own, ns, next), t', id) {
      TypesKeepKept(s, s', rank, CfgIds(own, ns, next), id);
      assert UnsAt(s', rank, CfgIds(own, ns, next), t, id);
    }
    forall v ensures HungAs(s, t', own, ns, prev, next, v) {
      assert HungAs(s', t, own, ns, prev, next, v);
    }
  }

  lemma {:induction false} TypesKeepKept(s: Snap, s': Snap, rank: Id -> nat, base: iset<Id>, id: Id)
    requires Ranked(s, rank) && Ranked(s', rank) && s' == s.(objectTypes := s'.objectTypes)
    ensures Kept(s, rank, base, id) <==> Kept(s', rank, base, id)
    decreases rank(id)
  {
    if id in s.objects && s.objects[id].parentId in s.objects {
      TypesKeepKept(s, s', rank, base, s.objects[id].parentId);
    }
  }

  // ---- Any edits in any order ----

  /**
   * One edit takes the tree one step, and leaves it well formed exactly when
   * it does not break the tree that it finds.
   */
  method DoEdit(tree: ObjectTree, e: Edit) returns (ok: bool)
    requires tree.Valid() && EditOk(tree.own, e)
    modifies tree, tree.snapshot
    ensures tree.snapshot == old(tree.snapshot) || fresh(tree.snapshot)
    ensures Ranked(old(tree.snapshot.View()), old(tree.snapshot.rank))
    ensures EditStep(old(tree.snapshot.View()), old(tree.snapshot.rank), tree.snapshot.View(), tree.own, tree.ns, e)
    ensures ok <==> tree.Valid()
    ensures ok <==> !Breaks(old(tree.snapshot.View()), old(tree.snapshot.rank), tree.own, tree.ns, e)
    ensures !ok ==> !exists r :: WellFormed(tree.snapshot.View(), r, tree.own)
  {
    hide Wf, KeepsToItself, GoodDevices, NoReuse, Linked, CfgIds, Refreshed, ConfigEq, OwnsMessage, RemovedDevice,
         BuiltFrom, Grafted, Reparented, UnsGrew, Shows, TypesEq, KeptSet;
    ghost var s, rk := tree.snapshot.View(), tree.snapshot.rank;
    RankedNow(s, rk, tree.own);
    ok := true;
    match e {
      case Replace(u, d) =>
        ghost var built := tree.snapshot.ReplaceDeviceSubtree(tree.ns, u, d);
        assert ReplacedBy(s, rk, built, tree.snapshot.View(), tree.own, tree.ns, u, d);
      case Remove(u) =>
        tree.snapshot.RemoveDevice(u);
      case Rename(u, name) =>
        tree.snapshot.UpdateDeviceName(u, name);
      case Show(msg) =>
        OwnedMessage(tree.own, msg);
        ok := Conf(msg.instances[0]) in tree.snapshot.objects || msg.segments == [];
        ghost var mid, midRank, path;
        var leaf;
        leaf, mid, midRank, path :=
          tree.snapshot.AddCompositionFromUns(msg.instances, msg.schemas, msg.segments, msg.isa95);
        assert ShownBy(s, mid, tree.snapshot.View(), path, tree.own, msg);
      case Rebuild(emission) =>
        tree.RefreshFromSnapshot(emission);
        ok := tree.snapshot.IsLinked();
        if !ok {
          NotLinkedNotWf(tree.snapshot.View(), tree.own);
        }
    }
  }

  /**
   * Replacements, removals, renamings, messages and full rebuilds in any order
   * and number: the tree stays well formed up to the first edit that breaks
   * the tree it finds, and if there is none, to the end.
   */
  method RunEdits(tree: ObjectTree, edits: seq<Edit>) returns (done: nat, ok: bool, ghost trace: seq<Stage>)
    requires tree.Valid()
    requires forall i :: 0 <= i < |edits| ==> EditOk(tree.own, edits[i])
    modifies tree, tree.snapshot
    ensures done <= |edits| && |trace| == done + 1
    ensures trace[0].tree == old(tree.snapshot.View()) && trace[done].tree == tree.snapshot.View()
    ensures forall i :: 0 <= i < done ==>
      && EditAt(trace, tree.own, tree.ns, edits, i)
      && (EditBreaks(trace, tree.own, tree.ns, edits, i) <==> !ok && i == done - 1)
    ensures ok <==> tree.Valid()
    ensures if ok then done == |edits|
            else 0 < done && !exists r :: WellFormed(tree.snapshot.View(), r, tree.own)
  {
    hide Wf, Ranked, EditOk, EditStep, Breaks, EditAt, EditBreaks;
    ghost var first := tree.snapshot;
    done, ok := 0, true;
    trace := [Stage(tree.snapshot.View(), tree.snapshot.rank)];
    while done < |edits|
      invariant done <= |edits| && |trace| == done + 1 && ok && tree.Valid()
      invariant tree.snapshot == first || fresh(tree.snapshot)
      invariant trace[0].tree == old(tree.snapshot.View())
      invariant trace[done] == Stage(tree.snapshot.View(), tree.snapshot.rank)
      invariant forall i :: 0 <= i < done ==>
        EditAt(trace, tree.own, tree.ns, edits, i) && !EditBreaks(trace, tree.own, tree.ns, edits, i)
    {
      ghost var before := trace;
      ok := DoEdit(tree, edits[done]);
      trace := trace + [Stage(tree.snapshot.View(), tree.snapshot.rank)];
      MoreEdits(before, trace[done + 1], tree.own, tree.ns, edits, done);
      done := done + 1;
      if !ok {
        return;
      }
    }
  }
}
