/**
 * The state of the object tree as a value, and what it means for that value
 * to be a well-formed forest.
 */
module TreeShape {
  import opened Basics
  import opened OriginMaps

  datatype Source = Config | Uns

  datatype Snap = Snap(objectTypes: map<string, ObjectType>,
                       objects: map<Id, Obj>,
                       children: map<Id, set<Id>>,
                       metricMeta: map<Id, MetricMeta>,
                       sources: map<Id, Source>)

  const EMPTY := Snap(map[], map[], map[], map[], map[])

  /** A missing entry of `children` and an empty one mean the same. */
  function Kids(s: Snap, p: Id): set<Id> {
    if p in s.children then s.children[p] else {}
  }

  predicate IsConfig(s: Snap, id: Id) {
    id in s.objects && id in s.sources && s.sources[id] == Config
  }

  predicate IsUns(s: Snap, id: Id) {
    id in s.objects && id in s.sources && s.sources[id] == Uns
  }

  /**
   * Which device a node id belongs to. `own` says it for configured UUIDs:
   * a device owns itself and the Instance_UUIDs inside its configs. That such
   * an `own` exists is the assumption that devices do not share node ids.
   */
  function Owner(own: string -> string, id: Id): Option<string> {
    match id
    case Slash => None
    case Isa(_, _) => None
    case Conf(x) => Some(own(x))
    case Metric(above, _) => Owner(own, above)
  }

  predicate IsDevice(own: string -> string, id: Id) {
    id.Conf? && own(id.uuid) == id.uuid
  }

  predicate OwnedBy(own: string -> string, u: string, id: Id) {
    Owner(own, id) == Some(u)
  }

  // ---- Well-formedness ----

  ghost predicate Tidy(s: Snap) {
    && s.sources.Keys == s.objects.Keys
    && s.metricMeta.Keys <= s.objects.Keys
    && (forall c :: c in s.metricMeta ==> !c.Isa?)
    && Slash !in s.objects
    && forall c :: c in s.objects ==> s.objects[c].elementId == c
  }

  /** `children` lists exactly the nodes that name the parent; a loose node need not be listed. */
  ghost predicate Linked(s: Snap, loose: set<Id>) {
    && (forall p, c :: c in Kids(s, p) ==> c in s.objects && s.objects[c].parentId == p)
    && (forall c :: c in s.objects && c !in loose ==> c in Kids(s, s.objects[c].parentId))
  }

  /** Ranks fall from child to parent, so every parent chain is finite and ends at "/". */
  ghost predicate Ranked(s: Snap, rank: Id -> nat) {
    && Slash !in s.objects
    && forall c :: c in s.objects ==>
         var p := s.objects[c].parentId;
         p == Slash || (p in s.objects && rank(p) < rank(c))
  }

  /** What each kind of node looks like and what it may hang from. */
  ghost predicate NodeOk(s: Snap, own: string -> string, loose: set<Id>, c: Id)
    requires c in s.objects
  {
    var p := s.objects[c].parentId;
    match c
    case Slash => false
    case Isa(up, segment) =>
      s.objects[c] == IsaObj(up, segment) && (up.Slash? || up.Isa?) && IsConfig(s, c)
    case _ =>
      if IsDevice(own, c) then
        IsConfig(s, c) && (p.Isa? || (p.Slash? && c in loose))
      else
        && Owner(own, c).Some?
        && OwnedBy(own, Owner(own, c).value, p)
        && IsDevice(own, Conf(Owner(own, c).value))
        && Conf(Owner(own, c).value) in s.objects
        && (IsConfig(s, c) ==> IsConfig(s, p))
  }

  ghost predicate Wf(s: Snap, rank: Id -> nat, own: string -> string, loose: set<Id>) {
    && Tidy(s)
    && Linked(s, loose)
    && Ranked(s, rank)
    && forall c :: c in s.objects ==> NodeOk(s, own, loose, c)
  }

  /** The same predicate with nothing loose. */
  ghost predicate WellFormed(s: Snap, rank: Id -> nat, own: string -> string) {
    Wf(s, rank, own, {})
  }

  // ---- Adding a node ----

  function Insert(s: Snap, o: Obj, src: Source): Snap {
    s.(objects := s.objects[o.elementId := o],
       sources := s.sources[o.elementId := src],
       children := s.children[o.parentId := Kids(s, o.parentId) + {o.elementId}])
  }

  /** When a node may be added: its parent is there and suits it. */
  ghost predicate Insertable(s: Snap, own: string -> string, o: Obj, src: Source) {
    var c, p := o.elementId, o.parentId;
    && c !in s.objects
    && c != Slash
    && c != p
    && if c.Isa? then
         o == IsaObj(c.up, c.segment) && src == Config && (p == Slash || (p.Isa? && p in s.objects))
       else
         && !IsDevice(own, c)
         && Owner(own, c).Some?
         && IsDevice(own, Conf(Owner(own, c).value))
         && Conf(Owner(own, c).value) in s.objects
         && OwnedBy(own, Owner(own, c).value, p)
         && p in s.objects
         && (src == Config ==> IsConfig(s, p))
  }

  function Put(rank: Id -> nat, c: Id, n: nat): Id -> nat {
    (x: Id) => if x == c then n else rank(x)
  }

  function RankUnder(rank: Id -> nat, c: Id, p: Id): Id -> nat {
    Put(rank, c, rank(p) + 1)
  }

  lemma InsertLinked(s: Snap, loose: set<Id>, o: Obj, src: Source)
    requires Linked(s, loose) && o.elementId !in s.objects
    ensures Linked(Insert(s, o, src), loose)
  {
    var c, p := o.elementId, o.parentId;
    var t := Insert(s, o, src);
    forall q ensures Kids(t, q) == Kids(s, q) + (if q == p then {c} else {}) {}
  }

  lemma InsertRanked(s: Snap, rank: Id -> nat, o: Obj, src: Source)
    requires Ranked(s, rank) && o.elementId !in s.objects && o.elementId != o.parentId && o.elementId != Slash
    requires o.parentId == Slash || o.parentId in s.objects
    ensures Ranked(Insert(s, o, src), RankUnder(rank, o.elementId, o.parentId))
  {
  }

  lemma InsertNodeOk(s: Snap, own: string -> string, loose: set<Id>, o: Obj, src: Source, x: Id)
    requires s.sources.Keys == s.objects.Keys
    requires Insertable(s, own, o, src)
    requires x in s.objects ==> NodeOk(s, own, loose, x)
    requires x in s.objects || x == o.elementId
    ensures NodeOk(Insert(s, o, src), own, loose, x)
  {
  }

  lemma InsertKeepsWf(s: Snap, rank: Id -> nat, own: string -> string, loose: set<Id>, o: Obj, src: Source)
    requires Wf(s, rank, own, loose)
    requires Insertable(s, own, o, src)
    ensures Wf(Insert(s, o, src), RankUnder(rank, o.elementId, o.parentId), own, loose)
  {
    hide Linked, Ranked, NodeOk;
    var t := Insert(s, o, src);
    InsertLinked(s, loose, o, src);
    InsertRanked(s, rank, o, src);
    forall x | x in t.objects ensures NodeOk(t, own, loose, x) {
      InsertNodeOk(s, own, loose, o, src, x);
    }
  }

  // ---- Subtrees ----

  /** `c` is `a` or hangs somewhere below it. */
  ghost predicate Below(s: Snap, rank: Id -> nat, c: Id, a: Id)
    requires Ranked(s, rank)
    decreases rank(c)
  {
    c == a ||
    (c in s.objects && s.objects[c].parentId in s.objects && Below(s, rank, s.objects[c].parentId, a))
  }

  ghost function Desc(s: Snap, rank: Id -> nat, a: Id): set<Id>
    requires Ranked(s, rank)
  {
    set c | c in s.objects && Below(s, rank, c, a)
  }

  ghost function DescMany(s: Snap, rank: Id -> nat, roots: set<Id>): set<Id>
    requires Ranked(s, rank)
  {
    set c | c in s.objects && exists a :: a in roots && Below(s, rank, c, a)
  }

  /** With a node, a closed set holds everything below it. */
  ghost predicate Closed(s: Snap, gone: set<Id>) {
    forall c :: c in s.objects && s.objects[c].parentId in gone ==> c in gone
  }

  lemma {:induction false} ClosedHoldsDesc(s: Snap, rank: Id -> nat, gone: set<Id>, c: Id, a: Id)
    requires Ranked(s, rank) && Closed(s, gone) && a in gone
    requires c in s.objects && Below(s, rank, c, a)
    ensures c in gone
    decreases rank(c)
  {
    if c != a {
      ClosedHoldsDesc(s, rank, gone, s.objects[c].parentId, a);
    }
  }

  /** Everything below a node other than itself is below one of its children. */
  lemma {:induction false} BelowChild(s: Snap, rank: Id -> nat, c: Id, a: Id) returns (k: Id)
    requires Ranked(s, rank) && Linked(s, {})
    requires c in s.objects && Below(s, rank, c, a) && c != a
    ensures k in Kids(s, a) && Below(s, rank, c, k)
    decreases rank(c)
  {
    if s.objects[c].parentId == a {
      k := c;
    } else {
      k := BelowChild(s, rank, s.objects[c].parentId, a);
    }
  }

  lemma {:induction false} BelowTransitive(s: Snap, rank: Id -> nat, c: Id, b: Id, a: Id)
    requires Ranked(s, rank)
    requires Below(s, rank, c, b) && Below(s, rank, b, a)
    ensures Below(s, rank, c, a)
    decreases rank(c)
  {
    if c != b {
      BelowTransitive(s, rank, s.objects[c].parentId, b, a);
    }
  }

  lemma {:induction false} BelowRank(s: Snap, rank: Id -> nat, c: Id, a: Id)
    requires Ranked(s, rank)
    requires c in s.objects && Below(s, rank, c, a)
    ensures a in s.objects && rank(a) <= rank(c)
    decreases rank(c)
  {
    if c != a {
      BelowRank(s, rank, s.objects[c].parentId, a);
    }
  }

  lemma DescUnfold(s: Snap, rank: Id -> nat, a: Id)
    requires Ranked(s, rank) && Linked(s, {}) && a in s.objects
    ensures Desc(s, rank, a) == {a} + DescMany(s, rank, Kids(s, a))
  {
    hide Ranked, Linked, Below, Kids;
    BelowSelf(s, rank, a);
    forall c | c in s.objects
      ensures Below(s, rank, c, a) <==> c == a || exists k :: k in Kids(s, a) && Below(s, rank, c, k)
    {
      if Below(s, rank, c, a) && c != a {
        var k := BelowChild(s, rank, c, a);
      }
      if k :| k in Kids(s, a) && Below(s, rank, c, k) {
        KidBelow(s, rank, k, a);
        BelowTransitive(s, rank, c, k, a);
      }
    }
  }

  lemma BelowSelf(s: Snap, rank: Id -> nat, a: Id)
    requires Ranked(s, rank)
    ensures Below(s, rank, a, a)
  {
  }

  lemma KidBelow(s: Snap, rank: Id -> nat, k: Id, a: Id)
    requires Ranked(s, rank) && Linked(s, {}) && k in Kids(s, a) && a in s.objects
    ensures Below(s, rank, k, a)
  {
    hide Ranked;
    assert k in s.objects && s.objects[k].parentId == a;
    hide Linked, Kids;
    BelowSelf(s, rank, a);
  }

  lemma ChildDescSmaller(s: Snap, rank: Id -> nat, k: Id, a: Id)
    requires Ranked(s, rank) && Linked(s, {}) && a in s.objects && k in Kids(s, a)
    ensures Desc(s, rank, k) < Desc(s, rank, a)
  {
    assert s.objects[k].parentId == a;
    forall c | c in Desc(s, rank, k) ensures c in Desc(s, rank, a) {
      BelowTransitive(s, rank, c, k, a);
    }
    if a in Desc(s, rank, k) {
      BelowRank(s, rank, a, k);
    }
    assert a in Desc(s, rank, a);
  }

  // ---- Removing nodes ----

  function Minus(s: Snap, gone: set<Id>): Snap {
    s.(objects := s.objects - gone, sources := s.sources - gone,
       metricMeta := s.metricMeta - gone, children := s.children - gone)
  }

  lemma MinusTwice(s: Snap, a: set<Id>, b: set<Id>)
    ensures Minus(Minus(s, a), b) == Minus(s, a + b)
  {
    assert s.objects - a - b == s.objects - (a + b);
    assert s.sources - a - b == s.sources - (a + b);
    assert s.metricMeta - a - b == s.metricMeta - (a + b);
    assert s.children - a - b == s.children - (a + b);
  }

  ghost function Owned(s: Snap, own: string -> string, u: string): set<Id> {
    set c | c in s.objects && OwnedBy(own, u, c)
  }

  /** The subtree of a device is what the device owns. */
  lemma DeviceDesc(s: Snap, rank: Id -> nat, own: string -> string, u: string)
    requires WellFormed(s, rank, own) && own(u) == u && Conf(u) in s.objects
    ensures Desc(s, rank, Conf(u)) == Owned(s, own, u)
  {
    forall c | c in s.objects ensures Below(s, rank, c, Conf(u)) <==> OwnedBy(own, u, c) {
      DeviceBelow(s, rank, own, u, c);
    }
  }

  lemma {:induction false} DeviceBelow(s: Snap, rank: Id -> nat, own: string -> string, u: string, c: Id)
    requires WellFormed(s, rank, own) && own(u) == u && c in s.objects && Conf(u) in s.objects
    ensures Below(s, rank, c, Conf(u)) <==> OwnedBy(own, u, c)
    decreases rank(c)
  {
    var p := s.objects[c].parentId;
    assert NodeOk(s, own, {}, c);
    if c != Conf(u) && p in s.objects {
      DeviceBelow(s, rank, own, u, p);
    }
  }

  /** Take out a device with everything it owns, and unlist it at its parent. */
  function Detach(s: Snap, gone: set<Id>, device: Id, parent: Id): Snap {
    var t := Minus(s, gone);
    if parent in t.children then t.(children := t.children[parent := t.children[parent] - {device}]) else t
  }

  /** What a removal must do to leave a well-formed tree. */
  ghost predicate Removal(s: Snap, t: Snap, gone: set<Id>) {
    && t.objects == s.objects - gone
    && t.sources == s.sources - gone
    && t.metricMeta == s.metricMeta - gone
    && forall q :: Kids(t, q) == if q in gone then {} else Kids(s, q) - gone
  }

  lemma RemovalKeepsWf(s: Snap, t: Snap, gone: set<Id>, rank: Id -> nat, own: string -> string)
    requires WellFormed(s, rank, own) && Removal(s, t, gone) && Closed(s, gone)
    requires forall c :: c in t.objects && Owner(own, c).Some? ==> Conf(Owner(own, c).value) !in gone
    ensures WellFormed(t, rank, own)
  {
    assert Tidy(t);
    assert Ranked(t, rank);
    RemovalLinked(s, t, gone);
    forall c | c in t.objects ensures NodeOk(t, own, {}, c) {
      RemovalNodeOk(s, t, gone, own, c);
    }
  }

  lemma RemovalLinked(s: Snap, t: Snap, gone: set<Id>)
    requires Linked(s, {}) && Removal(s, t, gone) && Closed(s, gone)
    ensures Linked(t, {})
  {
    forall q, c | c in Kids(t, q) ensures c in t.objects && t.objects[c].parentId == q {
      assert c in Kids(s, q);
    }
    forall c | c in t.objects ensures c in Kids(t, t.objects[c].parentId) {
      assert c in Kids(s, s.objects[c].parentId);
    }
  }

  lemma RemovalNodeOk(s: Snap, t: Snap, gone: set<Id>, own: string -> string, c: Id)
    requires Tidy(s) && Removal(s, t, gone) && Closed(s, gone)
    requires c in t.objects && NodeOk(s, own, {}, c)
    requires Owner(own, c).Some? ==> Conf(Owner(own, c).value) !in gone
    ensures NodeOk(t, own, {}, c)
  {
  }

  /** The owner of a node owns itself: it is a device. */
  lemma OwnerIsDevice(s: Snap, rank: Id -> nat, own: string -> string, c: Id)
    requires WellFormed(s, rank, own) && c in s.objects && Owner(own, c).Some?
    ensures own(Owner(own, c).value) == Owner(own, c).value
    ensures Conf(Owner(own, c).value) in s.objects
  {
    assert NodeOk(s, own, {}, c);
  }

  lemma OwnedIsClosed(s: Snap, rank: Id -> nat, own: string -> string, u: string)
    requires WellFormed(s, rank, own)
    ensures Closed(s, Owned(s, own, u))
  {
    forall c | c in s.objects && OwnedBy(own, u, s.objects[c].parentId) ensures OwnedBy(own, u, c) {
      assert NodeOk(s, own, {}, c);
    }
  }

  /** From outside, a device's nodes are reached only through the device. */
  lemma OwnedKid(s: Snap, rank: Id -> nat, own: string -> string, u: string, q: Id, c: Id)
    requires WellFormed(s, rank, own) && c in Kids(s, q) && OwnedBy(own, u, c) && q !in Owned(s, own, u)
    ensures c == Conf(u) && q == s.objects[c].parentId
  {
    assert NodeOk(s, own, {}, c);
    assert q == Slash || q in s.objects;
  }

  lemma DetachIsRemoval(s: Snap, gone: set<Id>, d: Id, p: Id)
    requires forall q, c :: c in Kids(s, q) && c in gone && q !in gone ==> c == d && q == p
    requires d in gone
    ensures Removal(s, Detach(s, gone, d, p), gone)
  {
    var t := Detach(s, gone, d, p);
    forall q ensures Kids(t, q) == if q in gone then {} else Kids(s, q) - gone {
      if q !in gone && q != p {
        assert Kids(t, q) == Kids(s, q);
      }
    }
  }

  lemma DetachOwned(s: Snap, rank: Id -> nat, own: string -> string, u: string)
    requires WellFormed(s, rank, own) && own(u) == u && Conf(u) in s.objects
    ensures var gone := Owned(s, own, u);
      Removal(s, Detach(s, gone, Conf(u), s.objects[Conf(u)].parentId), gone)
  {
    var gone, p := Owned(s, own, u), s.objects[Conf(u)].parentId;
    forall q, c | c in Kids(s, q) && c in gone && q !in gone ensures c == Conf(u) && q == p {
      OwnedKid(s, rank, own, u, q, c);
    }
    DetachIsRemoval(s, gone, Conf(u), p);
  }

  lemma DetachKeepsWf(s: Snap, rank: Id -> nat, own: string -> string, u: string)
    requires WellFormed(s, rank, own) && own(u) == u && Conf(u) in s.objects
    ensures WellFormed(Detach(s, Owned(s, own, u), Conf(u), s.objects[Conf(u)].parentId), rank, own)
  {
    var gone, p := Owned(s, own, u), s.objects[Conf(u)].parentId;
    var t := Detach(s, gone, Conf(u), p);
    DetachOwned(s, rank, own, u);
    OwnedIsClosed(s, rank, own, u);
    forall c | c in t.objects && Owner(own, c).Some? ensures Conf(Owner(own, c).value) !in gone {
      OwnerIsDevice(s, rank, own, c);
    }
    RemovalKeepsWf(s, t, gone, rank, own);
  }

  /** Take out an ISA-95 node that has no children. */
  function DropIsa(s: Snap, x: Id): Snap
    requires x in s.objects
  {
    var p := s.objects[x].parentId;
    var kids := s.children - {x};
    s.(objects := s.objects - {x}, sources := s.sources - {x},
       children := if p in kids then kids[p := kids[p] - {x}] else kids)
  }

  lemma DropIsaIsRemoval(s: Snap, x: Id)
    requires Tidy(s) && Linked(s, {}) && x in s.objects && x.Isa? && Kids(s, x) == {}
    ensures Removal(s, DropIsa(s, x), {x}) && Closed(s, {x})
  {
    var t := DropIsa(s, x);
    assert t.metricMeta == s.metricMeta - {x};
    hide Tidy;
    assert Closed(s, {x}) by {
      ChildlessClosed(s, x);
    }
    DropIsaKids(s, x);
  }

  lemma ChildlessClosed(s: Snap, x: Id)
    requires Linked(s, {}) && Kids(s, x) == {}
    ensures Closed(s, {x})
  {
    hide Kids;
  }

  lemma DropIsaKids(s: Snap, x: Id)
    requires Linked(s, {}) && x in s.objects && Kids(s, x) == {}
    ensures forall q :: Kids(DropIsa(s, x), q) == if q in {x} then {} else Kids(s, q) - {x}
  {
    forall q ensures Kids(DropIsa(s, x), q) == if q in {x} then {} else Kids(s, q) - {x} {
      if q != s.objects[x].parentId {
        assert x !in Kids(s, q);
      }
    }
  }

  lemma DropIsaKeepsWf(s: Snap, rank: Id -> nat, own: string -> string, x: Id)
    requires WellFormed(s, rank, own) && x in s.objects && x.Isa? && Kids(s, x) == {}
    ensures WellFormed(DropIsa(s, x), rank, own)
  {
    DropIsaIsRemoval(s, x);
    RemovalKeepsWf(s, DropIsa(s, x), {x}, rank, own);
  }

  /** Walking up from `x`, drop ISA-95 nodes until one still has children. */
  function CleanUp(s: Snap, x: Id): Snap
    decreases x
  {
    if !x.Isa? || Kids(s, x) != {} then s
    else CleanUp(if x in s.objects then DropIsa(s, x) else s, x.up)
  }

  lemma {:induction false} CleanUpKeepsWf(s: Snap, rank: Id -> nat, own: string -> string, x: Id)
    requires WellFormed(s, rank, own)
    ensures WellFormed(CleanUp(s, x), rank, own)
    decreases x
  {
    if x.Isa? && Kids(s, x) == {} {
      if x in s.objects {
        DropIsaKeepsWf(s, rank, own, x);
        CleanUpKeepsWf(DropIsa(s, x), rank, own, x.up);
      } else {
        CleanUpKeepsWf(s, rank, own, x.up);
      }
    }
  }

  // ---- Re-parenting a device ----

  function Move(s: Snap, d: Id, p: Id): Snap
    requires d in s.objects
  {
    var o := s.objects[d];
    var kids := if o.parentId in s.children
                then s.children[o.parentId := s.children[o.parentId] - {d}] else s.children;
    s.(objects := s.objects[d := o.(parentId := p)],
       children := kids[p := (if p in kids then kids[p] else {}) + {d}])
  }

  /** Lift everything outside the ISA-95 hierarchy above the node `p`. */
  function Lift(rank: Id -> nat, p: Id): Id -> nat {
    (x: Id) => if x.Isa? then rank(x) else rank(x) + rank(p) + 1
  }

  /** May `d` be moved under `p`: both are there, of the right kind, and apart. */
  ghost predicate Movable(s: Snap, own: string -> string, d: Id, p: Id) {
    d in s.objects && IsDevice(own, d) && p in s.objects && p.Isa? && s.objects[d].parentId != p
  }

  lemma MoveLinked(s: Snap, d: Id, p: Id)
    requires Linked(s, {d}) && d in s.objects && d != p && s.objects[d].parentId != p
    ensures Linked(Move(s, d, p), {})
  {
    var t := Move(s, d, p);
    forall q ensures Kids(t, q) == if q == p then Kids(s, q) + {d} else Kids(s, q) - {d} {
      if q != s.objects[d].parentId {
        assert d !in Kids(s, q);
      }
    }
  }

  lemma MoveRanked(s: Snap, rank: Id -> nat, own: string -> string, d: Id, p: Id)
    requires Wf(s, rank, own, {d}) && Movable(s, own, d, p)
    ensures Ranked(Move(s, d, p), Lift(rank, p))
  {
    var t, rank' := Move(s, d, p), Lift(rank, p);
    forall c | c in t.objects
      ensures var q := t.objects[c].parentId; q == Slash || (q in t.objects && rank'(q) < rank'(c))
    {
      assert NodeOk(s, own, {d}, c);
    }
  }

  lemma MoveNodeOk(s: Snap, own: string -> string, d: Id, p: Id, c: Id)
    requires s.sources.Keys == s.objects.Keys
    requires Movable(s, own, d, p) && c in s.objects && NodeOk(s, own, {d}, c)
    ensures NodeOk(Move(s, d, p), own, {}, c)
  {
  }

  lemma MoveKeepsWf(s: Snap, rank: Id -> nat, own: string -> string, d: Id, p: Id)
    requires Wf(s, rank, own, {d}) && Movable(s, own, d, p)
    ensures Wf(Move(s, d, p), Lift(rank, p), own, {})
  {
    var t := Move(s, d, p);
    MoveLinked(s, d, p);
    MoveRanked(s, rank, own, d, p);
    forall c | c in t.objects ensures NodeOk(t, own, {}, c) {
      MoveNodeOk(s, own, d, p, c);
    }
  }

  lemma LooserWf(s: Snap, rank: Id -> nat, own: string -> string, d: Id)
    requires WellFormed(s, rank, own)
    ensures Wf(s, rank, own, {d})
  {
    hide Tidy, Linked, Ranked, NodeOk;
    assert Linked(s, {d}) by {
      LooserLinks(s, d);
    }
    forall c | c in s.objects ensures NodeOk(s, own, {d}, c) {
      NodeOkLoose(s, own, d, c);
    }
  }

  lemma LooserLinks(s: Snap, d: Id)
    requires Linked(s, {})
    ensures Linked(s, {d})
  {
  }

  lemma NodeOkLoose(s: Snap, own: string -> string, d: Id, c: Id)
    requires c in s.objects
    ensures NodeOk(s, own, {}, c) ==> NodeOk(s, own, {d}, c)
    ensures NodeOk(s, own, {d}, c) && (c == d ==> s.objects[c].parentId != Slash) ==> NodeOk(s, own, {}, c)
  {
  }

  /** A loose device that hangs from an ISA-95 node and is listed there is not loose. */
  lemma TighterWf(s: Snap, rank: Id -> nat, own: string -> string, d: Id)
    requires Wf(s, rank, own, {d}) && d in s.objects
    requires d in Kids(s, s.objects[d].parentId) && s.objects[d].parentId != Slash
    ensures WellFormed(s, rank, own)
  {
    hide Tidy, Linked, Ranked, NodeOk, Kids;
    assert Linked(s, {}) by {
      TighterLinks(s, d);
    }
    forall c | c in s.objects ensures NodeOk(s, own, {}, c) {
      NodeOkLoose(s, own, d, c);
    }
  }

  lemma TighterLinks(s: Snap, d: Id)
    requires Linked(s, {d}) && d in s.objects && d in Kids(s, s.objects[d].parentId)
    ensures Linked(s, {})
  {
  }

  // ---- Changes that leave the shape alone ----

  ghost predicate SameShape(s: Snap, t: Snap) {
    && t.objects.Keys == s.objects.Keys
    && t.sources == s.sources
    && t.children == s.children
    && forall c :: c in s.objects ==>
         t.objects[c] == s.objects[c].(displayName := t.objects[c].displayName) &&
         (c.Isa? ==> t.objects[c] == s.objects[c])
  }

  lemma SameShapeNodeOk(s: Snap, t: Snap, own: string -> string, loose: set<Id>, c: Id)
    requires SameShape(s, t) && c in s.objects && NodeOk(s, own, loose, c)
    ensures NodeOk(t, own, loose, c)
  {
  }

  lemma SameShapeLinks(s: Snap, t: Snap, rank: Id -> nat)
    requires SameShape(s, t) && Linked(s, {}) && Ranked(s, rank)
    ensures Linked(t, {}) && Ranked(t, rank)
  {
    forall q ensures Kids(t, q) == Kids(s, q) {}
  }

  lemma SameShapeKeepsWf(s: Snap, t: Snap, rank: Id -> nat, own: string -> string)
    requires WellFormed(s, rank, own) && SameShape(s, t)
    requires t.metricMeta.Keys <= t.objects.Keys && forall c :: c in t.metricMeta ==> !c.Isa?
    ensures WellFormed(t, rank, own)
  {
    hide Ranked, NodeOk, Linked;
    SameShapeLinks(s, t, rank);
    assert Tidy(t);
    forall c | c in t.objects ensures NodeOk(t, own, {}, c) {
      SameShapeNodeOk(s, t, own, {}, c);
    }
  }

  lemma MetaKeepsWf(s: Snap, rank: Id -> nat, own: string -> string, c: Id, meta: MetricMeta)
    requires WellFormed(s, rank, own) && c in s.objects && !c.Isa?
    ensures WellFormed(s.(metricMeta := s.metricMeta[c := meta]), rank, own)
  {
    hide Linked, Ranked, NodeOk;
    SameShapeKeepsWf(s, s.(metricMeta := s.metricMeta[c := meta]), rank, own);
  }
}
