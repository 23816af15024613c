/**
 * The configuration database's classes: ranked objects, who is a member and
 * who is a subclass of what, and what each request does to these tables.
 */
module ClassGraph {
  import opened Basics
  import opened Paths

  datatype Obj = Obj(cls: Option<Node>, rank: nat)

  /** The tables `object`, `membership` and `subclass`; the latter two hold (class, id) rows. */
  datatype Db = Db(objects: map<Node, Obj>, membership: set<Edge>, subclass: set<Edge>)

  // ---- The views ----

  predicate InAllClass(db: Db, k: Node) {
    || (exists r :: r in db.subclass && (r.0 == k || r.1 == k))
    || (exists r :: r in db.membership && r.0 == k)
  }

  ghost predicate AllSubclass(db: Db, c: Node, o: Node) {
    InAllClass(db, c) && Reach(db.subclass, c, o)
  }

  ghost predicate AllMembership(db: Db, c: Node, o: Node) {
    exists d :: AllSubclass(db, c, d) && (d, o) in db.membership
  }

  /** The view `any_child` has a row under `id`. */
  predicate HasChildren(db: Db, id: Node) {
    exists r :: r in db.membership + db.subclass && r.0 == id
  }

  // ---- Requests ----

  /** An object that is not an individual goes below the class of all objects of its rank. */
  function WithRankSuperclass(db: Db, ranks: seq<Node>, o: Node): Db
    requires o in db.objects
  {
    var r := db.objects[o].rank;
    if 1 <= r <= |ranks| then db.(subclass := db.subclass + {(ranks[r - 1], o)}) else db
  }

  function AddMember(db: Db, c: Node, o: Node): (Db, int) {
    if c !in db.objects || o !in db.objects then (db, 404)
    else if db.objects[c].rank != db.objects[o].rank + 1 then (db, 409)
    else (db.(membership := db.membership + {(c, o)}), 204)
  }

  ghost function RemoveMember(db: Db, c: Node, o: Node): (Db, int) {
    if c !in db.objects || o !in db.objects then (db, 404)
    else
      var after := db.(membership := db.membership - {(c, o)});
      if db.objects[o].cls.Some? && AllMembership(after, db.objects[o].cls.value, o) then (after, 204)
      else (db, 409)
  }

  /** The direct superclasses of `o` that `c` makes redundant. */
  ghost function Redundant(db: Db, c: Node, o: Node): set<Edge> {
    set r | r in db.subclass && r.1 == o && AllSubclass(db, r.0, c)
  }

  ghost function AddSubclass(db: Db, c: Node, o: Node): (Db, int) {
    if c !in db.objects || o !in db.objects then (db, 404)
    else if db.objects[o].rank == 0 || db.objects[c].rank != db.objects[o].rank then (db, 409)
    else (db.(subclass := db.subclass - Redundant(db, c, o) + {(c, o)}), 204)
  }

  function RemoveSubclass(db: Db, ranks: seq<Node>, c: Node, o: Node): (Db, int) {
    if c !in db.objects || o !in db.objects || db.objects[o].rank == 0 then (db, 404)
    else
      var after := db.(subclass := db.subclass - {(c, o)});
      if o in ranks || exists r :: r in after.subclass && r.1 == o then (after, 204)
      else (WithRankSuperclass(after, ranks, o), 204)
  }

  predicate IsClassOfRank(db: Db, k: Node, rank: int) {
    k in db.objects && db.objects[k].rank == rank
  }

  /** Change the primary class of an object and keep its rank. */
  ghost function UpdateClass(db: Db, id: Node, cls: Node): (Db, int)
    requires id in db.objects
  {
    var rank := db.objects[id].rank;
    if !IsClassOfRank(db, cls, rank + 1) then (db, 409)
    else
      var m := if AllMembership(db, cls, id) then {} else {(cls, id)};
      (db.(membership := db.membership + m, objects := db.objects[id := Obj(Some(cls), rank)]), 204)
  }

  function RowsOf(table: set<Edge>, id: Node): set<Edge> {
    set r | r in table && r.1 == id
  }

  /** Turn an individual into a class or a class without children into an individual. */
  function ToFromIndividual(db: Db, ranks: seq<Node>, id: Node, cls: Node, rank: nat): (Db, int)
    requires id in db.objects
  {
    if !IsClassOfRank(db, cls, rank + 1) then (db, 409)
    else if rank == 0 && HasChildren(db, id) then (db, 409)
    else
      var moved := Db(
        db.objects[id := Obj(Some(cls), rank)],
        db.membership - RowsOf(db.membership, id) + {(cls, id)},
        db.subclass - RowsOf(db.subclass, id));
      (WithRankSuperclass(moved, ranks, id), 204)
  }

  /** The part of a registration that names the class and the rank. */
  ghost function Register(db: Db, ranks: seq<Node>, id: Node, cls: Node, rank: nat): (Db, int) {
    if id !in db.objects then (db, 404)
    else
      var was := db.objects[id];
      if was.rank != rank then
        if was.rank == 0 || rank == 0 then ToFromIndividual(db, ranks, id, cls, rank) else (db, 409)
      else if was.cls != Some(cls) then UpdateClass(db, id, cls)
      else (db, 204)
  }

  /** Create an object, or update the class of one that exists. */
  ghost function Create(db: Db, ranks: seq<Node>, id: Node, cls: Option<Node>): (Db, int) {
    if id in db.objects then
      var was := db.objects[id];
      if cls.None? || was.cls == cls then (db, 200)
      else
        var r := UpdateClass(db, id, cls.value);
        (r.0, if r.1 == 204 then 200 else r.1)
    else if cls.None? then (db, 422)
    else if cls.value !in db.objects then (db, 409)
    else if db.objects[cls.value].rank == 0 then (db, 500)      // the rank check of the table fails
    else
      var made := db.(
        objects := db.objects[id := Obj(cls, db.objects[cls.value].rank - 1)],
        membership := db.membership + {(cls.value, id)});
      (WithRankSuperclass(made, ranks, id), 201)
  }

  /** `inUse` and `owns`: there are configurations under this object as application, or objects that it owns. */
  function Delete(db: Db, ranks: seq<Node>, id: Node, immutable: bool, inUse: bool, owns: bool): (Db, int) {
    if immutable then (db, 405)
    else if id !in db.objects then (db, 404)
    else if HasChildren(db, id) then (db, 409)
    else if inUse then (db, 409)
    else if id in ranks || owns || exists o :: o in db.objects && o != id && db.objects[o].cls == Some(id) then
      (db, 500)                                                  // a foreign key would dangle
    else
      (Db(db.objects - {id}, db.membership - RowsOf(db.membership, id), db.subclass - RowsOf(db.subclass, id)), 204)
  }

  datatype Request =
    | AddMemberTo(c: Node, o: Node)
    | RemoveMemberFrom(c: Node, o: Node)
    | AddSubclassTo(c: Node, o: Node)
    | RemoveSubclassFrom(c: Node, o: Node)
    | RegisterAs(id: Node, cls: Node, rank: nat)
    | CreateIn(id: Node, klass: Option<Node>)
    | DeleteObject(id: Node, immutable: bool, inUse: bool, owns: bool)

  ghost function Handle(db: Db, ranks: seq<Node>, q: Request): (Db, int) {
    match q
    case AddMemberTo(c, o) => AddMember(db, c, o)
    case RemoveMemberFrom(c, o) => RemoveMember(db, c, o)
    case AddSubclassTo(c, o) => AddSubclass(db, c, o)
    case RemoveSubclassFrom(c, o) => RemoveSubclass(db, ranks, c, o)
    case RegisterAs(id, cls, rank) => Register(db, ranks, id, cls, rank)
    case CreateIn(id, cls) => Create(db, ranks, id, cls)
    case DeleteObject(id, immutable, inUse, owns) => Delete(db, ranks, id, immutable, inUse, owns)
  }

  ghost function HandleAll(db: Db, ranks: seq<Node>, qs: seq<Request>): Db
    decreases qs
  {
    if qs == [] then db else HandleAll(Handle(db, ranks, qs[0]).0, ranks, qs[1..])
  }

  // ---- The rank structure ----

  ghost predicate MembersBelow(db: Db) {
    forall c, o {:trigger (c, o) in db.membership} :: (c, o) in db.membership ==>
      c in db.objects && o in db.objects && db.objects[c].rank == db.objects[o].rank + 1
  }

  ghost predicate SubclassesLevel(db: Db) {
    forall c, o {:trigger (c, o) in db.subclass} :: (c, o) in db.subclass ==>
      c in db.objects && o in db.objects && db.objects[c].rank == db.objects[o].rank >= 1
  }

  /** `ranks[d]` is the class of all objects of rank d; it has itself rank d + 1. */
  ghost predicate RankClasses(db: Db, ranks: seq<Node>) {
    && (forall d :: 0 <= d < |ranks| ==> ranks[d] in db.objects && db.objects[ranks[d]].rank == d + 1)
    && (forall o :: o in db.objects ==> db.objects[o].rank <= |ranks|)
  }

  predicate IsClass(db: Db, ranks: seq<Node>, o: Node) {
    o in db.objects && 1 <= db.objects[o].rank <= |ranks|
  }

  ghost predicate BelowRankClass(db: Db, ranks: seq<Node>) {
    forall o {:trigger IsClass(db, ranks, o)} :: IsClass(db, ranks, o) ==>
      Reach(db.subclass, ranks[db.objects[o].rank - 1], o)
  }

  ghost predicate ClassesExist(db: Db) {
    forall o {:trigger db.objects[o].cls} ::
      o in db.objects && db.objects[o].cls.Some? ==> db.objects[o].cls.value in db.objects
  }

  ghost predicate Ranked(db: Db, ranks: seq<Node>) {
    && ClassesExist(db) && MembersBelow(db) && SubclassesLevel(db)
    && RankClasses(db, ranks) && BelowRankClass(db, ranks) && Acyclic(db.subclass)
  }

  /**
   * The requests that respect the rank structure: one that adds a subclass
   * must not close a cycle, and one that turns a class into an individual must
   * not name that class as its own class, nor be made of a rank class.
   */
  ghost predicate Admissible(db: Db, ranks: seq<Node>, q: Request) {
    match q
    case AddSubclassTo(c, o) => AddSubclass(db, c, o).1 == 204 ==> !Reach(db.subclass, o, c)
    case RegisterAs(id, cls, rank) =>
      id in db.objects && db.objects[id].rank != rank && Register(db, ranks, id, cls, rank).1 == 204 ==>
        id != cls && id !in ranks
    case _ => true
  }

  ghost predicate AllAdmissible(db: Db, ranks: seq<Node>, qs: seq<Request>)
    decreases qs
  {
    qs != [] ==>
      Admissible(db, ranks, qs[0]) && AllAdmissible(Handle(db, ranks, qs[0]).0, ranks, qs[1..])
  }

  // ---- Adding a subclass keeps the meaning ----

  /** Every superclass that is removed from `o` still gets to `c` by a way around `o`. */
  ghost predicate WayAround(e: set<Edge>, c: Node, o: Node) {
    forall x :: (x, o) in e && x != o && Reach(e, x, c) ==> ReachAvoiding(e, x, c, o)
  }

  /** For the rows that are deleted the view and the bare closure agree. */
  lemma RedundantIs(db: Db, c: Node, o: Node, x: Node)
    ensures (x, o) in Redundant(db, c, o) <==> (x, o) in db.subclass && Reach(db.subclass, x, c)
  {
    if (x, o) in db.subclass {
      assert InAllClass(db, x);
    }
  }

  /**
   * Deleting the redundant rows and adding `(c, o)` gives exactly the closure
   * of the old rows plus `(c, o)`, if and only if there is a way around `o`.
   */
  lemma AddSubclassClosure(db: Db, c: Node, o: Node)
    requires AddSubclass(db, c, o).1 == 204
    ensures SameReach(AddSubclass(db, c, o).0.subclass, db.subclass + {(c, o)}) <==> WayAround(db.subclass, c, o)
  {
    var e := db.subclass;
    var lean, full := AddSubclass(db, c, o).0.subclass, e + {(c, o)};
    if WayAround(e, c, o) {
      LeanReaches(db, c, o);
    }
    if SameReach(lean, full) {
      forall x | (x, o) in e && x != o && Reach(e, x, c) ensures ReachAvoiding(e, x, c, o) {
        ReachEdge(full, x, o);
        FirstArrival(lean, x, o);
        var y :| (y, o) in lean && ReachAvoiding(lean, x, y, o);
        assert KeepsOthers(lean, e, o);
        AvoidingSurvives(lean, e, x, y, o);
        if y != c {
          RedundantIs(db, c, o, y);
          ThroughOrAround(e, x, c, o);
          if Reach(e, o, c) {
            ReachEdge(e, y, o);
            ReachTrans(e, y, o, c);
          }
        }
      }
    }
  }

  lemma LeanReaches(db: Db, c: Node, o: Node)
    requires AddSubclass(db, c, o).1 == 204 && WayAround(db.subclass, c, o)
    ensures SameReach(AddSubclass(db, c, o).0.subclass, db.subclass + {(c, o)})
  {
    var e := db.subclass;
    var lean, full := AddSubclass(db, c, o).0.subclass, e + {(c, o)};
    ReachMono(lean, full);
    forall x, y | (x, y) in full ensures Reach(lean, x, y) {
      if (x, y) in lean {
        ReachEdge(lean, x, y);
      } else if x == o {
        ReachSelf(lean, o);
      } else {
        RedundantIs(db, c, o, x);
        assert KeepsOthers(e, lean, o);
        AvoidingSurvives(e, lean, x, c, o);
        ReachEdge(lean, c, o);
        ReachTrans(lean, x, c, o);
      }
    }
    forall a, b | Reach(full, a, b) ensures Reach(lean, a, b) {
      var p :| Leads(full, p, a, b);
      FollowPath(full, lean, p, a, b);
    }
  }

  /** In particular whenever `c` is not `o` nor below it. */
  lemma NoCycleWayAround(e: set<Edge>, c: Node, o: Node)
    requires !Reach(e, o, c)
    ensures WayAround(e, c, o)
  {
    forall x | (x, o) in e && x != o && Reach(e, x, c) ensures ReachAvoiding(e, x, c, o) {
      ThroughOrAround(e, x, c, o);
    }
  }

  /** The members of every class are then those it would have had with the redundant rows left in. */
  lemma AddSubclassMembers(db: Db, c: Node, o: Node, k: Node, m: Node)
    requires AddSubclass(db, c, o).1 == 204 && WayAround(db.subclass, c, o)
    ensures AllMembership(AddSubclass(db, c, o).0, k, m) <==>
            AllMembership(db.(subclass := db.subclass + {(c, o)}), k, m)
  {
    LeanReaches(db, c, o);
    MembershipIs(AddSubclass(db, c, o).0, k, m);
    MembershipIs(db.(subclass := db.subclass + {(c, o)}), k, m);
  }

  /** The restriction of the views to `all_class` excludes no member. */
  lemma MembershipIs(db: Db, k: Node, m: Node)
    ensures AllMembership(db, k, m) <==> exists d :: Reach(db.subclass, k, d) && (d, m) in db.membership
  {
    if d :| Reach(db.subclass, k, d) && (d, m) in db.membership {
      if k != d {
        FirstStep(db.subclass, k, d);
      }
      assert InAllClass(db, k);
      assert AllSubclass(db, k, d);
    }
  }

  /** A class that is made a subclass of itself loses its superclasses. */
  lemma SelfSubclassLoses(top: Node, o: Node, db: Db)
    requires top != o
    requires db == Db(map[top := Obj(None, 1), o := Obj(None, 1)], {}, {(top, o)})
    ensures AddSubclass(db, o, o).1 == 204
    ensures Reach(db.subclass, top, o) && !Reach(AddSubclass(db, o, o).0.subclass, top, o)
  {
    var e := db.subclass;
    ReachEdge(e, top, o);
    ReachSelf(e, top);
    ReachSelf(e, o);
    if Reach(e, o, top) {
      FirstStep(e, o, top);
    }
    RedundantIs(db, o, o, top);
    var lean := AddSubclass(db, o, o).0.subclass;
    if Reach(lean, top, o) {
      FirstStep(lean, top, o);
    }
  }

  // ---- Every request keeps the rank structure ----

  lemma OwnRankClass(db: Db, ranks: seq<Node>, o: Node)
    requires Ranked(db, ranks) && IsClass(db, ranks, o)
    ensures o in ranks <==> o == ranks[db.objects[o].rank - 1]
    ensures o in ranks ==> forall c :: (c, o) !in db.subclass
    ensures o !in ranks ==> exists c :: (c, o) in db.subclass
    ensures o !in ranks ==> !Reach(db.subclass, o, ranks[db.objects[o].rank - 1])
  {
    hide Reach;
    var e, top := db.subclass, ranks[db.objects[o].rank - 1];
    if o in ranks {
      var d :| 0 <= d < |ranks| && ranks[d] == o;
      forall c ensures (c, o) !in e {
        assert IsClass(db, ranks, c) ==> Reach(e, ranks[db.objects[c].rank - 1], c);
      }
    } else {
      LastStep(e, top, o);
      var c :| Reach(e, top, c) && (c, o) in e;
      if Reach(e, o, top) {
        ReachTrans(e, o, top, c);
      }
    }
  }

  /** What the rank structure says of the subclass table survives if every class can still be reached. */
  lemma RankedAfter(db: Db, after: Db, ranks: seq<Node>)
    requires Ranked(db, ranks) && after.objects == db.objects && MembersBelow(after) && SubclassesLevel(after)
    requires Acyclic(after.subclass)
    requires forall o {:trigger IsClass(db, ranks, o)} :: IsClass(db, ranks, o) ==>
      Reach(after.subclass, ranks[db.objects[o].rank - 1], o)
    ensures Ranked(after, ranks)
  {
    hide Reach;
    forall o | IsClass(after, ranks, o) ensures Reach(after.subclass, ranks[after.objects[o].rank - 1], o) {
      assert IsClass(db, ranks, o);
    }
  }

  lemma LeanIs(db: Db, c: Node, o: Node)
    requires AddSubclass(db, c, o).1 == 204
    ensures var lean := AddSubclass(db, c, o).0.subclass;
      lean <= db.subclass + {(c, o)} && (c, o) in lean && KeepsOthers(db.subclass, lean, o)
  {
  }

  lemma AddSubclassKeeps(db: Db, ranks: seq<Node>, c: Node, o: Node)
    requires Ranked(db, ranks) && AddSubclass(db, c, o).1 == 204
    ensures Ranked(AddSubclass(db, c, o).0, ranks) <==> !Reach(db.subclass, o, c)
  {
    hide Reach, Redundant;
    var e := db.subclass;
    var after, full := AddSubclass(db, c, o).0, e + {(c, o)};
    var lean := after.subclass;
    LeanIs(db, c, o);
    if Reach(e, o, c) {
      LeavesOnce(e, lean, o, c);
    } else {
      NoCycleWayAround(e, c, o);
      LeanReaches(db, c, o);
      ReachMono(e, full);
      AcyclicAdd(e, c, o);
      AcyclicMono(lean, full);
      RankedAfter(db, after, ranks);
    }
  }

  /** Either another superclass is left, or the rank class becomes the only one, or `o` is a rank class itself. */
  lemma RemoveSubclassIs(db: Db, ranks: seq<Node>, c: Node, o: Node)
    requires Ranked(db, ranks) && RemoveSubclass(db, ranks, c, o).1 == 204
    ensures var cut, after := db.subclass - {(c, o)}, RemoveSubclass(db, ranks, c, o).0;
      && IsClass(db, ranks, o)
      && after.objects == db.objects && after.membership == db.membership
      && (after.subclass == cut || after.subclass == cut + {(ranks[db.objects[o].rank - 1], o)})
      && (after.subclass == cut ==> o in ranks || exists y :: (y, o) in cut)
      && (after.subclass != cut ==> o !in ranks)
  {
    hide Reach, Acyclic, BelowRankClass;
  }

  lemma RemoveSubclassAcyclic(db: Db, ranks: seq<Node>, c: Node, o: Node)
    requires Ranked(db, ranks) && RemoveSubclass(db, ranks, c, o).1 == 204
    ensures Acyclic(RemoveSubclass(db, ranks, c, o).0.subclass)
  {
    hide Reach, RemoveSubclass, BelowRankClass, SubclassesLevel, MembersBelow;
    RemoveSubclassIs(db, ranks, c, o);
    var e, top := db.subclass, ranks[db.objects[o].rank - 1];
    var cut := e - {(c, o)};
    OwnRankClass(db, ranks, o);
    AcyclicMono(cut, e);
    ReachMono(cut, e);
    AcyclicAdd(cut, top, o);
  }

  lemma RemoveSubclassKeeps(db: Db, ranks: seq<Node>, c: Node, o: Node)
    requires Ranked(db, ranks) && RemoveSubclass(db, ranks, c, o).1 == 204
    ensures Ranked(RemoveSubclass(db, ranks, c, o).0, ranks)
  {
    hide Reach, RemoveSubclass, BelowRankClass, Acyclic;
    RemoveSubclassIs(db, ranks, c, o);
    RemoveSubclassAcyclic(db, ranks, c, o);
    var after := RemoveSubclass(db, ranks, c, o).0;
    forall x {:trigger IsClass(db, ranks, x)} | IsClass(db, ranks, x)
      ensures Reach(after.subclass, ranks[db.objects[x].rank - 1], x)
    {
      RemoveSubclassReach(db, ranks, c, o, x);
    }
    RankedAfter(db, after, ranks);
  }

  lemma RemoveSubclassReach(db: Db, ranks: seq<Node>, c: Node, o: Node, x: Node)
    requires Ranked(db, ranks) && RemoveSubclass(db, ranks, c, o).1 == 204
    requires IsClass(db, ranks, x)
    ensures Reach(RemoveSubclass(db, ranks, c, o).0.subclass, ranks[db.objects[x].rank - 1], x)
  {
    hide Reach, RemoveSubclass;
    RemoveSubclassIs(db, ranks, c, o);
    var e, top := db.subclass, ranks[db.objects[x].rank - 1];
    var cut, f := e - {(c, o)}, RemoveSubclass(db, ranks, c, o).0.subclass;
    OwnRankClass(db, ranks, o);
    ReachMono(cut, f);
    if (c, o) in e {
      assert e == cut + {(c, o)};
      ThroughNewEdge(cut, c, o, top, x);
      if !Reach(cut, top, x) {
        ReachMono(cut, e);
        ReachLevel(db, o, x);
        if y :| (y, o) in cut {
          assert IsClass(db, ranks, y);
          ThroughNewEdge(cut, c, o, top, y);
          assert !Reach(e, o, y);
          ReachEdge(cut, y, o);
          ReachTrans(cut, top, y, o);
          ReachTrans(cut, top, o, x);
        } else {
          ReachEdge(f, top, o);
          ReachTrans(f, top, o, x);
        }
      }
    } else {
      assert cut == e;
    }
  }

  /** Subclasses have the rank of their superclasses, also across many steps. */
  lemma ReachLevel(db: Db, a: Node, b: Node)
    requires SubclassesLevel(db) && a in db.objects && Reach(db.subclass, a, b)
    ensures b in db.objects && db.objects[a].rank == db.objects[b].rank
  {
    var p :| Leads(db.subclass, p, a, b);
    PathLevel(db, p, a, b);
  }

  lemma {:induction false} PathLevel(db: Db, p: seq<Node>, a: Node, b: Node)
    requires SubclassesLevel(db) && a in db.objects && Leads(db.subclass, p, a, b)
    ensures b in db.objects && db.objects[a].rank == db.objects[b].rank
    decreases |p|
  {
    if |p| > 1 {
      LeadsCut(db.subclass, p, a, b, 1);
      assert (p[0], p[1]) in db.subclass;
      PathLevel(db, p[1..], p[1], b);
    }
  }

  lemma NoChildren(db: Db, id: Node)
    requires !HasChildren(db, id)
    ensures forall x :: (id, x) !in db.subclass && (id, x) !in db.membership
  {
    forall x ensures (id, x) !in db.subclass && (id, x) !in db.membership {
      var r := (id, x);
      assert r.0 == id;
    }
  }

  lemma ToFromKeeps(db: Db, ranks: seq<Node>, id: Node, cls: Node, rank: nat)
    requires Ranked(db, ranks) && id in db.objects
    requires db.objects[id].rank != rank && (db.objects[id].rank == 0 || rank == 0)
    requires ToFromIndividual(db, ranks, id, cls, rank).1 == 204
    ensures Ranked(ToFromIndividual(db, ranks, id, cls, rank).0, ranks) <==> id != cls && id !in ranks
  {
    hide Reach, Acyclic, BelowRankClass;
    var after := ToFromIndividual(db, ranks, id, cls, rank).0;
    if id == cls {
      assert (id, id) in after.membership;
    } else if id in ranks {
      var d :| 0 <= d < |ranks| && ranks[d] == id;
      assert after.objects[ranks[d]].rank == 0;
    } else {
      if rank == 0 {
        NoChildren(db, id);
      }
      ToFromReaches(db, ranks, id, cls, rank);
    }
  }

  lemma ToFromReaches(db: Db, ranks: seq<Node>, id: Node, cls: Node, rank: nat)
    requires Ranked(db, ranks) && id in db.objects && id !in ranks
    requires db.objects[id].rank != rank && (db.objects[id].rank == 0 || rank == 0)
    requires ToFromIndividual(db, ranks, id, cls, rank).1 == 204
    requires forall x :: (id, x) !in db.subclass
    ensures var after := ToFromIndividual(db, ranks, id, cls, rank).0;
      RankClasses(after, ranks) && BelowRankClass(after, ranks) && Acyclic(after.subclass)
  {
    hide Reach, Acyclic, MembersBelow, ClassesExist;
    var e, after := db.subclass, ToFromIndividual(db, ranks, id, cls, rank).0;
    var cut := e - RowsOf(e, id);
    LeafGone(db, ranks, id);
    AcyclicMono(cut, e);
    ReachMono(cut, after.subclass);
    if rank >= 1 {
      var top := ranks[rank - 1];
      if Reach(cut, id, top) {
        FirstStep(cut, id, top);
      }
      AcyclicAdd(cut, top, id);
      ReachEdge(after.subclass, top, id);
    }
    forall o | IsClass(after, ranks, o) ensures Reach(after.subclass, ranks[after.objects[o].rank - 1], o) {
      assert o != id ==> IsClass(db, ranks, o);
    }
  }

  /** Without the rows of an object that has no children, everything else is where it was. */
  lemma LeafGone(db: Db, ranks: seq<Node>, id: Node)
    requires Ranked(db, ranks) && forall x :: (id, x) !in db.subclass
    ensures forall o {:trigger IsClass(db, ranks, o)} :: IsClass(db, ranks, o) && o != id ==>
      Reach(db.subclass - RowsOf(db.subclass, id), ranks[db.objects[o].rank - 1], o)
  {
    hide Reach;
    var e := db.subclass;
    var cut := e - RowsOf(e, id);
    assert KeepsOthers(e, cut, id);
    forall o | IsClass(db, ranks, o) && o != id
      ensures Reach(cut, ranks[db.objects[o].rank - 1], o)
    {
      var top := ranks[db.objects[o].rank - 1];
      LeafAvoided(e, top, o, id);
      AvoidingSurvives(e, cut, top, o, id);
    }
  }

  lemma UpdateClassKeeps(db: Db, ranks: seq<Node>, id: Node, cls: Node)
    requires Ranked(db, ranks) && id in db.objects
    ensures Ranked(UpdateClass(db, id, cls).0, ranks)
  {
    hide Reach, AllMembership, Acyclic, SubclassesLevel, BelowRankClass;
    var after := UpdateClass(db, id, cls).0;
    SameLevels(db, after);
    SameBelow(db, after, ranks);
  }

  lemma SameBelow(db: Db, after: Db, ranks: seq<Node>)
    requires BelowRankClass(db, ranks) && after.subclass == db.subclass && after.objects.Keys == db.objects.Keys
    requires forall o :: o in db.objects ==> after.objects[o].rank == db.objects[o].rank
    ensures BelowRankClass(after, ranks)
  {
    hide Reach;
    forall o | IsClass(after, ranks, o) ensures Reach(after.subclass, ranks[after.objects[o].rank - 1], o) {
      assert IsClass(db, ranks, o);
    }
  }

  lemma SameLevels(db: Db, after: Db)
    requires SubclassesLevel(db) && after.subclass == db.subclass
    requires forall o :: o in db.objects ==> o in after.objects && after.objects[o].rank == db.objects[o].rank
    ensures SubclassesLevel(after)
  {
  }

  lemma CreateNewKeeps(db: Db, ranks: seq<Node>, id: Node, cls: Node)
    requires Ranked(db, ranks) && id !in db.objects && Create(db, ranks, id, Some(cls)).1 == 201
    ensures Ranked(Create(db, ranks, id, Some(cls)).0, ranks)
  {
    hide Reach, UpdateClass, Acyclic, BelowRankClass;
    var e, after := db.subclass, Create(db, ranks, id, Some(cls)).0;
    var rank := db.objects[cls].rank - 1;
    ReachMono(e, after.subclass);
    if rank >= 1 {
      NewcomerApart(db, id, ranks[rank - 1]);
      AcyclicAdd(e, ranks[rank - 1], id);
      ReachEdge(after.subclass, ranks[rank - 1], id);
    }
    CreatedBelow(db, after, ranks, id);
  }

  lemma NewcomerApart(db: Db, id: Node, top: Node)
    requires SubclassesLevel(db) && id !in db.objects && top in db.objects
    ensures !Reach(db.subclass, id, top)
  {
    hide Reach;
    if Reach(db.subclass, id, top) {
      FirstStep(db.subclass, id, top);
    }
  }

  lemma CreatedBelow(db: Db, after: Db, ranks: seq<Node>, id: Node)
    requires BelowRankClass(db, ranks) && id in after.objects && after.objects == db.objects[id := after.objects[id]]
    requires forall a, b :: Reach(db.subclass, a, b) ==> Reach(after.subclass, a, b)
    requires IsClass(after, ranks, id) ==> Reach(after.subclass, ranks[after.objects[id].rank - 1], id)
    ensures BelowRankClass(after, ranks)
  {
    hide Reach;
    forall o | IsClass(after, ranks, o) ensures Reach(after.subclass, ranks[after.objects[o].rank - 1], o) {
      assert o != id ==> IsClass(db, ranks, o);
    }
  }

  lemma DeleteKeeps(db: Db, ranks: seq<Node>, id: Node)
    requires Ranked(db, ranks) && Delete(db, ranks, id, false, false, false).1 == 204
    ensures Ranked(Delete(db, ranks, id, false, false, false).0, ranks)
  {
    hide Reach, Acyclic, BelowRankClass;
    var after := Delete(db, ranks, id, false, false, false).0;
    NoChildren(db, id);
    DeleteReaches(db, after, ranks, id);
    AcyclicMono(after.subclass, db.subclass);
  }

  lemma DeleteReaches(db: Db, after: Db, ranks: seq<Node>, id: Node)
    requires Ranked(db, ranks) && RankClasses(after, ranks) && forall x :: (id, x) !in db.subclass
    requires after.objects == db.objects - {id} && after.subclass == db.subclass - RowsOf(db.subclass, id)
    ensures BelowRankClass(after, ranks)
  {
    hide Reach, Acyclic;
    LeafGone(db, ranks, id);
    forall o | IsClass(after, ranks, o) ensures Reach(after.subclass, ranks[after.objects[o].rank - 1], o) {
      assert IsClass(db, ranks, o);
    }
  }

  /** A request keeps the rank structure if and only if it is admissible. */
  lemma HandleKeeps(db: Db, ranks: seq<Node>, q: Request)
    requires Ranked(db, ranks)
    ensures Ranked(Handle(db, ranks, q).0, ranks) <==> Admissible(db, ranks, q)
  {
    match q
    case AddMemberTo(c, o) =>
      hide Reach;
      RankedAfter(db, AddMember(db, c, o).0, ranks);
    case RemoveMemberFrom(c, o) =>
      hide Reach, AllMembership;
      RankedAfter(db, RemoveMember(db, c, o).0, ranks);
    case AddSubclassTo(c, o) =>
      hide Ranked;
      if AddSubclass(db, c, o).1 == 204 {
        AddSubclassKeeps(db, ranks, c, o);
      }
    case RemoveSubclassFrom(c, o) =>
      hide Ranked;
      if RemoveSubclass(db, ranks, c, o).1 == 204 {
        RemoveSubclassKeeps(db, ranks, c, o);
      }
    case RegisterAs(id, cls, rank) =>
      hide Ranked, ToFromIndividual, UpdateClass;
      if id in db.objects {
        RegisterKeeps(db, ranks, id, cls, rank);
      }
    case CreateIn(id, cls) =>
      hide Ranked, UpdateClass;
      if id in db.objects {
        if cls.Some? {
          UpdateClassKeeps(db, ranks, id, cls.value);
        }
      } else if Create(db, ranks, id, cls).1 == 201 {
        CreateNewKeeps(db, ranks, id, cls.value);
      }
    case DeleteObject(id, immutable, inUse, owns) =>
      hide Ranked;
      if Delete(db, ranks, id, immutable, inUse, owns).1 == 204 {
        DeleteKeeps(db, ranks, id);
      }
  }

  lemma RegisterKeeps(db: Db, ranks: seq<Node>, id: Node, cls: Node, rank: nat)
    requires Ranked(db, ranks) && id in db.objects
    ensures Ranked(Register(db, ranks, id, cls, rank).0, ranks) <==> Admissible(db, ranks, RegisterAs(id, cls, rank))
  {
    hide Ranked, UpdateClass;
    UpdateClassKeeps(db, ranks, id, cls);
    if db.objects[id].rank != rank && Register(db, ranks, id, cls, rank).1 == 204 {
      ToFromKeeps(db, ranks, id, cls, rank);
    }
  }

  /** So it holds after every run of admissible requests. */
  lemma {:induction false} RunKeeps(db: Db, ranks: seq<Node>, qs: seq<Request>)
    requires Ranked(db, ranks) && AllAdmissible(db, ranks, qs)
    ensures Ranked(HandleAll(db, ranks, qs), ranks)
    decreases qs
  {
    if qs != [] {
      HandleKeeps(db, ranks, qs[0]);
      RunKeeps(Handle(db, ranks, qs[0]).0, ranks, qs[1..]);
    }
  }

  /** A class without children can be made its own class, and then it is a member of itself. */
  lemma OwnClassBreaks(top: Node, individual: Node, k: Node)
    requires top != individual && individual != k && k != top
    ensures var ranks := [individual, top];
      var objects := map[top := Obj(None, 2), individual := Obj(Some(top), 1), k := Obj(Some(top), 1)];
      var db := Db(objects, {(top, individual), (top, k)}, {(individual, k)});
      && Ranked(db, ranks)
      && Register(db, ranks, k, k, 0).1 == 204
      && (k, k) in Register(db, ranks, k, k, 0).0.membership
      && !Ranked(Register(db, ranks, k, k, 0).0, ranks)
  {
    hide Reach;
    var ranks := [individual, top];
    var objects := map[top := Obj(None, 2), individual := Obj(Some(top), 1), k := Obj(Some(top), 1)];
    var db := Db(objects, {(top, individual), (top, k)}, {(individual, k)});
    var e := db.subclass;
    ReachEdge(e, individual, k);
    ReachSelf(e, individual);
    ReachSelf(e, top);
    if Reach(e, k, individual) {
      FirstStep(e, k, individual);
    }
    assert Ranked(db, ranks);
    ToFromKeeps(db, ranks, k, k, 0);
  }
}
