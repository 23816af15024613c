/** Who is a member and a subclass of what after each request, and how each is answered. */
module ClassMembers {
  import opened Basics
  import opened Paths
  import opened ClassGraph

  /** `k` is above `d` by subclass rows. */
  ghost predicate Above(db: Db, k: Node, d: Node) {
    Reach(db.subclass, k, d)
  }

  // ---- Members ----

  lemma MemberBy(db: Db, k: Node, d: Node, m: Node)
    requires Reach(db.subclass, k, d) && (d, m) in db.membership
    ensures AllMembership(db, k, m)
  {
    MembershipIs(db, k, m);
  }

  lemma MemberOf(db: Db, k: Node, m: Node) returns (d: Node)
    requires AllMembership(db, k, m)
    ensures Reach(db.subclass, k, d) && (d, m) in db.membership
  {
    MembershipIs(db, k, m);
    d :| Reach(db.subclass, k, d) && (d, m) in db.membership;
  }

  /** The subclass rows are the same and one membership row is new: it counts for every class above its class. */
  lemma OneMoreMember(db: Db, after: Db, c: Node, o: Node, k: Node, m: Node)
    requires after.subclass == db.subclass && after.membership == db.membership + {(c, o)}
    ensures AllMembership(after, k, m) <==> AllMembership(db, k, m) || (m == o && Above(db, k, c))
  {
    hide Reach, AllMembership;
    if AllMembership(after, k, m) {
      var d := MemberOf(after, k, m);
      if (d, m) in db.membership {
        MemberBy(db, k, d, m);
      }
    }
    if AllMembership(db, k, m) {
      var d := MemberOf(db, k, m);
      MemberBy(after, k, d, m);
    }
    if m == o && Above(db, k, c) {
      MemberBy(after, k, c, o);
    }
  }

  /** The object becomes a member of the class and of all classes above it, and nothing else changes. */
  lemma AddMemberMembers(db: Db, c: Node, o: Node, k: Node, m: Node)
    requires AddMember(db, c, o).1 == 204
    ensures var after := AddMember(db, c, o).0;
      && after.objects == db.objects && after.subclass == db.subclass
      && (AllMembership(after, k, m) <==> AllMembership(db, k, m) || (m == o && Above(db, k, c)))
  {
    OneMoreMember(db, AddMember(db, c, o).0, c, o, k, m);
  }

  /** Members are those that some other row makes so; the object stays a member of its primary class. */
  lemma RemoveMemberMembers(db: Db, c: Node, o: Node, k: Node, m: Node)
    requires RemoveMember(db, c, o).1 == 204
    ensures var after := RemoveMember(db, c, o).0;
      && after.objects == db.objects && after.subclass == db.subclass
      && (AllMembership(after, k, m) <==>
          exists d :: Above(db, k, d) && (d, m) in db.membership && (d != c || m != o))
      && db.objects[o].cls.Some? && AllMembership(after, db.objects[o].cls.value, o)
  {
    hide Reach, AllMembership;
    var after := RemoveMember(db, c, o).0;
    if AllMembership(after, k, m) {
      var d := MemberOf(after, k, m);
      assert Above(db, k, d) && (d, m) in db.membership && (d != c || m != o);
    }
    if d :| Above(db, k, d) && (d, m) in db.membership && (d != c || m != o) {
      MemberBy(after, k, d, m);
    }
  }

  /** If there is a way around, the members of `o`, and no others, become members of `c` and of all above it. */
  lemma AddSubclassTransfers(db: Db, c: Node, o: Node, k: Node, m: Node)
    requires AddSubclass(db, c, o).1 == 204 && WayAround(db.subclass, c, o)
    ensures var after := AddSubclass(db, c, o).0;
      && after.objects == db.objects && after.membership == db.membership
      && (AllMembership(after, k, m) <==> AllMembership(db, k, m) || (Above(db, k, c) && AllMembership(db, o, m)))
  {
    hide Reach, AllMembership, Redundant;
    var e, f := db.subclass, db.subclass + {(c, o)};
    var full := db.(subclass := f);
    AddSubclassMembers(db, c, o, k, m);
    ReachMono(e, f);
    if AllMembership(full, k, m) {
      var d := MemberOf(full, k, m);
      ThroughNewEdge(e, c, o, k, d);
      if Reach(e, k, d) {
        MemberBy(db, k, d, m);
      } else {
        MemberBy(db, o, d, m);
      }
    }
    if AllMembership(db, k, m) {
      var d := MemberOf(db, k, m);
      MemberBy(full, k, d, m);
    }
    if Above(db, k, c) && AllMembership(db, o, m) {
      var d := MemberOf(db, o, m);
      ReachEdge(f, c, o);
      ReachTrans(f, k, c, o);
      ReachTrans(f, k, o, d);
      MemberBy(full, k, d, m);
    }
  }

  /** Whether or not there is a way around: the row is added, and the rows to `o` from `c` and what is above `c` go. */
  lemma AddSubclassRows(db: Db, c: Node, o: Node, x: Node, y: Node)
    requires AddSubclass(db, c, o).1 == 204
    ensures (x, y) in AddSubclass(db, c, o).0.subclass <==>
      (x, y) == (c, o) || ((x, y) in db.subclass && (y != o || !Above(db, x, c)))
  {
    hide Reach;
    RedundantIs(db, c, o, x);
  }

  /** The view of subclasses: what is reached by rows, and each class in any row with itself. */
  lemma SubclassView(db: Db, k: Node, d: Node)
    ensures AllSubclass(db, k, d) <==>
      if k == d then exists x :: (k, x) in db.subclass || (x, k) in db.subclass || (k, x) in db.membership
      else Above(db, k, d)
  {
    hide Reach;
    ReachSelf(db.subclass, k);
    if x :| (k, x) in db.subclass || (x, k) in db.subclass || (k, x) in db.membership {
      assert (k, x).0 == k && (x, k).1 == k;
    }
    if InAllClass(db, k) {
      if r :| r in db.subclass && (r.0 == k || r.1 == k) {
        assert r == (r.0, r.1);
      } else {
        var r :| r in db.membership && r.0 == k;
        assert r == (r.0, r.1);
      }
    }
    if k != d && Above(db, k, d) {
      FirstStep(db.subclass, k, d);
      var x :| (k, x) in db.subclass;
      assert (k, x).0 == k;
    }
  }

  /** Is `m` a member of `k` by the other subclass rows alone? */
  ghost predicate MemberWithout(db: Db, c: Node, o: Node, k: Node, m: Node) {
    AllMembership(db.(subclass := db.subclass - {(c, o)}), k, m)
  }

  /** Memberships that need the row go, but for those through the rank class if nothing else is left above `o`. */
  lemma RemoveSubclassMembers(db: Db, ranks: seq<Node>, c: Node, o: Node, k: Node, m: Node)
    requires Ranked(db, ranks) && RemoveSubclass(db, ranks, c, o).1 == 204
    ensures var after, top := RemoveSubclass(db, ranks, c, o).0, ranks[db.objects[o].rank - 1];
      && after.objects == db.objects && after.membership == db.membership
      && (AllMembership(after, k, m) <==>
          MemberWithout(db, c, o, k, m) ||
          (k == top && o !in ranks && (forall x :: (x, o) in db.subclass ==> x == c) && MemberWithout(db, c, o, o, m)))
  {
    hide Reach, AllMembership, RemoveSubclass, Acyclic;
    RemoveSubclassIs(db, ranks, c, o);
    var after, top := RemoveSubclass(db, ranks, c, o).0, ranks[db.objects[o].rank - 1];
    var cut := db.(subclass := db.subclass - {(c, o)});
    OwnRankClass(db, ranks, o);
    OwnRankClass(db, ranks, top);
    LeftAlone(db, ranks, c, o);
    if after.subclass != cut.subclass {
      ReachMono(cut.subclass, after.subclass);
      if AllMembership(after, k, m) {
        var d := MemberOf(after, k, m);
        ThroughNewEdge(cut.subclass, top, o, k, d);
        if Reach(cut.subclass, k, d) {
          MemberBy(cut, k, d, m);
        } else {
          MemberBy(cut, o, d, m);
          NothingAboveTop(db, ranks, cut.subclass, k, top);
        }
      }
      if AllMembership(cut, k, m) {
        var d := MemberOf(cut, k, m);
        MemberBy(after, k, d, m);
      }
      if AllMembership(cut, o, m) {
        var d := MemberOf(cut, o, m);
        ReachEdge(after.subclass, top, o);
        ReachTrans(after.subclass, top, o, d);
        MemberBy(after, top, d, m);
      }
    } else {
      assert after == cut;
    }
  }

  /** The rank class is put above an object exactly if nothing else is left there. */
  lemma LeftAlone(db: Db, ranks: seq<Node>, c: Node, o: Node)
    requires Ranked(db, ranks) && RemoveSubclass(db, ranks, c, o).1 == 204
    ensures var cut, after := db.subclass - {(c, o)}, RemoveSubclass(db, ranks, c, o).0.subclass;
      if o !in ranks && (forall x :: (x, o) in db.subclass ==> x == c)
      then after == cut + {(ranks[db.objects[o].rank - 1], o)} else after == cut
  {
    hide Reach, Acyclic, BelowRankClass;
    var after := db.subclass - {(c, o)};
    if x :| (x, o) in db.subclass && x != c {
      assert (x, o) in after && (x, o).1 == o;
    }
  }

  lemma NothingAboveTop(db: Db, ranks: seq<Node>, cut: set<Edge>, k: Node, top: Node)
    requires Ranked(db, ranks) && cut <= db.subclass && top in ranks && Reach(cut, k, top)
    ensures k == top
  {
    hide Reach;
    var d :| 0 <= d < |ranks| && ranks[d] == top;
    OwnRankClass(db, ranks, top);
    if k != top {
      LastStep(cut, k, top);
    }
  }

  /** The object becomes a member of its new primary class, by a row of its own only if it was none before. */
  lemma UpdateClassMembers(db: Db, id: Node, cls: Node, k: Node, m: Node)
    requires id in db.objects && UpdateClass(db, id, cls).1 == 204
    ensures var after := UpdateClass(db, id, cls).0;
      && after.objects == db.objects[id := Obj(Some(cls), db.objects[id].rank)] && after.subclass == db.subclass
      && (AllMembership(after, k, m) <==> AllMembership(db, k, m) || (m == id && Above(db, k, cls)))
      && AllMembership(after, cls, id)
      && (after.membership == db.membership <==> AllMembership(db, cls, id))
  {
    hide Reach, AllMembership;
    var after := UpdateClass(db, id, cls).0;
    ReachSelf(db.subclass, cls);
    if AllMembership(db, cls, id) {
      SameMembers(db, after, k, m);
      SameMembers(db, after, cls, id);
      if m == id && Above(db, k, cls) {
        var d := MemberOf(db, cls, id);
        ReachTrans(db.subclass, k, cls, d);
        MemberBy(db, k, d, m);
      }
    } else {
      assert (cls, id) !in db.membership by {
        if (cls, id) in db.membership {
          MemberBy(db, cls, cls, id);
        }
      }
      OneMoreMember(db, after, cls, id, k, m);
      OneMoreMember(db, after, cls, id, cls, id);
    }
  }

  lemma SameMembers(db: Db, after: Db, k: Node, m: Node)
    requires after.subclass == db.subclass && after.membership == db.membership
    ensures AllMembership(after, k, m) <==> AllMembership(db, k, m)
  {
    MembershipIs(db, k, m);
    MembershipIs(after, k, m);
  }

  /** What the rows of an object without children say is replaced; it can only be below or in what the request names. */
  lemma Rehung(db: Db, after: Db, id: Node, cls: Node, above: set<Edge>, k: Node, m: Node)
    requires (forall x :: (id, x) !in db.subclass && (id, x) !in db.membership) && cls != id
    requires forall e :: e in above ==> e.1 == id && e.0 != id
    requires after.membership == db.membership - RowsOf(db.membership, id) + {(cls, id)}
    requires after.subclass == db.subclass - RowsOf(db.subclass, id) + above
    ensures AllMembership(after, k, m) <==> if m == id then Above(db, k, cls) else AllMembership(db, k, m)
  {
    hide Reach, AllMembership;
    var e, f := db.subclass, after.subclass;
    assert KeepsOthers(e, f, id) && KeepsOthers(f, e, id);
    forall x ensures (id, x) !in f {
      assert (id, x) in above ==> (id, x).0 == id;
    }
    if AllMembership(after, k, m) {
      var d := MemberOf(after, k, m);
      assert d != id;
      LeafAvoided(f, k, d, id);
      AvoidingSurvives(f, e, k, d, id);
      if m != id {
        MemberBy(db, k, d, m);
      }
    }
    if m == id && Above(db, k, cls) {
      LeafAvoided(e, k, cls, id);
      AvoidingSurvives(e, f, k, cls, id);
      MemberBy(after, k, cls, id);
    }
    if m != id && AllMembership(db, k, m) {
      var d := MemberOf(db, k, m);
      assert d != id;
      LeafAvoided(e, k, d, id);
      AvoidingSurvives(e, f, k, d, id);
      MemberBy(after, k, d, m);
    }
  }

  /** In the rank structure an individual has no children. */
  lemma IndividualLeaf(db: Db, id: Node)
    requires MembersBelow(db) && SubclassesLevel(db) && id in db.objects && db.objects[id].rank == 0
    ensures forall x :: (id, x) !in db.subclass && (id, x) !in db.membership
  {
  }

  lemma WithRankSuperclassIs(db: Db, ranks: seq<Node>, o: Node)
    requires o in db.objects
    ensures WithRankSuperclass(db, ranks, o) == db.(subclass := db.subclass +
              if 1 <= db.objects[o].rank <= |ranks| then {(ranks[db.objects[o].rank - 1], o)} else {})
  {
  }

  /** After a change to or from an individual the object is in its new class and above that, and nowhere else. */
  lemma ToFromMembers(db: Db, ranks: seq<Node>, id: Node, cls: Node, rank: nat, k: Node, m: Node)
    requires Ranked(db, ranks) && id in db.objects && id != cls && id !in ranks
    requires db.objects[id].rank == 0 || rank == 0
    requires ToFromIndividual(db, ranks, id, cls, rank).1 == 204
    ensures var after := ToFromIndividual(db, ranks, id, cls, rank).0;
      && after.objects == db.objects[id := Obj(Some(cls), rank)]
      && (AllMembership(after, k, m) <==> if m == id then Above(db, k, cls) else AllMembership(db, k, m))
      && (forall x :: (x, id) in after.subclass <==> 1 <= rank && x == ranks[rank - 1])
      && (forall x, y :: y != id ==> ((x, y) in after.subclass <==> (x, y) in db.subclass))
  {
    hide Reach, AllMembership, BelowRankClass, Acyclic;
    var after := ToFromIndividual(db, ranks, id, cls, rank).0;
    var moved := Db(db.objects[id := Obj(Some(cls), rank)],
                    db.membership - RowsOf(db.membership, id) + {(cls, id)}, db.subclass - RowsOf(db.subclass, id));
    WithRankSuperclassIs(moved, ranks, id);
    assert rank <= |ranks|;
    var above := if 1 <= rank then {(ranks[rank - 1], id)} else {};
    if rank == 0 && db.objects[id].rank != 0 {
      NoChildren(db, id);
    } else if db.objects[id].rank == 0 {
      IndividualLeaf(db, id);
    } else {
      assert false;
    }
    Rehung(db, after, id, cls, above, k, m);
  }

  /** A new object is in its class and what is above that. */
  lemma CreateMembers(db: Db, ranks: seq<Node>, id: Node, cls: Node, k: Node, m: Node)
    requires Ranked(db, ranks) && id !in db.objects && Create(db, ranks, id, Some(cls)).1 == 201
    ensures var after, rank := Create(db, ranks, id, Some(cls)).0, db.objects[cls].rank - 1;
      && after.objects == db.objects[id := Obj(Some(cls), rank)]
      && (AllMembership(after, k, m) <==> if m == id then Above(db, k, cls) else AllMembership(db, k, m))
      && (forall x :: (x, id) in after.subclass <==> 1 <= rank && x == ranks[rank - 1])
      && (forall x, y :: y != id ==> ((x, y) in after.subclass <==> (x, y) in db.subclass))
  {
    hide Reach, AllMembership, BelowRankClass, Acyclic, UpdateClass;
    var after, rank := Create(db, ranks, id, Some(cls)).0, db.objects[cls].rank - 1;
    WithRankSuperclassIs(db.(objects := db.objects[id := Obj(Some(cls), rank)],
                             membership := db.membership + {(cls, id)}), ranks, id);
    NotInTables(db, id);
    assert RowsOf(db.membership, id) == {} && RowsOf(db.subclass, id) == {};
    Rehung(db, after, id, cls, if 1 <= rank then {(ranks[rank - 1], id)} else {}, k, m);
  }

  lemma NotInTables(db: Db, id: Node)
    requires MembersBelow(db) && SubclassesLevel(db) && id !in db.objects
    ensures forall r :: r in db.membership + db.subclass ==> r.0 != id && r.1 != id
  {
    forall r | r in db.membership + db.subclass ensures r.0 != id && r.1 != id {
      assert (r.0, r.1) == r;
    }
  }

  /** A deleted object is a member of nothing; all others are where they were. */
  lemma DeleteMembers(db: Db, ranks: seq<Node>, id: Node, k: Node, m: Node)
    requires Delete(db, ranks, id, false, false, false).1 == 204
    ensures var after := Delete(db, ranks, id, false, false, false).0;
      && after.objects == db.objects - {id}
      && (AllMembership(after, k, m) <==> m != id && AllMembership(db, k, m))
      && (forall x :: (x, id) !in after.subclass && (x, id) !in after.membership)
  {
    hide Reach, AllMembership;
    var after := Delete(db, ranks, id, false, false, false).0;
    var e, f := db.subclass, after.subclass;
    NoChildren(db, id);
    assert KeepsOthers(e, f, id);
    ReachMono(f, e);
    if AllMembership(after, k, m) {
      var d := MemberOf(after, k, m);
      MemberBy(db, k, d, m);
    }
    if m != id && AllMembership(db, k, m) {
      var d := MemberOf(db, k, m);
      LeafAvoided(e, k, d, id);
      AvoidingSurvives(e, f, k, d, id);
      MemberBy(after, k, d, m);
    }
  }

  /** A registration gives the object the class and the rank that it names, and the memberships that go with them. */
  lemma RegisterMembers(db: Db, ranks: seq<Node>, id: Node, cls: Node, rank: nat, k: Node, m: Node)
    requires Register(db, ranks, id, cls, rank).1 == 204
    ensures var after, was := Register(db, ranks, id, cls, rank).0, db.objects[id];
      && after.objects == db.objects[id := Obj(Some(cls), rank)]
      && (was == Obj(Some(cls), rank) ==> after == db)
      && (was.rank == rank && was.cls != Some(cls) ==>
            && after.subclass == db.subclass
            && (AllMembership(after, k, m) <==> AllMembership(db, k, m) || (m == id && Above(db, k, cls))))
      && (was.rank != rank && Ranked(db, ranks) && id != cls && id !in ranks ==>
            && (AllMembership(after, k, m) <==> if m == id then Above(db, k, cls) else AllMembership(db, k, m))
            && (forall x :: (x, id) in after.subclass <==> 1 <= rank && x == ranks[rank - 1]))
  {
    hide AllMembership, Reach, Ranked, UpdateClass, ToFromIndividual;
    var was := db.objects[id];
    if was.rank == rank && was.cls != Some(cls) {
      UpdateClassMembers(db, id, cls, k, m);
    } else if was.rank != rank {
      ToFromObjects(db, ranks, id, cls, rank);
      if Ranked(db, ranks) && id != cls && id !in ranks {
        ToFromMembers(db, ranks, id, cls, rank, k, m);
      }
    } else {
      assert db.objects[id := was] == db.objects;
    }
  }

  lemma ToFromObjects(db: Db, ranks: seq<Node>, id: Node, cls: Node, rank: nat)
    requires id in db.objects && ToFromIndividual(db, ranks, id, cls, rank).1 == 204
    ensures ToFromIndividual(db, ranks, id, cls, rank).0.objects == db.objects[id := Obj(Some(cls), rank)]
  {
  }

  /** Creating an object that exists gives it the class that is named, if any. */
  lemma CreateExisting(db: Db, ranks: seq<Node>, id: Node, cls: Option<Node>, k: Node, m: Node)
    requires id in db.objects && Create(db, ranks, id, cls).1 == 200
    ensures var after, was := Create(db, ranks, id, cls).0, db.objects[id];
      if cls.None? || was.cls == cls then after == db
      else
        && after.objects == db.objects[id := Obj(cls, was.rank)] && after.subclass == db.subclass
        && (AllMembership(after, k, m) <==> AllMembership(db, k, m) || (m == id && Above(db, k, cls.value)))
  {
    hide AllMembership, Reach;
    if cls.Some? && db.objects[id].cls != cls {
      UpdateClassMembers(db, id, cls.value, k, m);
    }
  }

  // ---- Answers ----

  /** What a request must find for it to be carried out. */
  ghost predicate Accepted(db: Db, ranks: seq<Node>, q: Request) {
    match q
    case AddMemberTo(c, o) =>
      c in db.objects && o in db.objects && db.objects[c].rank == db.objects[o].rank + 1
    case RemoveMemberFrom(c, o) =>
      && c in db.objects && o in db.objects && db.objects[o].cls.Some?
      && exists d :: Above(db, db.objects[o].cls.value, d) && (d, o) in db.membership && d != c
    case AddSubclassTo(c, o) =>
      c in db.objects && o in db.objects && db.objects[c].rank == db.objects[o].rank >= 1
    case RemoveSubclassFrom(c, o) =>
      c in db.objects && o in db.objects && db.objects[o].rank >= 1
    case RegisterAs(id, cls, rank) =>
      && id in db.objects
      && (db.objects[id] == Obj(Some(cls), rank) || (cls in db.objects && db.objects[cls].rank == rank + 1))
      && (db.objects[id].rank != rank ==>
            (db.objects[id].rank == 0 || rank == 0) &&
            (rank == 0 ==> forall x :: (id, x) !in db.membership && (id, x) !in db.subclass))
    case CreateIn(id, cls) =>
      if id in db.objects
      then cls.Some? && db.objects[id].cls != cls ==>
             cls.value in db.objects && db.objects[cls.value].rank == db.objects[id].rank + 1
      else cls.Some? && cls.value in db.objects && db.objects[cls.value].rank >= 1
    case DeleteObject(id, immutable, inUse, owns) =>
      && id in db.objects && !immutable && !inUse && !owns && id !in ranks
      && (forall x :: (id, x) !in db.membership && (id, x) !in db.subclass)
      && (forall o :: o in db.objects && o != id ==> db.objects[o].cls != Some(id))
  }

  /** How a request that is not carried out is answered. */
  predicate Refusal(db: Db, ranks: seq<Node>, q: Request, status: int) {
    match q
    case AddMemberTo(c, o) => status == if c in db.objects && o in db.objects then 409 else 404
    case RemoveMemberFrom(c, o) => status == if c in db.objects && o in db.objects then 409 else 404
    case AddSubclassTo(c, o) => status == if c in db.objects && o in db.objects then 409 else 404
    case RemoveSubclassFrom(c, o) => status == 404
    case RegisterAs(id, cls, rank) => status == if id in db.objects then 409 else 404
    case CreateIn(id, cls) =>
      status == if id in db.objects then 409 else if cls.None? then 422
                else if cls.value in db.objects then 500 else 409
    case DeleteObject(id, immutable, inUse, owns) =>
      if immutable then status == 405
      else if id !in db.objects then status == 404
      else if HasChildren(db, id) || inUse then status == 409
      else status == 500
  }

  lemma ChildrenAre(db: Db, id: Node)
    ensures HasChildren(db, id) <==> exists x :: (id, x) in db.membership || (id, x) in db.subclass
  {
    if r :| r in db.membership + db.subclass && r.0 == id {
      assert (id, r.1) == r;
    }
    if x :| (id, x) in db.membership || (id, x) in db.subclass {
      assert (id, x).0 == id;
    }
  }

  /** A request is carried out exactly if it finds that, and otherwise changes nothing and says why. */
  lemma Answers(db: Db, ranks: seq<Node>, q: Request)
    ensures var r := Handle(db, ranks, q);
      && (Accepted(db, ranks, q) <==> r.1 in {200, 201, 204})
      && (Accepted(db, ranks, q) ==>
            r.1 == if !q.CreateIn? then 204 else if q.id in db.objects then 200 else 201)
      && (!Accepted(db, ranks, q) ==> r.0 == db && Refusal(db, ranks, q, r.1))
  {
    hide AllMembership, Reach, WithRankSuperclass, RowsOf, Redundant;
    match q
    case RemoveMemberFrom(c, o) =>
      if c in db.objects && o in db.objects && db.objects[o].cls.Some? {
        var cls, after := db.objects[o].cls.value, db.(membership := db.membership - {(c, o)});
        if AllMembership(after, cls, o) {
          var d := MemberOf(after, cls, o);
          assert Above(db, cls, d) && (d, o) in db.membership && d != c;
        }
        if d :| Above(db, cls, d) && (d, o) in db.membership && d != c {
          MemberBy(after, cls, d, o);
        }
      }
    case RegisterAs(id, cls, rank) =>
      ChildrenAre(db, id);
    case DeleteObject(id, immutable, inUse, owns) =>
      ChildrenAre(db, id);
    case _ =>
  }
}
