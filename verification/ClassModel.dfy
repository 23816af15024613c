/** The configuration database's model object: each request as the statements that it runs. */
module ClassModel {
  import opened Basics
  import opened Paths
  import opened ClassGraph

  class Model {
    const ranks: seq<Node>
    var objects: map<Node, Obj>
    var membership: set<Edge>
    var subclass: set<Edge>

    ghost function View(): Db
      reads this
    {
      Db(objects, membership, subclass)
    }

    constructor (db: Db, ranks: seq<Node>)
      ensures View() == db && this.ranks == ranks
    {
      this.ranks := ranks;
      objects, membership, subclass := db.objects, db.membership, db.subclass;
    }

    /** The view `all_subclass`, computed as its recursive query does. */
    method AllSubclassRows() returns (sc: set<Edge>)
      ensures forall a, b :: (a, b) in sc <==> AllSubclass(View(), a, b)
    {
      hide Reach, AllSubclass;
      var all := (set r | r in subclass :: r.0) + (set r | r in subclass :: r.1) + (set r | r in membership :: r.0);
      assert forall k :: k in all <==> InAllClass(View(), k);
      sc := set k | k in all :: (k, k);
      ghost var universe := set a, b | a in all && b in all :: (a, b);
      forall k | k in all ensures AllSubclass(View(), k, k) {
        AllSelf(View(), k);
      }
      while exists p, c :: p in sc && c in subclass && p.1 == c.0 && (p.0, c.1) !in sc
        invariant sc <= universe
        invariant forall a, b :: (a, b) in sc ==> AllSubclass(View(), a, b)
        invariant forall k :: k in all ==> (k, k) in sc
        decreases universe - sc
      {
        var p, c :| p in sc && c in subclass && p.1 == c.0 && (p.0, c.1) !in sc;
        AllExtend(View(), p.0, p.1, c.1);
        sc := sc + {(p.0, c.1)};
      }
      forall x, y, z | (x, y) in sc && (y, z) in subclass ensures (x, z) in sc {
        assert (x, y).1 == (y, z).0;
      }
      ClosedHasAll(View(), sc);
    }

    /** Is `o` a member of `c` or of a class below it? */
    method HasMember(c: Node, o: Node) returns (has: bool)
      ensures has == AllMembership(View(), c, o)
    {
      var sc := AllSubclassRows();
      has := exists r :: r in membership && r.1 == o && (c, r.0) in sc;
      if AllMembership(View(), c, o) {
        var d :| AllSubclass(View(), c, d) && (d, o) in membership;
        assert (d, o).1 == o && (c, (d, o).0) in sc;
      }
      if has {
        var r :| r in membership && r.1 == o && (c, r.0) in sc;
        assert AllSubclass(View(), c, r.0) && (r.0, o) in membership;
      }
    }

    method AddRankSuperclass(o: Node)
      requires o in objects
      modifies this`subclass
      ensures View() == WithRankSuperclass(old(View()), ranks, o)
    {
      var r := objects[o].rank;
      if 1 <= r <= |ranks| {
        subclass := subclass + {(ranks[r - 1], o)};
      }
    }

    method ClassAddMember(c: Node, o: Node) returns (st: int)
      modifies this`membership
      ensures (View(), st) == AddMember(old(View()), c, o)
    {
      if c !in objects || o !in objects {
        return 404;
      }
      if objects[c].rank != objects[o].rank + 1 {
        return 409;
      }
      membership := membership + {(c, o)};
      st := 204;
    }

    /** The row is removed first; the exception that may follow rolls this back. */
    method ClassRemoveMember(c: Node, o: Node) returns (st: int)
      modifies this`membership
      ensures (View(), st) == RemoveMember(old(View()), c, o)
    {
      if c !in objects || o !in objects {
        return 404;
      }
      var saved := membership;
      membership := membership - {(c, o)};
      var ok := false;
      if objects[o].cls.Some? {
        ok := HasMember(objects[o].cls.value, o);
      }
      if !ok {
        membership := saved;
        return 409;
      }
      st := 204;
    }

    method ClassAddSubclass(c: Node, o: Node) returns (st: int)
      modifies this`subclass
      ensures (View(), st) == AddSubclass(old(View()), c, o)
    {
      if c !in objects || o !in objects {
        return 404;
      }
      if objects[o].rank == 0 || objects[c].rank != objects[o].rank {
        return 409;
      }
      var sc := AllSubclassRows();
      subclass := set r | r in subclass && !(r.1 == o && (r.0, c) in sc);
      assert subclass == old(subclass) - Redundant(old(View()), c, o);
      subclass := subclass + {(c, o)};
      st := 204;
    }

    method ClassRemoveSubclass(c: Node, o: Node) returns (st: int)
      modifies this`subclass
      ensures (View(), st) == RemoveSubclass(old(View()), ranks, c, o)
    {
      if c !in objects || o !in objects || objects[o].rank == 0 {
        return 404;
      }
      subclass := subclass - {(c, o)};
      var ok := (exists r :: r in subclass && r.1 == o) || o in ranks;
      if !ok {
        AddRankSuperclass(o);
      }
      st := 204;
    }

    method ChangeClass(id: Node, cls: Node) returns (st: int)
      requires id in objects
      modifies this`membership, this`objects
      ensures (View(), st) == UpdateClass(old(View()), id, cls)
    {
      var rank := objects[id].rank;
      if cls !in objects || objects[cls].rank != rank + 1 {
        return 409;
      }
      var has := HasMember(cls, id);
      if !has {
        membership := membership + {(cls, id)};
      }
      assert membership == old(membership) + if has then {} else {(cls, id)};
      objects := objects[id := Obj(Some(cls), rank)];
      st := 204;
    }

    method ChangeRank(id: Node, cls: Node, rank: nat) returns (st: int)
      requires id in objects
      modifies this
      ensures (View(), st) == ToFromIndividual(old(View()), ranks, id, cls, rank)
    {
      if cls !in objects || objects[cls].rank != rank + 1 {
        return 409;
      }
      if rank == 0 && exists r :: r in membership + subclass && r.0 == id {
        return 409;
      }
      membership := set r | r in membership && r.1 != id;
      subclass := set r | r in subclass && r.1 != id;
      membership := membership + {(cls, id)};
      objects := objects[id := Obj(Some(cls), rank)];
      assert membership == old(membership) - RowsOf(old(membership), id) + {(cls, id)};
      assert subclass == old(subclass) - RowsOf(old(subclass), id);
      AddRankSuperclass(id);
      st := 204;
    }

    method UpdateRegistration(id: Node, cls: Node, rank: nat) returns (st: int)
      modifies this
      ensures (View(), st) == Register(old(View()), ranks, id, cls, rank)
    {
      if id !in objects {
        return 404;
      }
      if objects[id].rank != rank {
        if objects[id].rank == 0 || rank == 0 {
          st := ChangeRank(id, cls, rank);
        } else {
          st := 409;
        }
      } else if objects[id].cls != Some(cls) {
        st := ChangeClass(id, cls);
      } else {
        st := 204;
      }
    }

    method ObjectCreate(id: Node, cls: Option<Node>) returns (st: int)
      modifies this
      ensures (View(), st) == Create(old(View()), ranks, id, cls)
    {
      if id in objects {
        if cls.None? || objects[id].cls == cls {
          return 200;
        }
        st := ChangeClass(id, cls.value);
        if st == 204 {
          st := 200;
        }
        return;
      }
      if cls.None? {
        return 422;
      }
      if cls.value !in objects {
        return 409;
      }
      if objects[cls.value].rank == 0 {
        return 500;
      }
      objects := objects[id := Obj(cls, objects[cls.value].rank - 1)];
      membership := membership + {(cls.value, id)};
      AddRankSuperclass(id);
      st := 201;
    }

    method ObjectDelete(id: Node, immutable: bool, inUse: bool, owns: bool) returns (st: int)
      modifies this
      ensures (View(), st) == Delete(old(View()), ranks, id, immutable, inUse, owns)
    {
      if immutable {
        return 405;
      }
      if id !in objects {
        return 404;
      }
      var members := set r | r in membership && r.0 == id;
      if members != {} {
        assert HasChildren(View(), id) by {
          var r :| r in members;
          assert r in membership + subclass && r.0 == id;
        }
        return 409;
      }
      var subclasses := set r | r in subclass && r.0 == id;
      if subclasses != {} {
        assert HasChildren(View(), id) by {
          var r :| r in subclasses;
          assert r in membership + subclass && r.0 == id;
        }
        return 409;
      }
      assert !HasChildren(View(), id) by {
        forall r | r in membership + subclass ensures r.0 != id {
          assert r !in members && r !in subclasses;
        }
      }
      if inUse {
        return 409;
      }
      if id in ranks || owns || exists o :: o in objects && o != id && objects[o].cls == Some(id) {
        return 500;
      }
      objects := objects - {id};
      membership := set r | r in membership && r.1 != id;
      subclass := set r | r in subclass && r.1 != id;
      assert membership == old(membership) - RowsOf(old(membership), id);
      assert subclass == old(subclass) - RowsOf(old(subclass), id);
      st := 204;
    }

    method Serve(q: Request) returns (st: int)
      modifies this
      ensures (View(), st) == Handle(old(View()), ranks, q)
    {
      match q
      case AddMemberTo(c, o) => st := ClassAddMember(c, o);
      case RemoveMemberFrom(c, o) => st := ClassRemoveMember(c, o);
      case AddSubclassTo(c, o) => st := ClassAddSubclass(c, o);
      case RemoveSubclassFrom(c, o) => st := ClassRemoveSubclass(c, o);
      case RegisterAs(id, cls, rank) => st := UpdateRegistration(id, cls, rank);
      case CreateIn(id, cls) => st := ObjectCreate(id, cls);
      case DeleteObject(id, immutable, inUse, owns) => st := ObjectDelete(id, immutable, inUse, owns);
    }

    /** Any run of requests; the rank structure is kept as long as they are admissible. */
    method Run(qs: seq<Request>)
      modifies this
      ensures View() == HandleAll(old(View()), ranks, qs)
      ensures old(Ranked(View(), ranks) && AllAdmissible(View(), ranks, qs)) ==> Ranked(View(), ranks)
    {
      hide Handle, Ranked, Admissible;
      ghost var start := View();
      for i := 0 to |qs|
        invariant HandleAll(View(), ranks, qs[i..]) == HandleAll(start, ranks, qs)
      {
        assert qs[i..][0] == qs[i] && qs[i..][1..] == qs[i + 1..];
        var st := Serve(qs[i]);
      }
      if Ranked(start, ranks) && AllAdmissible(start, ranks, qs) {
        RunKeeps(start, ranks, qs);
      }
    }
  }

  lemma AllSelf(db: Db, k: Node)
    requires InAllClass(db, k)
    ensures AllSubclass(db, k, k)
  {
    ReachSelf(db.subclass, k);
  }

  lemma AllExtend(db: Db, a: Node, b: Node, c: Node)
    requires AllSubclass(db, a, b) && (b, c) in db.subclass
    ensures AllSubclass(db, a, c)
  {
    ReachEdge(db.subclass, b, c);
    ReachTrans(db.subclass, a, b, c);
  }

  lemma ClosedHasAll(db: Db, sc: set<Edge>)
    requires forall k :: InAllClass(db, k) ==> (k, k) in sc
    requires forall x, y, z :: (x, y) in sc && (y, z) in db.subclass ==> (x, z) in sc
    ensures forall a, b :: AllSubclass(db, a, b) ==> (a, b) in sc
  {
    hide InAllClass;
    forall a, b | AllSubclass(db, a, b) ensures (a, b) in sc {
      var p :| Leads(db.subclass, p, a, b);
      ClosedHasPath(db.subclass, sc, p, a, b);
    }
  }

  /** A set of rows that is closed under following an edge contains the end of every path from its rows. */
  lemma {:induction false} ClosedHasPath(e: set<Edge>, sc: set<Edge>, p: seq<Node>, a: Node, b: Node)
    requires Leads(e, p, a, b) && (a, a) in sc
    requires forall x, y, z :: (x, y) in sc && (y, z) in e ==> (x, z) in sc
    ensures (a, b) in sc
    decreases |p|
  {
    if |p| > 1 {
      LeadsCut(e, p, a, b, |p| - 2);
      ClosedHasPath(e, sc, p[..|p| - 1], a, p[|p| - 2]);
      assert (p[|p| - 2], p[|p| - 1]) in e;
    }
  }
}
