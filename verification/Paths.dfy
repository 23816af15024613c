/** Paths in a directed graph given as a set of edges. */
module Paths {

  type Node = string

  type Edge = (Node, Node)

  ghost predicate IsPath(e: set<Edge>, p: seq<Node>) {
    p != [] && forall i :: 0 <= i < |p| - 1 ==> (p[i], p[i + 1]) in e
  }

  ghost predicate Leads(e: set<Edge>, p: seq<Node>, a: Node, b: Node) {
    IsPath(e, p) && p[0] == a && p[|p| - 1] == b
  }

  /** `b` is `a` or below it: the reflexive transitive closure of the edges. */
  ghost predicate Reach(e: set<Edge>, a: Node, b: Node) {
    exists p :: Leads(e, p, a, b)
  }

  ghost predicate ReachAvoiding(e: set<Edge>, a: Node, b: Node, o: Node) {
    exists p :: Leads(e, p, a, b) && o !in p
  }

  ghost predicate Acyclic(e: set<Edge>) {
    forall a, b {:trigger (a, b) in e} :: (a, b) in e ==> !Reach(e, b, a)
  }

  lemma ReachSelf(e: set<Edge>, a: Node)
    ensures Reach(e, a, a)
  {
    assert Leads(e, [a], a, a);
  }

  lemma ReachEdge(e: set<Edge>, a: Node, b: Node)
    requires (a, b) in e
    ensures Reach(e, a, b)
  {
    assert Leads(e, [a, b], a, b);
  }

  lemma LeadsTrans(e: set<Edge>, p: seq<Node>, q: seq<Node>, a: Node, b: Node, c: Node)
    requires Leads(e, p, a, b) && Leads(e, q, b, c)
    ensures Leads(e, p + q[1..], a, c)
  {
    var r := p + q[1..];
    forall i | 0 <= i < |r| - 1 ensures (r[i], r[i + 1]) in e {
      if i >= |p| - 1 {
        assert r[i] == q[i - |p| + 1] && r[i + 1] == q[i - |p| + 2];
      }
    }
  }

  lemma ReachTrans(e: set<Edge>, a: Node, b: Node, c: Node)
    requires Reach(e, a, b) && Reach(e, b, c)
    ensures Reach(e, a, c)
  {
    var p :| Leads(e, p, a, b);
    var q :| Leads(e, q, b, c);
    LeadsTrans(e, p, q, a, b, c);
  }

  lemma LeadsCut(e: set<Edge>, p: seq<Node>, a: Node, b: Node, i: nat)
    requires Leads(e, p, a, b) && i < |p|
    ensures Leads(e, p[..i + 1], a, p[i]) && Leads(e, p[i..], p[i], b)
  {
  }

  lemma ReachMono(e: set<Edge>, f: set<Edge>)
    requires e <= f
    ensures forall a, b :: Reach(e, a, b) ==> Reach(f, a, b)
  {
    forall a, b | Reach(e, a, b) ensures Reach(f, a, b) {
      var p :| Leads(e, p, a, b);
      assert Leads(f, p, a, b);
    }
  }

  lemma FirstStep(e: set<Edge>, a: Node, b: Node)
    requires Reach(e, a, b) && a != b
    ensures exists x :: (a, x) in e && Reach(e, x, b)
  {
    var p :| Leads(e, p, a, b);
    LeadsCut(e, p, a, b, 1);
    assert (p[0], p[1]) in e;
  }

  lemma LastStep(e: set<Edge>, a: Node, b: Node)
    requires Reach(e, a, b) && a != b
    ensures exists x :: Reach(e, a, x) && (x, b) in e
  {
    var p :| Leads(e, p, a, b);
    LeadsCut(e, p, a, b, |p| - 2);
    assert (p[|p| - 2], p[|p| - 1]) in e;
  }

  /** The edges of `e` that do not end in `o` are all in `f`. */
  ghost predicate KeepsOthers(e: set<Edge>, f: set<Edge>, o: Node) {
    forall x, y :: (x, y) in e && y != o ==> (x, y) in f
  }

  /** A path that avoids `o` survives any change to the edges into `o`. */
  lemma AvoidingSurvives(e: set<Edge>, f: set<Edge>, a: Node, b: Node, o: Node)
    requires KeepsOthers(e, f, o) && ReachAvoiding(e, a, b, o)
    ensures ReachAvoiding(f, a, b, o) && Reach(f, a, b)
  {
    var p :| Leads(e, p, a, b) && o !in p;
    assert Leads(f, p, a, b);
  }

  /** What can be reached without avoiding `o` goes through `o`. */
  lemma ThroughOrAround(e: set<Edge>, a: Node, b: Node, o: Node)
    requires Reach(e, a, b)
    ensures ReachAvoiding(e, a, b, o) || (Reach(e, a, o) && Reach(e, o, b))
  {
    var p :| Leads(e, p, a, b);
    if o in p {
      var i :| 0 <= i < |p| && p[i] == o;
      LeadsCut(e, p, a, b, i);
    }
  }

  /** The first arrival at `o` comes from a node that was reached without `o`. */
  lemma FirstArrival(e: set<Edge>, a: Node, o: Node)
    requires Reach(e, a, o) && a != o
    ensures exists y :: (y, o) in e && ReachAvoiding(e, a, y, o)
  {
    var p :| Leads(e, p, a, o);
    FirstArrivalOn(e, p, a, o);
  }

  lemma {:induction false} FirstArrivalOn(e: set<Edge>, p: seq<Node>, a: Node, o: Node)
    requires Leads(e, p, a, o) && a != o
    ensures exists y :: (y, o) in e && ReachAvoiding(e, a, y, o)
    decreases |p|
  {
    var n := |p| - 2;
    LeadsCut(e, p, a, o, n);
    assert (p[n], p[n + 1]) in e;
    if o in p[..n + 1] {
      var i :| 0 <= i <= n && p[i] == o;
      LeadsCut(e, p, a, o, i);
      FirstArrivalOn(e, p[..i + 1], a, o);
    } else {
      assert ReachAvoiding(e, a, p[n], o);
    }
  }

  /** What `o` reaches, it reaches without coming back to itself. */
  lemma LeavesOnce(e: set<Edge>, f: set<Edge>, o: Node, b: Node)
    requires KeepsOthers(e, f, o) && Reach(e, o, b)
    ensures Reach(f, o, b)
  {
    var p :| Leads(e, p, o, b);
    LeavesOnceOn(e, f, p, o, b);
  }

  lemma {:induction false} LeavesOnceOn(e: set<Edge>, f: set<Edge>, p: seq<Node>, o: Node, b: Node)
    requires KeepsOthers(e, f, o) && Leads(e, p, o, b)
    ensures Reach(f, o, b)
    decreases |p|
  {
    if o in p[1..] {
      var i :| 1 <= i < |p| && p[i] == o;
      LeadsCut(e, p, o, b, i);
      LeavesOnceOn(e, f, p[i..], o, b);
    } else {
      forall i | 0 <= i < |p| - 1 ensures (p[i], p[i + 1]) in f {
        assert p[i + 1] == p[1..][i];
      }
      assert Leads(f, p, o, b);
    }
  }

  /** Edges out of a node without edges lead nowhere: a leaf is on no path but its own end. */
  lemma LeafAvoided(e: set<Edge>, a: Node, b: Node, leaf: Node)
    requires Reach(e, a, b) && b != leaf && forall x :: (leaf, x) !in e
    ensures ReachAvoiding(e, a, b, leaf)
  {
    ThroughOrAround(e, a, b, leaf);
    if Reach(e, leaf, b) {
      FirstStep(e, leaf, b);
    }
  }

  /** A path in a graph with one more edge either was there before or uses the edge. */
  lemma ThroughNewEdge(e: set<Edge>, c: Node, o: Node, a: Node, b: Node)
    requires Reach(e + {(c, o)}, a, b)
    ensures Reach(e, a, b) || (Reach(e, a, c) && Reach(e, o, b))
  {
    var p :| Leads(e + {(c, o)}, p, a, b);
    NewEdgeOn(e, c, o, p, a, b);
  }

  lemma {:induction false} NewEdgeOn(e: set<Edge>, c: Node, o: Node, p: seq<Node>, a: Node, b: Node)
    requires Leads(e + {(c, o)}, p, a, b)
    ensures Reach(e, a, b) || (Reach(e, a, c) && Reach(e, o, b))
    decreases |p|
  {
    if |p| == 1 {
      ReachSelf(e, a);
    } else {
      var x := p[1];
      LeadsCut(e + {(c, o)}, p, a, b, 1);
      NewEdgeOn(e, c, o, p[1..], x, b);
      assert (p[0], p[1]) in e + {(c, o)};
      if (a, x) in e {
        ReachEdge(e, a, x);
        if Reach(e, x, b) {
          ReachTrans(e, a, x, b);
        } else {
          ReachTrans(e, a, x, c);
        }
      } else {
        ReachSelf(e, c);
      }
    }
  }

  /** An edge that does not close a cycle keeps a graph acyclic. */
  lemma AcyclicAdd(e: set<Edge>, c: Node, o: Node)
    requires Acyclic(e)
    ensures Acyclic(e + {(c, o)}) <==> !Reach(e, o, c)
  {
    var f := e + {(c, o)};
    if Reach(e, o, c) {
      ReachMono(e, f);
      assert (c, o) in f && Reach(f, o, c);
    } else {
      forall a, b | (a, b) in f ensures !Reach(f, b, a) {
        if Reach(f, b, a) {
          ThroughNewEdge(e, c, o, b, a);
          if (a, b) in e {
            assert !Reach(e, b, a);
            ReachEdge(e, a, b);
            ReachTrans(e, o, a, b);
            ReachTrans(e, o, b, c);
          }
        }
      }
    }
  }

  lemma AcyclicMono(e: set<Edge>, f: set<Edge>)
    requires e <= f && Acyclic(f)
    ensures Acyclic(e)
  {
    ReachMono(e, f);
  }

  /** Two graphs have the same closure. */
  ghost predicate SameReach(e: set<Edge>, f: set<Edge>) {
    forall a, b :: Reach(e, a, b) <==> Reach(f, a, b)
  }

  /** It is enough that every edge of one can be followed in the other. */
  lemma {:induction false} FollowPath(e: set<Edge>, f: set<Edge>, p: seq<Node>, a: Node, b: Node)
    requires forall x, y :: (x, y) in e ==> Reach(f, x, y)
    requires Leads(e, p, a, b)
    ensures Reach(f, a, b)
    decreases |p|
  {
    if |p| == 1 {
      ReachSelf(f, a);
    } else {
      LeadsCut(e, p, a, b, 1);
      FollowPath(e, f, p[1..], p[1], b);
      assert (p[0], p[1]) in e;
      ReachTrans(f, a, p[1], b);
    }
  }
}
