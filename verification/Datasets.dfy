/**
 * The graph of user-made datasets: what its nodes are, which of them are
 * broken, and the cache-free resolution that the service's resolver refines.
 */
module Datasets {
  import opened Basics

  /** A time window; a missing bound is unbounded. */
  datatype Range = Range(from: Option<int>, to: Option<int>)

  const EVERYTHING := Range(None, None)

  datatype Def =
    | SessionLimits(source: string, limits: Range)
    | SparkplugSrc(device: string)
    | UnionComponents(parts: seq<string>)
    | OtherStructure(app: string)
    | InvalidDataset                        // more or less than one definition

  type Graph = map<string, Def>

  /** A dataset with other than exactly one structural definition is invalid. */
  function Normalise(entries: seq<Def>): Def {
    if |entries| == 1 then entries[0] else InvalidDataset
  }

  function MaxDate(a: Option<int>, b: Option<int>): Option<int> {
    if a.None? then b else if b.None? then a else if a.value > b.value then a else b
  }

  function MinDate(a: Option<int>, b: Option<int>): Option<int> {
    if a.None? then b else if b.None? then a else if a.value < b.value then a else b
  }

  function Intersect(a: Range, b: Range): Range {
    Range(MaxDate(a.from, b.from), MinDate(a.to, b.to))
  }

  predicate Empty(r: Range) {
    r.from.Some? && r.to.Some? && r.from.value > r.to.value
  }

  predicate Inside(r: Range, t: int) {
    (r.from.Some? ==> r.from.value <= t) && (r.to.Some? ==> t <= r.to.value)
  }

  /** The window arithmetic is intersection of sets of instants. */
  lemma IntersectIsIntersection(a: Range, b: Range)
    ensures forall t :: Inside(Intersect(a, b), t) <==> Inside(a, t) && Inside(b, t)
    ensures Empty(a) <==> !exists t :: Inside(a, t)
  {
    if !Empty(a) {
      var t := if a.from.Some? then a.from.value else if a.to.Some? then a.to.value else 0;
      assert Inside(a, t);
    }
  }

  // ---- Paths ----

  function Edges(d: Def): seq<string> {
    match d
    case SessionLimits(source, _) => [source]
    case UnionComponents(parts) => parts
    case _ => []
  }

  /** A node that is defined once, with a structure the service knows. */
  predicate Sound(g: Graph, id: string) {
    id in g && !g[id].OtherStructure? && !g[id].InvalidDataset?
  }

  ghost predicate IsPath(g: Graph, p: seq<string>) {
    && p != []
    && forall i :: 0 <= i < |p| - 1 ==> p[i] in g && p[i + 1] in Edges(g[p[i]])
  }

  ghost predicate PathBetween(g: Graph, p: seq<string>, a: string, b: string) {
    IsPath(g, p) && p[0] == a && p[|p| - 1] == b
  }

  ghost predicate Reaches(g: Graph, a: string, b: string) {
    exists p :: PathBetween(g, p, a, b)
  }

  /** A path that shows its start to be bad: it ends in a broken node or closes a cycle. */
  ghost predicate Dooms(g: Graph, p: seq<string>, id: string) {
    && IsPath(g, p) && p[0] == id
    && (!Sound(g, p[|p| - 1]) || p[|p| - 1] in p[..|p| - 1])
  }

  /** The dataset reaches an undefined id, a duplicate or unknown definition, or a cycle. */
  ghost predicate Doomed(g: Graph, id: string) {
    exists p :: Dooms(g, p, id)
  }

  lemma PathCons(g: Graph, id: string, p: seq<string>)
    requires IsPath(g, p) && id in g && p[0] in Edges(g[id])
    ensures IsPath(g, [id] + p) && ([id] + p)[0] == id && ([id] + p)[|p|] == p[|p| - 1]
  {
    var q := [id] + p;
    forall i | 0 <= i < |q| - 1 ensures q[i] in g && q[i + 1] in Edges(g[q[i]]) {
      if i > 0 {
        assert q[i] == p[i - 1] && q[i + 1] == p[i];
      }
    }
  }

  lemma PathTail(g: Graph, p: seq<string>)
    requires IsPath(g, p) && |p| > 1
    ensures IsPath(g, p[1..]) && p[0] in g && p[1] in Edges(g[p[0]])
  {
    forall i | 0 <= i < |p[1..]| - 1 ensures p[1..][i] in g && p[1..][i + 1] in Edges(g[p[1..][i]]) {
      assert p[1..][i] == p[i + 1] && p[1..][i + 1] == p[i + 2];
    }
  }

  lemma PathJoin(g: Graph, p: seq<string>, q: seq<string>)
    requires IsPath(g, p) && IsPath(g, q) && p[|p| - 1] == q[0]
    ensures IsPath(g, p + q[1..]) && (p + q[1..])[0] == p[0]
    ensures (p + q[1..])[|p + q[1..]| - 1] == q[|q| - 1]
  {
    var r := p + q[1..];
    forall i | 0 <= i < |r| - 1 ensures r[i] in g && r[i + 1] in Edges(g[r[i]]) {
      if i < |p| - 1 {
        assert r[i] == p[i] && r[i + 1] == p[i + 1];
      } else {
        assert r[i] == q[i - |p| + 1] && r[i + 1] == q[i - |p| + 2];
      }
    }
  }

  lemma ReachesSelf(g: Graph, a: string)
    ensures Reaches(g, a, a)
  {
    assert PathBetween(g, [a], a, a);
  }

  lemma ReachesStep(g: Graph, a: string, b: string, c: string)
    requires Reaches(g, a, b) && b in g && c in Edges(g[b])
    ensures Reaches(g, a, c)
  {
    var p :| PathBetween(g, p, a, b);
    var q := [b, c];
    PathJoin(g, p, q);
    assert PathBetween(g, p + q[1..], a, c);
  }

  lemma StepReaches(g: Graph, a: string, b: string, c: string)
    requires a in g && b in Edges(g[a]) && Reaches(g, b, c)
    ensures Reaches(g, a, c)
  {
    var p :| PathBetween(g, p, b, c);
    PathCons(g, a, p);
    assert PathBetween(g, [a] + p, a, c);
  }

  /** What dooms a component dooms the whole. */
  lemma DoomUp(g: Graph, id: string, c: string)
    requires id in g && c in Edges(g[id]) && Doomed(g, c)
    ensures Doomed(g, id)
  {
    var p :| Dooms(g, p, c);
    PathCons(g, id, p);
    var q := [id] + p;
    assert q[|q| - 1] == p[|p| - 1];
    if p[|p| - 1] in p[..|p| - 1] {
      var i :| 0 <= i < |p| - 1 && p[i] == p[|p| - 1];
      assert q[..|q| - 1][i + 1] == p[i];
    }
    assert Dooms(g, q, id);
  }

  /** A component that leads back closes a cycle. */
  lemma CycleDooms(g: Graph, id: string, c: string)
    requires id in g && c in Edges(g[id]) && Reaches(g, c, id)
    ensures Doomed(g, id)
  {
    var p :| PathBetween(g, p, c, id);
    PathCons(g, id, p);
    var q := [id] + p;
    assert q[..|q| - 1][0] == id;
    assert Dooms(g, q, id);
  }

  /** So does any non-trivial way from a node back to itself. */
  lemma LoopDooms(g: Graph, a: string, b: string)
    requires a in g && b in Edges(g[a]) && Reaches(g, b, a)
    ensures Doomed(g, a) && Doomed(g, b)
  {
    CycleDooms(g, a, b);
    var p :| PathBetween(g, p, b, a);
    if |p| == 1 {
      assert a == b;
    } else {
      PathJoin(g, p, [a, b]);
      var q := p + [a, b][1..];
      assert q[..|q| - 1][0] == b;
      assert Dooms(g, q, b);
    }
  }

  // ---- Resolution without a cache ----

  function Times(rs: seq<Option<int>>): seq<int> {
    if rs == [] then []
    else (if rs[0].Some? then [rs[0].value] else []) + Times(rs[1..])
  }

  function Least(ts: seq<int>): Option<int> {
    if ts == [] then None else MinDate(Some(ts[0]), Least(ts[1..]))
  }

  function Greatest(ts: seq<int>): Option<int> {
    if ts == [] then None else MaxDate(Some(ts[0]), Greatest(ts[1..]))
  }

  function Froms(rs: seq<Range>): seq<Option<int>> {
    seq(|rs|, i requires 0 <= i < |rs| => rs[i].from)
  }

  function Tos(rs: seq<Range>): seq<Option<int>> {
    seq(|rs|, i requires 0 <= i < |rs| => rs[i].to)
  }

  /** The published window of a union: earliest and latest bound among those that are bounded. */
  function Hull(rs: seq<Range>): Range {
    Range(Least(Times(Froms(rs))), Greatest(Times(Tos(rs))))
  }

  /** What a node makes of its components' results; None is the invalid dataset. */
  function Combine(d: Def, children: seq<Option<Range>>): Option<Range>
    requires |children| == |Edges(d)|
  {
    if exists i :: 0 <= i < |children| && children[i].None? then None
    else
      var rs := seq(|children|, i requires 0 <= i < |children| => children[i].GetOr(EVERYTHING));
      match d
      case SessionLimits(_, limits) => Some(Intersect(limits, rs[0]))
      case SparkplugSrc(_) => Some(EVERYTHING)
      case UnionComponents(_) => Some(Hull(rs))
      case _ => None
  }

  /** The recursion of the resolver with its cache left out. */
  function Resolve(g: Graph, id: string, visited: set<string>): Option<Range>
    decreases |g.Keys - visited|, 1, 0
  {
    if id in visited || !Sound(g, id) then None
    else
      Smaller(g.Keys, visited, id);
      Combine(g[id], ResolveAll(g, Edges(g[id]), visited + {id}))
  }

  function ResolveAll(g: Graph, ids: seq<string>, visited: set<string>): (rs: seq<Option<Range>>)
    ensures |rs| == |ids|
    ensures forall i :: 0 <= i < |ids| ==> rs[i] == Resolve(g, ids[i], visited)
    decreases |g.Keys - visited|, 2, |ids|
  {
    if ids == [] then [] else [Resolve(g, ids[0], visited)] + ResolveAll(g, ids[1..], visited)
  }

  lemma Smaller(keys: set<string>, visited: set<string>, id: string)
    requires id in keys && id !in visited
    ensures |keys - (visited + {id})| < |keys - visited|
  {
    assert keys - visited == (keys - (visited + {id})) + {id};
  }

  /** No node of `visited` can be reached. */
  ghost predicate Misses(g: Graph, id: string, visited: set<string>) {
    forall v :: v in visited ==> !Reaches(g, id, v)
  }

  /** The cache-free recursion succeeds exactly on datasets that are not doomed and miss `visited`. */
  lemma {:induction false} ResolveExact(g: Graph, id: string, visited: set<string>)
    ensures Resolve(g, id, visited).Some? <==> !Doomed(g, id) && Misses(g, id, visited)
    decreases |g.Keys - visited|
  {
    if id in visited {
      ReachesSelf(g, id);
    } else if !Sound(g, id) {
      assert Dooms(g, [id], id);
    } else {
      Smaller(g.Keys, visited, id);
      var cs := Edges(g[id]);
      forall i | 0 <= i < |cs|
        ensures Resolve(g, cs[i], visited + {id}).Some? <==> !Doomed(g, cs[i]) && Misses(g, cs[i], visited + {id})
      {
        ResolveExact(g, cs[i], visited + {id});
      }
      if forall i :: 0 <= i < |cs| ==> Resolve(g, cs[i], visited + {id}).Some? {
        CleanBelow(g, id, visited);
      }
      if !Doomed(g, id) && Misses(g, id, visited) {
        CleanAbove(g, id, visited);
      }
    }
  }

  /** A sound node is doomed only through a component. */
  lemma DoomDown(g: Graph, id: string)
    requires Sound(g, id) && Doomed(g, id)
    ensures exists c :: c in Edges(g[id]) && (Doomed(g, c) || Reaches(g, c, id))
  {
    var p :| Dooms(g, p, id);
    assert |p| > 1;
    PathTail(g, p);
    var c, q := p[1], p[1..];
    assert q[|q| - 1] == p[|p| - 1];
    if i :| 0 <= i < |p| - 1 && p[i] == p[|p| - 1] {
      if i == 0 {
        assert PathBetween(g, q, c, id);
      } else {
        assert q[..|q| - 1][i - 1] == p[i];
        assert Dooms(g, q, c);
      }
    } else {
      assert Dooms(g, q, c);
    }
  }

  lemma ReachDown(g: Graph, id: string, v: string)
    requires id in g && id != v && Reaches(g, id, v)
    ensures exists c :: c in Edges(g[id]) && Reaches(g, c, v)
  {
    var p :| PathBetween(g, p, id, v);
    PathTail(g, p);
    assert PathBetween(g, p[1..], p[1], v);
  }

  lemma CleanBelow(g: Graph, id: string, visited: set<string>)
    requires Sound(g, id) && id !in visited
    requires forall c :: c in Edges(g[id]) ==> !Doomed(g, c) && Misses(g, c, visited + {id})
    ensures !Doomed(g, id) && Misses(g, id, visited)
  {
    assert forall c :: c in Edges(g[id]) ==> !Reaches(g, c, id);
    if Doomed(g, id) {
      DoomDown(g, id);
    }
    forall v | v in visited ensures !Reaches(g, id, v) {
      if Reaches(g, id, v) {
        ReachDown(g, id, v);
      }
    }
  }

  lemma CleanAbove(g: Graph, id: string, visited: set<string>)
    requires Sound(g, id) && !Doomed(g, id) && Misses(g, id, visited)
    ensures forall c :: c in Edges(g[id]) ==> !Doomed(g, c) && Misses(g, c, visited + {id})
  {
    forall c | c in Edges(g[id]) ensures !Doomed(g, c) && Misses(g, c, visited + {id}) {
      if Doomed(g, c) {
        DoomUp(g, id, c);
      }
      forall v | v in visited + {id} ensures !Reaches(g, c, v) {
        if Reaches(g, c, v) {
          if v == id {
            CycleDooms(g, id, c);
          } else {
            StepReaches(g, id, c, v);
          }
        }
      }
    }
  }

  /** A success does not depend on what was visited. */
  lemma {:induction false} VisitedIrrelevant(g: Graph, id: string, v: set<string>, w: set<string>)
    requires Resolve(g, id, v).Some? && Resolve(g, id, w).Some?
    ensures Resolve(g, id, v) == Resolve(g, id, w)
    decreases |g.Keys - v|
  {
    Smaller(g.Keys, v, id);
    var cs := Edges(g[id]);
    var a, b := ResolveAll(g, cs, v + {id}), ResolveAll(g, cs, w + {id});
    forall i | 0 <= i < |cs| ensures a[i] == b[i] {
      VisitedIrrelevant(g, cs[i], v + {id}, w + {id});
    }
    assert a == b;
  }

  /** The answer the service should give: the recursion from an empty set of ancestors. */
  function Ideal(g: Graph, id: string): Option<Range> {
    Resolve(g, id, {})
  }

  lemma IdealExact(g: Graph, id: string)
    ensures Ideal(g, id).None? <==> Doomed(g, id)
  {
    ResolveExact(g, id, {});
  }

  /** Having its parent among the ancestors changes nothing for a component, unless both are on a cycle. */
  lemma ChildUnderParent(g: Graph, id: string, c: string)
    requires id in g && c in Edges(g[id])
    ensures Ideal(g, c) == Resolve(g, c, {id}) || (Doomed(g, id) && Resolve(g, c, {id}).None?)
  {
    hide Resolve, Doomed, Reaches;
    ResolveExact(g, c, {});
    ResolveExact(g, c, {id});
    if Resolve(g, c, {id}).Some? {
      VisitedIrrelevant(g, c, {}, {id});
    } else if Ideal(g, c).Some? {
      LoopDooms(g, id, c);
    }
  }

  lemma DoomedIsNone(g: Graph, id: string)
    requires Doomed(g, id) && Sound(g, id)
    ensures Ideal(g, id).None?
    ensures exists i :: 0 <= i < |Edges(g[id])| && Ideal(g, Edges(g[id])[i]).None?
  {
    hide Resolve, Doomed, Reaches;
    ResolveExact(g, id, {});
    DoomDown(g, id);
    var c :| c in Edges(g[id]) && (Doomed(g, c) || Reaches(g, c, id));
    if Reaches(g, c, id) {
      LoopDooms(g, id, c);
    }
    ResolveExact(g, c, {});
  }

  /** The ideal answers obey the node equation. */
  lemma IdealEquation(g: Graph, id: string, children: seq<Option<Range>>)
    requires Sound(g, id) && |children| == |Edges(g[id])|
    requires forall i :: 0 <= i < |children| ==> children[i] == Ideal(g, Edges(g[id])[i])
    ensures Ideal(g, id) == Combine(g[id], children)
  {
    hide Ideal, Doomed;
    var cs := Edges(g[id]);
    if Doomed(g, id) {
      DoomedIsNone(g, id);
    } else {
      forall i | 0 <= i < |cs| ensures children[i] == Resolve(g, cs[i], {id}) {
        ChildUnderParent(g, id, cs[i]);
      }
      IdealUnfold(g, id);
      assert children == ResolveAll(g, cs, {id});
    }
  }

  lemma IdealUnfold(g: Graph, id: string)
    requires Sound(g, id)
    ensures Ideal(g, id) == Combine(g[id], ResolveAll(g, Edges(g[id]), {id}))
  {
    assert {} + {id} == {id};
  }

  /** `b` is the least (or greatest) of the bounds in `bs` that exist, if there is one. */
  ghost predicate IsLeast(bs: seq<Option<int>>, b: Option<int>) {
    if b.None? then forall x :: x in bs ==> x.None?
    else b in bs && forall x :: x in bs && x.Some? ==> b.value <= x.value
  }

  ghost predicate IsGreatest(bs: seq<Option<int>>, b: Option<int>) {
    if b.None? then forall x :: x in bs ==> x.None?
    else b in bs && forall x :: x in bs && x.Some? ==> x.value <= b.value
  }

  lemma {:induction false} LeastOfTimes(bs: seq<Option<int>>)
    ensures IsLeast(bs, Least(Times(bs)))
    decreases bs
  {
    if bs != [] {
      LeastOfTimes(bs[1..]);
      assert forall x :: x in bs <==> x == bs[0] || x in bs[1..];
      if bs[0].Some? {
        assert Times(bs)[1..] == Times(bs[1..]);
      } else {
        assert Times(bs) == Times(bs[1..]);
      }
    }
  }

  lemma {:induction false} GreatestOfTimes(bs: seq<Option<int>>)
    ensures IsGreatest(bs, Greatest(Times(bs)))
    decreases bs
  {
    if bs != [] {
      GreatestOfTimes(bs[1..]);
      assert forall x :: x in bs <==> x == bs[0] || x in bs[1..];
      if bs[0].Some? {
        assert Times(bs)[1..] == Times(bs[1..]);
      } else {
        assert Times(bs) == Times(bs[1..]);
      }
    }
  }

  /** A union starts with its earliest bounded part and ends with its latest; unbounded parts are ignored. */
  lemma HullIsExtreme(rs: seq<Range>)
    ensures IsLeast(Froms(rs), Hull(rs).from)
    ensures IsGreatest(Tos(rs), Hull(rs).to)
  {
    LeastOfTimes(Froms(rs));
    GreatestOfTimes(Tos(rs));
  }

  /** The published window of a union contains the window of its part `i`. */
  ghost predicate Encloses(rs: seq<Range>, i: nat)
    requires i < |rs|
  {
    forall t :: Inside(rs[i], t) ==> Inside(Hull(rs), t)
  }

  /** The part is open at an end at which some other part is not. */
  predicate CutOff(rs: seq<Range>, i: nat)
    requires i < |rs|
  {
    || (rs[i].from.None? && exists j :: 0 <= j < |rs| && rs[j].from.Some?)
    || (rs[i].to.None? && exists j :: 0 <= j < |rs| && rs[j].to.Some?)
  }

  /**
   * A union's published window contains a part with any instants if and only
   * if that part is bounded wherever some part is.
   */
  lemma HullEncloses(rs: seq<Range>, i: nat)
    requires i < |rs| && !Empty(rs[i])
    ensures Encloses(rs, i) <==> !CutOff(rs, i)
  {
    var r, h := rs[i], Hull(rs);
    HullIsExtreme(rs);
    assert Froms(rs)[i] == r.from && Tos(rs)[i] == r.to;
    forall j | 0 <= j < |rs|
      ensures rs[j].from.Some? ==> h.from.Some? && h.from.value <= rs[j].from.value
      ensures rs[j].to.Some? ==> h.to.Some? && rs[j].to.value <= h.to.value
    {
      assert Froms(rs)[j] == rs[j].from && Tos(rs)[j] == rs[j].to;
      assert rs[j].from in Froms(rs) && rs[j].to in Tos(rs);
    }
    if h.from.Some? {
      var j :| 0 <= j < |rs| && Froms(rs)[j] == h.from;
      assert rs[j].from.Some?;
    }
    if h.to.Some? {
      var j :| 0 <= j < |rs| && Tos(rs)[j] == h.to;
      assert rs[j].to.Some?;
    }
    if r.from.None? && h.from.Some? {
      var t := if r.to.Some? && r.to.value < h.from.value then r.to.value else h.from.value - 1;
      assert Inside(r, t) && !Inside(h, t);
    }
    if r.to.None? && h.to.Some? {
      var t := if r.from.Some? && r.from.value > h.to.value then r.from.value else h.to.value + 1;
      assert Inside(r, t) && !Inside(h, t);
    }
  }

  /** So the published window can leave out instants of a part. */
  lemma HullNeedNotEnclose()
    ensures exists rs: seq<Range>, i: nat :: i < |rs| && !Encloses(rs, i)
  {
    var rs := [EVERYTHING, Range(Some(1), Some(2))];
    assert rs[1].from.Some?;
    HullEncloses(rs, 0);
  }

  // ---- Routes from a dataset to its sources ----

  /** Every way down from a dataset to a source, in the order of the export. */
  function Routes(g: Graph, id: string, visited: set<string>): seq<seq<string>>
    decreases |g.Keys - visited|, 1, 0
  {
    if id in visited || !Sound(g, id) then []
    else
      Smaller(g.Keys, visited, id);
      if g[id].SparkplugSrc? then [[id]]
      else Under(id, RoutesAll(g, Edges(g[id]), visited + {id}))
  }

  function RoutesAll(g: Graph, ids: seq<string>, visited: set<string>): seq<seq<string>>
    decreases |g.Keys - visited|, 2, |ids|
  {
    if ids == [] then [] else Routes(g, ids[0], visited) + RoutesAll(g, ids[1..], visited)
  }

  function Under(id: string, routes: seq<seq<string>>): (rs: seq<seq<string>>)
    ensures |rs| == |routes| && forall i :: 0 <= i < |rs| ==> rs[i] == [id] + routes[i]
  {
    if routes == [] then [] else [[id] + routes[0]] + Under(id, routes[1..])
  }

  ghost predicate IsRoute(g: Graph, id: string, p: seq<string>) {
    IsPath(g, p) && p[0] == id && p[|p| - 1] in g && g[p[|p| - 1]].SparkplugSrc?
  }

  lemma {:induction false} InRoutesAll(g: Graph, ids: seq<string>, visited: set<string>, p: seq<string>)
    ensures p in RoutesAll(g, ids, visited) <==> exists i :: 0 <= i < |ids| && p in Routes(g, ids[i], visited)
    decreases ids
  {
    if ids != [] {
      InRoutesAll(g, ids[1..], visited, p);
      if i :| 0 <= i < |ids| && p in Routes(g, ids[i], visited) {
        if i > 0 {
          assert ids[1..][i - 1] == ids[i];
        }
      }
      if i :| 0 <= i < |ids[1..]| && p in Routes(g, ids[1..][i], visited) {
        assert ids[i + 1] == ids[1..][i];
      }
    }
  }

  lemma InUnder(id: string, routes: seq<seq<string>>, p: seq<string>)
    ensures p in Under(id, routes) <==> p != [] && p[0] == id && p[1..] in routes
  {
    if i :| 0 <= i < |routes| && Under(id, routes)[i] == p {
      assert p[1..] == routes[i];
    }
    if p != [] && p[0] == id && p[1..] in routes {
      var i :| 0 <= i < |routes| && routes[i] == p[1..];
      assert Under(id, routes)[i] == [id] + p[1..] == p;
    }
  }

  /** They are exactly the paths that end in a source. */
  lemma {:induction false} RoutesExact(g: Graph, id: string, visited: set<string>, p: seq<string>)
    requires !Doomed(g, id) && Misses(g, id, visited)
    ensures p in Routes(g, id, visited) <==> IsRoute(g, id, p)
    decreases |g.Keys - visited|
  {
    hide Doomed;
    NotDoomedSound(g, id, visited);
    Smaller(g.Keys, visited, id);
    if g[id].SparkplugSrc? {
      assert IsRoute(g, id, [id]);
      if IsRoute(g, id, p) {
        if |p| > 1 {
          PathTail(g, p);
        }
        assert p == [id];
      }
    } else {
      var cs, v := Edges(g[id]), visited + {id};
      CleanAbove(g, id, visited);
      InUnder(id, RoutesAll(g, cs, v), p);
      if p != [] {
        InRoutesAll(g, cs, v, p[1..]);
        forall i | 0 <= i < |cs| ensures p[1..] in Routes(g, cs[i], v) <==> IsRoute(g, cs[i], p[1..]) {
          RoutesExact(g, cs[i], v, p[1..]);
        }
        RouteStep(g, id, p);
      }
    }
  }

  lemma NotDoomedSound(g: Graph, id: string, visited: set<string>)
    requires !Doomed(g, id) && Misses(g, id, visited)
    ensures Sound(g, id) && id !in visited
  {
    ReachesSelf(g, id);
    if !Sound(g, id) {
      assert Dooms(g, [id], id);
    }
  }

  lemma RouteStep(g: Graph, id: string, p: seq<string>)
    requires id in g && !g[id].SparkplugSrc? && p != []
    ensures IsRoute(g, id, p) <==>
      p[0] == id && exists i :: 0 <= i < |Edges(g[id])| && IsRoute(g, Edges(g[id])[i], p[1..])
  {
    var cs := Edges(g[id]);
    if IsRoute(g, id, p) {
      assert |p| > 1;
      PathTail(g, p);
      var i :| 0 <= i < |cs| && cs[i] == p[1];
      assert IsRoute(g, cs[i], p[1..]);
    }
    if i :| 0 <= i < |cs| && p[0] == id && IsRoute(g, cs[i], p[1..]) {
      PathCons(g, id, p[1..]);
      assert [id] + p[1..] == p;
    }
  }

  /** No union that can be reached from here lists the same part twice. */
  ghost predicate NoRepeats(g: Graph, id: string) {
    forall x, i, j ::
      Reaches(g, id, x) && x in g && 0 <= i < j < |Edges(g[x])| ==> Edges(g[x])[i] != Edges(g[x])[j]
  }

  ghost predicate Distinct<T>(s: seq<T>) {
    forall i, j :: 0 <= i < j < |s| ==> s[i] != s[j]
  }

  /** Then every such path is listed once. */
  lemma {:induction false} RoutesDistinct(g: Graph, id: string, visited: set<string>)
    requires !Doomed(g, id) && Misses(g, id, visited) && NoRepeats(g, id)
    ensures Distinct(Routes(g, id, visited))
    decreases |g.Keys - visited|, 1, 0
  {
    hide Doomed, Misses, Reaches, NoRepeats;
    NotDoomedSound(g, id, visited);
    Smaller(g.Keys, visited, id);
    var cs, v := Edges(g[id]), visited + {id};
    CleanAbove(g, id, visited);
    NoRepeatsBelow(g, id);
    RoutesAllDistinct(g, cs, v);
    var below := RoutesAll(g, cs, v);
    forall i, j | 0 <= i < j < |below| ensures Under(id, below)[i] != Under(id, below)[j] {
      assert Under(id, below)[i][1..] == below[i] && Under(id, below)[j][1..] == below[j];
    }
  }

  lemma {:induction false} RoutesAllDistinct(g: Graph, ids: seq<string>, visited: set<string>)
    requires forall i :: 0 <= i < |ids| ==>
      !Doomed(g, ids[i]) && Misses(g, ids[i], visited) && NoRepeats(g, ids[i])
    requires Distinct(ids)
    ensures Distinct(RoutesAll(g, ids, visited))
    decreases |g.Keys - visited|, 2, |ids|
  {
    hide Doomed, Misses, NoRepeats;
    if ids != [] {
      RoutesDistinct(g, ids[0], visited);
      RoutesAllDistinct(g, ids[1..], visited);
      var a, b := Routes(g, ids[0], visited), RoutesAll(g, ids[1..], visited);
      forall p | p in a ensures p !in b {
        RoutesExact(g, ids[0], visited, p);
        InRoutesAll(g, ids[1..], visited, p);
        if i :| 0 <= i < |ids[1..]| && p in Routes(g, ids[1..][i], visited) {
          assert ids[1..][i] == ids[i + 1];
          RoutesExact(g, ids[i + 1], visited, p);
        }
      }
      forall i, j | 0 <= i < j < |a + b| ensures (a + b)[i] != (a + b)[j] {
        if i < |a| <= j {
          assert a[i] !in b && b[j - |a|] in b;
        }
      }
    }
  }

  lemma NoRepeatsBelow(g: Graph, id: string)
    requires NoRepeats(g, id) && id in g
    ensures forall c :: c in Edges(g[id]) ==> NoRepeats(g, c)
    ensures Distinct(Edges(g[id]))
  {
    ReachesSelf(g, id);
    forall c, x | c in Edges(g[id]) && Reaches(g, c, x) ensures Reaches(g, id, x) {
      StepReaches(g, id, c, x);
    }
  }

  /** A session narrows the window that it is handed; other nodes pass it on. */
  function Narrow(g: Graph, id: string, window: Range): Range {
    if id in g && g[id].SessionLimits? then Intersect(window, g[id].limits) else window
  }

  /** The inherited window narrowed by every session on the way. */
  function Along(g: Graph, p: seq<string>, window: Range): Range {
    if p == [] then window else Along(g, p[1..], Narrow(g, p[0], window))
  }

  /** That is, the intersection of the inherited window with all those sessions' limits. */
  lemma {:induction false} AlongIsIntersection(g: Graph, p: seq<string>, window: Range, t: int)
    ensures Inside(Along(g, p, window), t) <==>
      Inside(window, t) && forall x :: x in p && x in g && g[x].SessionLimits? ==> Inside(g[x].limits, t)
    decreases p
  {
    if p != [] {
      var w := Narrow(g, p[0], window);
      AlongIsIntersection(g, p[1..], w, t);
      if p[0] in g && g[p[0]].SessionLimits? {
        IntersectIsIntersection(window, g[p[0]].limits);
      }
      assert forall x :: x in p <==> x == p[0] || x in p[1..];
    }
  }
}
