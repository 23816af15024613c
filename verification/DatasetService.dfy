/**
 * The two resolvers of the data access service: the memoised one that
 * publishes every dataset, and the top-down one that runs at export.
 */
module DatasetService {
  import opened Basics
  import opened Datasets

  // ---- Publishing ----

  datatype Published = Broken | Usable(def: Def, window: Range)

  /** What is published for the graph `g`, dataset by dataset. */
  ghost predicate PublishedFrom(g: Graph, pub: map<string, Published>) {
    && pub.Keys == g.Keys
    && forall id :: id in g ==>
         pub[id] == if Ideal(g, id).Some? then Usable(g[id], Ideal(g, id).value) else Broken
  }

  /** A dataset is published as broken exactly when something it reaches is wrong. */
  lemma BrokenIffDoomed(g: Graph, pub: map<string, Published>, id: string)
    requires PublishedFrom(g, pub) && id in g
    ensures pub[id].Broken? <==> Doomed(g, id)
  {
    IdealExact(g, id);
  }

  /** A source is published without bounds. */
  lemma SourceWindow(g: Graph, pub: map<string, Published>, id: string)
    requires PublishedFrom(g, pub) && id in g && g[id].SparkplugSrc?
    ensures pub[id] == Usable(g[id], Range(None, None))
  {
    hide Resolve, Combine;
    IdealEquation(g, id, []);
    CombineSource(g[id]);
  }

  lemma CombineSource(d: Def)
    requires d.SparkplugSrc?
    ensures Combine(d, []) == Some(Range(None, None))
  {
  }

  /** A session is published if what it limits is, and has the instants of that which are within its own limits. */
  lemma SessionWindow(g: Graph, pub: map<string, Published>, id: string)
    requires PublishedFrom(g, pub) && id in g && g[id].SessionLimits? && pub[id].Usable?
    ensures var source, limits := g[id].source, g[id].limits;
      && source in pub && pub[source].Usable?
      && (forall t :: Inside(pub[id].window, t) <==> Inside(limits, t) && Inside(pub[source].window, t))
      && IsGreatest([limits.from, pub[source].window.from], pub[id].window.from)
      && IsLeast([limits.to, pub[source].window.to], pub[id].window.to)
  {
    hide Resolve, Combine;
    var source, limits := g[id].source, g[id].limits;
    var child := Ideal(g, source);
    IdealEquation(g, id, [child]);
    CombineSession(g[id], child);
    IdealThere(g, source);
    BoundsIntersect(limits, child.value, pub[id].window);
  }

  /** The later start and the earlier end bound what two windows have in common. */
  lemma BoundsIntersect(a: Range, b: Range, c: Range)
    requires IsGreatest([a.from, b.from], c.from) && IsLeast([a.to, b.to], c.to)
    ensures forall t :: Inside(c, t) <==> Inside(a, t) && Inside(b, t)
  {
    var froms, tos := [a.from, b.from], [a.to, b.to];
    assert froms[0] in froms && froms[1] in froms && tos[0] in tos && tos[1] in tos;
  }

  lemma CombineSession(d: Def, child: Option<Range>)
    requires d.SessionLimits? && Combine(d, [child]).Some?
    ensures child.Some?
    ensures IsGreatest([d.limits.from, child.value.from], Combine(d, [child]).value.from)
    ensures IsLeast([d.limits.to, child.value.to], Combine(d, [child]).value.to)
  {
    var cs := [child];
    assert cs[0].Some?;
    var r, w := d.limits, child.value;
    assert w.from == [r.from, w.from][1] && w.to == [r.to, w.to][1];
    assert r.from == [r.from, w.from][0] && r.to == [r.to, w.to][0];
  }

  /** A union is published if all its parts are, from the earliest start that is bounded to the latest such end. */
  lemma UnionWindow(g: Graph, pub: map<string, Published>, id: string, windows: seq<Range>)
    requires PublishedFrom(g, pub) && id in g && g[id].UnionComponents? && |windows| == |g[id].parts|
    requires forall i :: 0 <= i < |windows| && g[id].parts[i] in pub && pub[g[id].parts[i]].Usable? ==>
      windows[i] == pub[g[id].parts[i]].window
    ensures pub[id].Usable? <==>
      forall i :: 0 <= i < |windows| ==> g[id].parts[i] in pub && pub[g[id].parts[i]].Usable?
    ensures pub[id].Usable? ==>
      IsLeast(Froms(windows), pub[id].window.from) && IsGreatest(Tos(windows), pub[id].window.to)
  {
    hide Resolve, Combine, IsLeast, IsGreatest, Froms, Tos, Hull;
    var parts := g[id].parts;
    var children := seq(|parts|, i requires 0 <= i < |parts| => Ideal(g, parts[i]));
    forall i | 0 <= i < |parts|
      ensures children[i].Some? <==> parts[i] in pub && pub[parts[i]].Usable?
      ensures children[i].Some? ==> children[i].value == windows[i]
    {
      if children[i].Some? {
        IdealThere(g, parts[i]);
      }
    }
    IdealEquation(g, id, children);
    CombineUnion(g[id], children, windows);
  }

  lemma CombineUnion(d: Def, children: seq<Option<Range>>, windows: seq<Range>)
    requires d.UnionComponents? && |children| == |d.parts| == |windows|
    requires forall i :: 0 <= i < |children| && children[i].Some? ==> children[i].value == windows[i]
    ensures Combine(d, children).Some? <==> forall i :: 0 <= i < |children| ==> children[i].Some?
    ensures Combine(d, children).Some? ==>
      && IsLeast(Froms(windows), Combine(d, children).value.from)
      && IsGreatest(Tos(windows), Combine(d, children).value.to)
  {
    hide IsLeast, IsGreatest, Froms, Tos, Hull;
    var r := Combine(d, children);
    if r.Some? {
      var rs := seq(|children|, i requires 0 <= i < |children| => children[i].GetOr(EVERYTHING));
      assert rs == windows;
      HullIsExtreme(windows);
    }
  }

  lemma IdealThere(g: Graph, id: string)
    requires Ideal(g, id).Some?
    ensures id in g
  {
  }

  /** `id` can be reached from its ancestor `v` in one or more steps. */
  ghost predicate ComesAfter(g: Graph, v: string, id: string) {
    v in g && exists c :: c in Edges(g[v]) && Reaches(g, c, id)
  }

  /** The ancestors of a call: grown in place on the way down, copied where the way divides. */
  class Visited {
    var ids: set<string>

    constructor (ids: set<string>)
      ensures this.ids == ids
    {
      this.ids := ids;
    }
  }

  class Resolver {
    const g: Graph
    var cache: map<string, Option<Range>>

    /** Every cached answer is the right one, also those written while the node was on the stack. */
    ghost predicate Valid()
      reads this
    {
      forall k :: k in cache ==> cache[k] == Ideal(g, k)
    }

    constructor (g: Graph)
      ensures Valid() && this.g == g && cache == map[]
    {
      this.g := g;
      cache := map[];
    }

    method Resolve(id: string, visited: Visited) returns (r: Option<Range>)
      requires Valid()
      requires forall v :: v in visited.ids ==> ComesAfter(g, v, id)
      modifies this`cache, visited
      ensures Valid()
      ensures r == Ideal(g, id)
      ensures id in cache
      decreases |g.Keys - visited.ids|
    {
      hide Ideal, ComesAfter;
      if id in cache {
        return cache[id];
      }
      if id in visited.ids {
        OnStackIsDoomed(g, id);
        cache := cache[id := None];
        return None;
      }
      visited.ids := visited.ids + {id};
      if !Sound(g, id) {
        UnsoundIsNone(g, id);
        cache := cache[id := None];
        return None;
      }
      Smaller(g.Keys, old(visited.ids), id);
      var cs := Edges(g[id]);
      var children: seq<Option<Range>> := [];
      for i := 0 to |cs|
        invariant Valid() && |children| == i
        invariant visited.ids == old(visited.ids) + {id}
        invariant forall k :: 0 <= k < i ==> children[k] == Ideal(g, cs[k])
      {
        forall v | v in visited.ids ensures ComesAfter(g, v, cs[i]) {
          ChildComesAfter(g, v, id, cs[i]);
        }
        var copy := new Visited(visited.ids);
        var child := Resolve(cs[i], copy);
        children := children + [child];
      }
      r := Combine(g[id], children);
      IdealEquation(g, id, children);
      cache := cache[id := r];
    }
  }

  lemma OnStackIsDoomed(g: Graph, id: string)
    requires ComesAfter(g, id, id)
    ensures Ideal(g, id).None?
  {
    var c :| c in Edges(g[id]) && Reaches(g, c, id);
    CycleDooms(g, id, c);
    IdealExact(g, id);
  }

  lemma UnsoundIsNone(g: Graph, id: string)
    requires !Sound(g, id)
    ensures Ideal(g, id).None?
  {
  }

  lemma ChildComesAfter(g: Graph, v: string, id: string, c: string)
    requires id in g && c in Edges(g[id])
    requires v == id || ComesAfter(g, v, id)
    ensures ComesAfter(g, v, c)
  {
    if v == id {
      ReachesSelf(g, c);
    } else {
      var k :| k in Edges(g[v]) && Reaches(g, k, id);
      ReachesStep(g, k, id, c);
    }
  }

  /** The graph in which every dataset has its one definition, or is invalid. */
  ghost predicate GraphOf(grouped: map<string, seq<Def>>, g: Graph) {
    g.Keys == grouped.Keys &&
    forall id :: id in g ==> g[id] == if |grouped[id]| == 1 then grouped[id][0] else InvalidDataset
  }

  lemma OneGraph(grouped: map<string, seq<Def>>, g: Graph, h: Graph)
    requires GraphOf(grouped, g) && GraphOf(grouped, h)
    ensures g == h
  {
  }

  method NormaliseAll(grouped: map<string, seq<Def>>) returns (graph: Graph)
    ensures GraphOf(grouped, graph)
  {
    graph := map[];
    var todo := grouped.Keys;
    while todo != {}
      invariant todo <= grouped.Keys && graph.Keys == grouped.Keys - todo
      invariant forall id :: id in graph ==> graph[id] == Normalise(grouped[id])
    {
      var id :| id in todo;
      graph := graph[id := Normalise(grouped[id])];
      todo := todo - {id};
    }
  }

  /** Resolve every dataset with one cache, in any order, and publish the answers. */
  method BuildDatasets(grouped: map<string, seq<Def>>) returns (pub: map<string, Published>)
    ensures forall g :: GraphOf(grouped, g) ==> PublishedFrom(g, pub)
  {
    hide Ideal, PublishedFrom;
    var graph := NormaliseAll(grouped);
    var resolver := new Resolver(graph);
    pub := map[];
    var todo := graph.Keys;
    while todo != {}
      invariant todo <= graph.Keys && pub.Keys == graph.Keys - todo
      invariant fresh(resolver) && resolver.Valid() && resolver.g == graph
      invariant forall id :: id in pub ==>
        pub[id] == if Ideal(graph, id).Some? then Usable(graph[id], Ideal(graph, id).value) else Broken
    {
      var id :| id in todo;
      if graph[id].InvalidDataset? {
        UnsoundIsNone(graph, id);
        pub := pub[id := Broken];
      } else {
        var none := new Visited({});
        var r := resolver.Resolve(id, none);
        pub := pub[id := if r.Some? then Usable(graph[id], r.value) else Broken];
      }
      todo := todo - {id};
    }
    AllPublished(graph, pub);
    forall g | GraphOf(grouped, g) ensures PublishedFrom(g, pub) {
      OneGraph(grouped, g, graph);
    }
  }

  lemma AllPublished(g: Graph, pub: map<string, Published>)
    requires pub.Keys == g.Keys
    requires forall id :: id in pub ==>
      pub[id] == if Ideal(g, id).Some? then Usable(g[id], Ideal(g, id).value) else Broken
    ensures PublishedFrom(g, pub)
  {
  }

  // ---- Exporting ----

  datatype Entry = Entry(dataset: string, device: string, window: Range)

  datatype Failure = Circular | NotFound | Invalid | BadConfig | UnknownStructure | EmptyWindow

  datatype Outcome = Sources(entries: seq<Entry>) | Failed(why: Failure)

  /** A session's config names both bounds. */
  predicate Complete(limits: Range) {
    limits.from.Some? && limits.to.Some?
  }

  /** The export's recursion over the published datasets. */
  function Export(pub: map<string, Published>, id: string, window: Range, visited: set<string>): Outcome
    decreases |pub.Keys - visited|, 1, 0
  {
    if id in visited then Failed(Circular)
    else if id !in pub then Failed(NotFound)
    else if pub[id].Broken? then Failed(Invalid)
    else
      Smaller(pub.Keys, visited, id);
      match pub[id].def
      case SessionLimits(source, limits) =>
        if !Complete(limits) then Failed(BadConfig)
        else if Empty(Intersect(window, limits)) then Failed(EmptyWindow)
        else Export(pub, source, Intersect(window, limits), visited + {id})
      case SparkplugSrc(device) => Sources([Entry(id, device, window)])
      case UnionComponents(parts) => ExportAll(pub, parts, window, visited + {id})
      case OtherStructure(_) => Failed(UnknownStructure)
      case InvalidDataset => Failed(Invalid)
  }

  function ExportAll(pub: map<string, Published>, ids: seq<string>, window: Range, visited: set<string>): Outcome
    decreases |pub.Keys - visited|, 2, |ids|
  {
    if ids == [] then Sources([])
    else
      var first := Export(pub, ids[0], window, visited);
      if first.Failed? then first
      else
        var rest := ExportAll(pub, ids[1..], window, visited);
        if rest.Failed? then rest else Sources(first.entries + rest.entries)
  }

  /** The export as it runs: a session hands its `visited` on, a union copies it for each part. */
  method ResolveDataset(pub: map<string, Published>, id: string, window: Range, visited: Visited)
    returns (r: Outcome)
    modifies visited
    ensures r == Export(pub, id, window, old(visited.ids))
    decreases |pub.Keys - visited.ids|, 0
  {
    hide ExportAll;
    ghost var above := visited.ids;
    if id in visited.ids {
      return Failed(Circular);
    }
    visited.ids := visited.ids + {id};
    if id !in pub {
      return Failed(NotFound);
    }
    if pub[id].Broken? {
      return Failed(Invalid);
    }
    Smaller(pub.Keys, above, id);
    match pub[id].def {
      case SessionLimits(source, limits) =>
        if !Complete(limits) {
          return Failed(BadConfig);
        }
        if Empty(Intersect(window, limits)) {
          return Failed(EmptyWindow);
        }
        r := ResolveDataset(pub, source, Intersect(window, limits), visited);
      case SparkplugSrc(device) =>
        r := Sources([Entry(id, device, window)]);
      case UnionComponents(parts) =>
        r := ResolveParts(pub, parts, window, visited);
      case OtherStructure(_) =>
        r := Failed(UnknownStructure);
      case InvalidDataset =>
        r := Failed(Invalid);
    }
  }

  /** The parts of a union, in order, up to the first that fails. */
  method ResolveParts(pub: map<string, Published>, parts: seq<string>, window: Range, visited: Visited)
    returns (r: Outcome)
    ensures r == ExportAll(pub, parts, window, visited.ids)
    decreases |pub.Keys - visited.ids|, 1
  {
    hide Export, ExportAll, Prepend;
    var results: seq<Entry> := [];
    assert parts[0..] == parts;
    PrependNothing(ExportAll(pub, parts, window, visited.ids));
    for i := 0 to |parts|
      invariant ExportAll(pub, parts, window, visited.ids) ==
                Prepend(results, ExportAll(pub, parts[i..], window, visited.ids))
    {
      ExportAllStep(pub, parts[i..], window, visited.ids);
      assert parts[i..][1..] == parts[i + 1..];
      var copy := new Visited(visited.ids);
      var src := ResolveDataset(pub, parts[i], window, copy);
      if src.Failed? {
        PrependFailed(results, src);
        return src;
      }
      PrependTwice(results, src.entries, ExportAll(pub, parts[i + 1..], window, visited.ids));
      results := results + src.entries;
    }
    assert parts[|parts|..] == [];
    ExportAllStep(pub, [], window, visited.ids);
    PrependNone(results);
    r := Sources(results);
  }

  lemma PrependNothing(r: Outcome)
    ensures Prepend([], r) == r
  {
  }

  lemma PrependNone(entries: seq<Entry>)
    ensures Prepend(entries, Sources([])) == Sources(entries)
  {
    assert entries + [] == entries;
  }

  lemma PrependFailed(entries: seq<Entry>, r: Outcome)
    requires r.Failed?
    ensures Prepend(entries, r) == r
  {
  }

  lemma PrependTwice(a: seq<Entry>, b: seq<Entry>, r: Outcome)
    ensures Prepend(a, Prepend(b, r)) == Prepend(a + b, r)
  {
    if r.Sources? {
      assert a + (b + r.entries) == a + b + r.entries;
    }
  }

  lemma ExportAllStep(pub: map<string, Published>, ids: seq<string>, window: Range, visited: set<string>)
    ensures ExportAll(pub, ids, window, visited) ==
      if ids == [] then Sources([])
      else
        var first := Export(pub, ids[0], window, visited);
        if first.Failed? then first else Prepend(first.entries, ExportAll(pub, ids[1..], window, visited))
  {
    hide Export;
  }

  function Prepend(entries: seq<Entry>, r: Outcome): Outcome {
    if r.Failed? then r else Sources(entries + r.entries)
  }

  // ---- The export agrees with what is published ----

  /** Every session that the dataset reaches has both its bounds. */
  ghost predicate ConfigsComplete(g: Graph, id: string) {
    forall x :: Reaches(g, id, x) && x in g && g[x].SessionLimits? ==>
      g[x].limits.from.Some? && g[x].limits.to.Some?
  }

  /** A path from here to a session at which the window, narrowed on the way, is empty. */
  ghost predicate RunsDry(g: Graph, id: string, window: Range, p: seq<string>) {
    && IsPath(g, p) && p[0] == id
    && p[|p| - 1] in g && g[p[|p| - 1]].SessionLimits?
    && Empty(Along(g, p, window))
  }

  function EntryFor(g: Graph, p: seq<string>, window: Range): Entry
    requires p != [] && p[|p| - 1] in g && g[p[|p| - 1]].SparkplugSrc?
  {
    Entry(p[|p| - 1], g[p[|p| - 1]].device, Along(g, p, window))
  }

  /** One entry for each route, in order. */
  ghost predicate MatchesRoutes(g: Graph, routes: seq<seq<string>>, window: Range, entries: seq<Entry>) {
    && |entries| == |routes|
    && forall i :: 0 <= i < |routes| ==>
         routes[i] != [] && routes[i][|routes[i]| - 1] in g && g[routes[i][|routes[i]| - 1]].SparkplugSrc? &&
         entries[i] == EntryFor(g, routes[i], window)
  }

  lemma UsableNode(g: Graph, pub: map<string, Published>, id: string, visited: set<string>)
    requires PublishedFrom(g, pub) && !Doomed(g, id) && Misses(g, id, visited)
    ensures id !in visited && Sound(g, id) && id in pub && pub[id].Usable? && pub[id].def == g[id]
  {
    NotDoomedSound(g, id, visited);
    IdealExact(g, id);
  }

  lemma CompleteBelow(g: Graph, id: string)
    requires id in g
    ensures ConfigsComplete(g, id) <==>
      && (g[id].SessionLimits? ==> Complete(g[id].limits))
      && forall i :: 0 <= i < |Edges(g[id])| ==> ConfigsComplete(g, Edges(g[id])[i])
  {
    var cs := Edges(g[id]);
    ReachesSelf(g, id);
    forall c, x | c in cs && Reaches(g, c, x) ensures Reaches(g, id, x) {
      StepReaches(g, id, c, x);
    }
    if (g[id].SessionLimits? ==> Complete(g[id].limits)) &&
       forall i :: 0 <= i < |cs| ==> ConfigsComplete(g, cs[i])
    {
      forall x | Reaches(g, id, x) && x in g && g[x].SessionLimits? ensures Complete(g[x].limits) {
        if x != id {
          ReachDown(g, id, x);
        }
      }
    }
  }

  ghost predicate Dry(g: Graph, id: string, window: Range) {
    exists p :: RunsDry(g, id, window, p)
  }

  lemma DryStep(g: Graph, id: string, window: Range)
    requires id in g
    ensures Dry(g, id, window) <==>
      || (g[id].SessionLimits? && Empty(Narrow(g, id, window)))
      || exists i :: 0 <= i < |Edges(g[id])| && Dry(g, Edges(g[id])[i], Narrow(g, id, window))
  {
    var cs, w := Edges(g[id]), Narrow(g, id, window);
    assert [id][1..] == [];
    assert Along(g, [id], window) == Along(g, [id][1..], w) == w;
    if p :| RunsDry(g, id, window, p) {
      if |p| > 1 {
        PathTail(g, p);
        var i :| 0 <= i < |cs| && cs[i] == p[1];
        assert RunsDry(g, cs[i], w, p[1..]);
        assert Dry(g, cs[i], w);
      } else {
        assert p == [id];
      }
    }
    if g[id].SessionLimits? && Empty(w) {
      assert RunsDry(g, id, window, [id]);
    }
    if i :| 0 <= i < |cs| && Dry(g, cs[i], w) {
      var p :| RunsDry(g, cs[i], w, p);
      PathCons(g, id, p);
      var q := [id] + p;
      assert q[1..] == p && q[|q| - 1] == p[|p| - 1];
      assert RunsDry(g, id, window, q);
    }
  }

  /** An export's outcome in terms of the graph alone. */
  ghost predicate ExportOk(g: Graph, id: string, window: Range, routes: seq<seq<string>>, r: Outcome) {
    && (r.Sources? ==> MatchesRoutes(g, routes, window, r.entries) && ConfigsComplete(g, id) && !Dry(g, id, window))
    && (r.Failed? ==>
          || (r.why == EmptyWindow && Dry(g, id, window))
          || (r.why == BadConfig && !ConfigsComplete(g, id)))
  }

  lemma EntryBelow(g: Graph, id: string, p: seq<string>, window: Range)
    requires p != [] && p[|p| - 1] in g && g[p[|p| - 1]].SparkplugSrc?
    ensures ([id] + p)[|p|] == p[|p| - 1]
    ensures EntryFor(g, p, Narrow(g, id, window)) == EntryFor(g, [id] + p, window)
  {
    assert ([id] + p)[1..] == p;
  }

  lemma MatchUnder(g: Graph, id: string, routes: seq<seq<string>>, window: Range, entries: seq<Entry>)
    requires MatchesRoutes(g, routes, Narrow(g, id, window), entries)
    ensures MatchesRoutes(g, Under(id, routes), window, entries)
  {
    hide Under, Narrow, EntryFor;
    var longer := Under(id, routes);
    forall i | 0 <= i < |routes|
      ensures longer[i] != [] && longer[i][|longer[i]| - 1] == routes[i][|routes[i]| - 1]
      ensures EntryFor(g, routes[i], Narrow(g, id, window)) == EntryFor(g, longer[i], window)
    {
      assert longer[i] == [id] + routes[i];
      EntryBelow(g, id, routes[i], window);
    }
  }

  /**
   * An export of a dataset published as usable ends and never reports a cycle,
   * a missing or an invalid dataset. It gives one entry for each path down to a
   * source with the window narrowed by the sessions on that path, and fails
   * exactly when a session lacks a bound or a window runs dry.
   */
  lemma {:induction false} ExportExact(g: Graph, pub: map<string, Published>, id: string, window: Range,
                                       visited: set<string>)
    requires PublishedFrom(g, pub) && !Doomed(g, id) && Misses(g, id, visited)
    ensures ExportOk(g, id, window, Routes(g, id, visited), Export(pub, id, window, visited))
    decreases |g.Keys - visited|, 1, 0
  {
    hide PublishedFrom, Doomed, Misses, ConfigsComplete, MatchesRoutes, Dry;
    UsableNode(g, pub, id, visited);
    Smaller(g.Keys, visited, id);
    var cs, v, w := Edges(g[id]), visited + {id}, Narrow(g, id, window);
    CleanAbove(g, id, visited);
    CompleteBelow(g, id);
    DryStep(g, id, window);
    match g[id]
    case SessionLimits(source, limits) =>
      if Complete(limits) && !Empty(w) {
        ExportExact(g, pub, source, w, v);
        RoutesAllOne(g, source, v);
        var r := Export(pub, source, w, v);
        if r.Sources? {
          MatchUnder(g, id, Routes(g, source, v), window, r.entries);
        }
      }
    case SparkplugSrc(device) =>
      MatchSource(g, id, window);
    case UnionComponents(parts) =>
      ExportAllExact(g, pub, parts, window, v);
      var r := ExportAll(pub, parts, window, v);
      if r.Sources? {
        MatchUnder(g, id, RoutesAll(g, parts, v), window, r.entries);
      }
  }

  lemma {:induction false} ExportAllExact(g: Graph, pub: map<string, Published>, ids: seq<string>,
                                          window: Range, visited: set<string>)
    requires PublishedFrom(g, pub)
    requires forall i :: 0 <= i < |ids| ==>
      !Doomed(g, ids[i]) && Misses(g, ids[i], visited)
    ensures var r := ExportAll(pub, ids, window, visited);
      && (r.Sources? ==> MatchesRoutes(g, RoutesAll(g, ids, visited), window, r.entries))
      && (r.Sources? ==> forall i :: 0 <= i < |ids| ==> ConfigsComplete(g, ids[i]) && !Dry(g, ids[i], window))
      && (r.Failed? ==>
            || (r.why == EmptyWindow && exists i :: 0 <= i < |ids| && Dry(g, ids[i], window))
            || (r.why == BadConfig && exists i :: 0 <= i < |ids| && !ConfigsComplete(g, ids[i])))
    decreases |g.Keys - visited|, 2, |ids|
  {
    hide PublishedFrom, Doomed, Misses, ConfigsComplete, Dry, Export, ExportAll, Routes, RoutesAll, MatchesRoutes;
    ExportAllStep(pub, ids, window, visited);
    RoutesAllStep(g, ids, visited);
    if ids == [] {
      MatchNone(g, window);
    } else {
      var first, rest := Export(pub, ids[0], window, visited), ExportAll(pub, ids[1..], window, visited);
      ExportExact(g, pub, ids[0], window, visited);
      assert forall i :: 0 <= i < |ids[1..]| ==> ids[1..][i] == ids[i + 1];
      ExportAllExact(g, pub, ids[1..], window, visited);
      assert forall i :: 0 < i < |ids| ==> ids[i] == ids[1..][i - 1];
      if first.Sources? && rest.Sources? {
        MatchBoth(g, Routes(g, ids[0], visited), RoutesAll(g, ids[1..], visited), window, first.entries, rest.entries);
      }
    }
  }

  lemma RoutesAllStep(g: Graph, ids: seq<string>, visited: set<string>)
    ensures RoutesAll(g, ids, visited) ==
      if ids == [] then [] else Routes(g, ids[0], visited) + RoutesAll(g, ids[1..], visited)
  {
    hide Routes;
  }

  lemma MatchNone(g: Graph, window: Range)
    ensures MatchesRoutes(g, [], window, [])
  {
  }

  lemma MatchBoth(g: Graph, a: seq<seq<string>>, b: seq<seq<string>>, window: Range, x: seq<Entry>, y: seq<Entry>)
    requires MatchesRoutes(g, a, window, x) && MatchesRoutes(g, b, window, y)
    ensures MatchesRoutes(g, a + b, window, x + y)
  {
    hide EntryFor;
  }

  lemma RoutesAllOne(g: Graph, id: string, visited: set<string>)
    ensures RoutesAll(g, [id], visited) == Routes(g, id, visited)
  {
    assert [id][1..] == [];
  }

  lemma MatchSource(g: Graph, id: string, window: Range)
    requires id in g && g[id].SparkplugSrc?
    ensures MatchesRoutes(g, [[id]], window, [Entry(id, g[id].device, window)])
  {
    assert [id][1..] == [];
    assert Along(g, [id], window) == Along(g, [id][1..], window) == window;
  }

  /** The same, said of a request: what the service published decides what the export will do. */
  lemma PublishedExports(g: Graph, pub: map<string, Published>, id: string, window: Range)
    requires PublishedFrom(g, pub)
    ensures id !in pub ==> Export(pub, id, window, {}) == Failed(NotFound)
    ensures id in pub && pub[id].Broken? ==> Export(pub, id, window, {}) == Failed(Invalid)
    ensures id in pub && pub[id].Usable? ==> ExportOk(g, id, window, Routes(g, id, {}), Export(pub, id, window, {}))
    ensures id in pub && pub[id].Usable? ==> forall p :: p in Routes(g, id, {}) <==> IsRoute(g, id, p)
  {
    if id in pub && pub[id].Usable? {
      BrokenIffDoomed(g, pub, id);
      ExportExact(g, pub, id, window, {});
      forall p ensures p in Routes(g, id, {}) <==> IsRoute(g, id, p) {
        RoutesExact(g, id, {}, p);
      }
    }
  }
}
