/**
 * The graph injector: walks a graph section and writes its vertices and
 * edges into a target graph, reusing vertices through a bounded cache and
 * through the graph itself. Every method is proved to leave the graph and
 * the applier logs exactly as the cache-free functions of InjectionSpec say.
 */
module Injector {
  import opened Wrappers
  import opened Blueprints
  import opened Sections
  import opened InjectionSpec

  /** The maximum size of a default LRU map. */
  const CacheCapacity := 100

  /** Construction with a possibly absent section: an absent one is a configuration error. */
  method New(section: Option<Section>, classmap: Classmap, vertexProps: VerticesSection, edgeProps: EdgesSection)
    returns (r: Result<GraphSectionImpl, GramlError>)
    ensures r.Failure? <==> section.None?
    ensures r.Failure? ==> r.error == MissingGraphSection && Message(r.error) == "Missing required graph section."
    ensures r.Success? ==>
      && fresh(r.value)
      && r.value.section == section.value
      && r.value.classmap == classmap
      && r.value.vertexProps == vertexProps && r.value.edgeProps == edgeProps
      && r.value.vertexCache == map[]
  {
    if section.None? {
      return Failure(MissingGraphSection);
    }
    var injector := new GraphSectionImpl(section.value, classmap, vertexProps, edgeProps);
    r := Success(injector);
  }

  class GraphSectionImpl {
    const section: Section
    const classmap: Classmap
    const vertexProps: VerticesSection
    const edgeProps: EdgesSection

    /** Resolved vertex id to the handle last produced for it; at most CacheCapacity entries. */
    var vertexCache: map<string, Vertex>

    constructor (section: Section, classmap: Classmap, vertexProps: VerticesSection, edgeProps: EdgesSection)
      ensures this.section == section && this.vertexProps == vertexProps && this.edgeProps == edgeProps
      ensures this.classmap == classmap
      ensures vertexCache == map[]
    {
      this.section := section;
      this.classmap := classmap;
      this.vertexProps := vertexProps;
      this.edgeProps := edgeProps;
      vertexCache := map[];
    }

    /** The graph and the two applier logs, as InjectionSpec sees them. */
    function State(g: Graph): LoadState
      reads g, vertexProps, edgeProps
    {
      LoadState(g.Snapshot(), vertexProps.applied, edgeProps.applied)
    }

    /** Every cached handle is the graph's vertex for its id, and the cache is within its bound. */
    ghost predicate CacheAgrees(g: Graph)
      reads this, g
    {
      && |vertexCache| <= CacheCapacity
      && forall id | id in vertexCache :: id in g.vertices && g.vertices[id] == vertexCache[id]
    }

    /**
     * LRU put: an existing key is overwritten; a new key in a full cache first
     * evicts one entry. Which one is left open: correctness does not depend on it.
     */
    method CachePut(key: string, vertex: Vertex)
      requires |vertexCache| <= CacheCapacity
      modifies this
      ensures |vertexCache| <= CacheCapacity
      ensures key in vertexCache && vertexCache[key] == vertex
      ensures forall id | id in vertexCache && id != key :: id in old(vertexCache) && vertexCache[id] == old(vertexCache)[id]
      ensures forall a, b | a in old(vertexCache) && a !in vertexCache && b in old(vertexCache) && b !in vertexCache :: a == b
      ensures key in old(vertexCache) || |old(vertexCache)| < CacheCapacity ==>
                vertexCache.Keys == old(vertexCache).Keys + {key}
    {
      if key !in vertexCache && |vertexCache| >= CacheCapacity {
        assert vertexCache.Keys != {} by {
          assert |vertexCache.Keys| == |vertexCache|;
        }
        var eldest :| eldest in vertexCache;
        vertexCache := vertexCache - {eldest};
      }
      vertexCache := vertexCache[key := vertex];
    }

    /**
     * Resolves the name, reuses the cached or the graph's vertex for the
     * resolved id or creates it, applies the raw name's properties, and
     * caches the handle under the resolved id.
     */
    method FindOrCreateVertex(g: Graph, vertexName: string) returns (vertex: Vertex)
      requires g.Valid() && CacheAgrees(g)
      modifies this, g, vertexProps
      ensures g.Valid() && CacheAgrees(g)
      ensures (State(g), vertex) == FindOrCreate(classmap, old(State(g)), vertexName)
      ensures classmap.resolveVertex(vertexName) in vertexCache
      ensures vertexCache[classmap.resolveVertex(vertexName)] == vertex
    {
      var resolvedVertexName := classmap.resolveVertex(vertexName);
      if resolvedVertexName in vertexCache {
        vertex := vertexCache[resolvedVertexName];
      } else {
        var found := g.GetVertex(resolvedVertexName);
        if found.Some? {
          vertex := found.value;
        } else {
          vertex := g.AddVertex(resolvedVertexName);
        }
      }
      vertexProps.UpdateVertexProperties(vertexName, vertex);
      CachePut(resolvedVertexName, vertex);
    }

    /**
     * One edge label's target: a list recurses once per name, a nested map
     * is a data error naming the source vertex, a name adds one edge.
     */
    method InjectEdges(g: Graph, srcVertexName: string, srcVertex: Vertex, edgeName: string, target: Target)
      returns (failure: Option<GramlError>)
      requires g.Valid() && CacheAgrees(g) && g.Snapshot().Contains(srcVertex)
      modifies this, g, vertexProps, edgeProps
      ensures g.Valid() && CacheAgrees(g) && g.Snapshot().Contains(srcVertex)
      ensures Run(State(g), failure)
              == InjectLeaves(classmap, old(State(g)), srcVertexName, srcVertex, edgeName, Leaves(target))
      decreases if target.Many? then 1 else 0
    {
      match target
      case Many(targetNames) =>
        for i := 0 to |targetNames|
          invariant g.Valid() && CacheAgrees(g) && g.Snapshot().Contains(srcVertex)
          invariant InjectLeaves(classmap, State(g), srcVertexName, srcVertex, edgeName, NameLeaves(targetNames[i..]))
                    == InjectLeaves(classmap, old(State(g)), srcVertexName, srcVertex, edgeName, Leaves(target))
        {
          ghost var before := State(g);
          assert NameLeaves(targetNames[i..]) == Leaves(Name(targetNames[i])) + NameLeaves(targetNames[i + 1..]) by {
            assert targetNames[i..][0] == targetNames[i] && targetNames[i..][1..] == targetNames[i + 1..];
          }
          InjectLeavesAppend(classmap, before, srcVertexName, srcVertex, edgeName,
                             Leaves(Name(targetNames[i])), NameLeaves(targetNames[i + 1..]));
          failure := InjectEdges(g, srcVertexName, srcVertex, edgeName, Name(targetNames[i]));
          if failure.Some? {
            return;
          }
        }
        assert targetNames[|targetNames|..] == [];
        failure := None;
      case Nested =>
        failure := Some(MapAsEdgeTarget(srcVertexName));
      case Name(targetName) =>
        ghost var before := State(g);
        var targetVertex := FindOrCreateVertex(g, targetName);
        var edge := g.AddEdge(srcVertex, classmap.resolveEdge(edgeName), targetVertex);
        edgeProps.UpdateEdgeProperties(edgeName, edge);
        failure := None;
        assert State(g) == Connect(classmap, before, srcVertex, edgeName, targetName);
    }

    /** One section entry: the source vertex first, then each of its edge labels in order. */
    method InjectSourceNodes(g: Graph, srcVertexName: string, edges: EdgeMap) returns (failure: Option<GramlError>)
      requires g.Valid() && CacheAgrees(g)
      modifies this, g, vertexProps, edgeProps
      ensures g.Valid() && CacheAgrees(g)
      ensures Run(State(g), failure) == InjectSource(classmap, old(State(g)), srcVertexName, edges)
    {
      var srcVertex := FindOrCreateVertex(g, srcVertexName);
      ghost var afterSource := State(g);
      failure := None;
      for i := 0 to |edges|
        invariant g.Valid() && CacheAgrees(g) && g.Snapshot().Contains(srcVertex)
        invariant failure == None
        invariant InjectEdgeMap(classmap, State(g), srcVertexName, srcVertex, edges[i..])
                  == InjectEdgeMap(classmap, afterSource, srcVertexName, srcVertex, edges)
      {
        assert edges[i..][0] == edges[i] && edges[i..][1..] == edges[i + 1..];
        failure := InjectEdges(g, srcVertexName, srcVertex, edges[i].0, edges[i].1);
        if failure.Some? {
          return;
        }
      }
      assert edges[|edges|..] == [];
    }

    /** Injects every entry of the section, in order; the first data error aborts, keeping what was added. */
    method Inject(g: Graph) returns (failure: Option<GramlError>)
      requires g.Valid() && CacheAgrees(g)
      modifies this, g, vertexProps, edgeProps
      ensures g.Valid() && CacheAgrees(g)
      ensures Run(State(g), failure) == InjectSection(classmap, old(State(g)), section)
    {
      failure := None;
      for i := 0 to |section|
        invariant g.Valid() && CacheAgrees(g)
        invariant failure == None
        invariant InjectSection(classmap, State(g), section[i..]) == InjectSection(classmap, old(State(g)), section)
      {
        assert section[i..][0] == section[i] && section[i..][1..] == section[i + 1..];
        failure := InjectSourceNodes(g, section[i].0, section[i].1);
        if failure.Some? {
          return;
        }
      }
      assert section[|section|..] == [];
    }
  }
}
