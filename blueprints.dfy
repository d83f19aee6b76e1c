/**
 * The part of a Tinkerpop Blueprints graph that the injector uses:
 * `getVertex(id)`, `addVertex(id)` and `addEdge(edgeLabel, inVertex)` on a vertex.
 * A vertex or edge handle is a value carrying the id it was created with and
 * a serial number that stands for the identity of the Java object.
 */
module Blueprints {
  import opened Wrappers

  datatype Vertex = Vertex(id: string, serial: nat)

  /** An edge from `outVertex` to `inVertex`; `serial` is its position in the edge log. */
  datatype Edge = Edge(serial: nat, outVertex: Vertex, edgeLabel: string, inVertex: Vertex)

  /** The contents of a graph: vertices by id and the log of all edges ever added. */
  datatype Store = Store(vertices: map<string, Vertex>, edges: seq<Edge>, nextSerial: nat)
  {
    /** `v` is the handle this store holds for `v.id`. */
    predicate Contains(v: Vertex)
    {
      v.id in vertices && vertices[v.id] == v
    }

    /**
     * Every vertex is filed under its own id with a serial already handed out,
     * and every edge sits at its own serial and joins two vertices of this store.
     */
    predicate Valid()
    {
      && (forall id | id in vertices :: vertices[id].id == id && vertices[id].serial < nextSerial)
      && (forall i | 0 <= i < |edges| :: edges[i].serial == i && Contains(edges[i].outVertex) && Contains(edges[i].inVertex))
    }

    /** `later` still holds every vertex handle and every edge of this store. */
    predicate ExtendedBy(later: Store)
    {
      (forall id | id in vertices :: id in later.vertices && later.vertices[id] == vertices[id])
      && edges <= later.edges
    }

    /** Blueprints `getVertex`: the handle stored under `id`, if any. */
    function GetVertex(id: string): (r: Option<Vertex>)
      ensures r.Some? <==> id in vertices
      ensures Valid() && r.Some? ==> r.value.id == id && Contains(r.value)
    {
      if id in vertices then Some(vertices[id]) else None
    }

    /** Blueprints `addVertex`: a new handle with a serial no other vertex has, filed under `id`. */
    function AddVertex(id: string): (r: (Store, Vertex))
      ensures r.1.id == id && r.0.Contains(r.1)
      ensures r.0.vertices.Keys == vertices.Keys + {id}
      ensures r.0.edges == edges
      ensures Valid() ==> forall u | Contains(u) :: u != r.1
      ensures Valid() && id !in vertices ==> ExtendedBy(r.0) && r.0.Valid()
    {
      var v := Vertex(id, nextSerial);
      (Store(vertices[id := v], edges, nextSerial + 1), v)
    }

    /** Blueprints `addEdge`: a new edge appended to the log; nothing is deduplicated. */
    function AddEdge(outVertex: Vertex, edgeLabel: string, inVertex: Vertex): (r: (Store, Edge))
      ensures r.0.edges == edges + [r.1]
      ensures r.1.outVertex == outVertex && r.1.edgeLabel == edgeLabel && r.1.inVertex == inVertex
      ensures Valid() ==> forall i | 0 <= i < |edges| :: edges[i] != r.1
      ensures r.0.vertices == vertices
      ensures ExtendedBy(r.0)
      ensures Valid() && Contains(outVertex) && Contains(inVertex) ==> r.0.Valid()
    {
      var e := Edge(|edges|, outVertex, edgeLabel, inVertex);
      (Store(vertices, edges + [e], nextSerial), e)
    }
  }

  /** A mutable graph, the injection target. */
  class Graph {
    var vertices: map<string, Vertex>
    var edges: seq<Edge>
    var nextSerial: nat

    function Snapshot(): Store
      reads this
    {
      Store(vertices, edges, nextSerial)
    }

    ghost predicate Valid()
      reads this
    {
      Snapshot().Valid()
    }

    /** An empty graph. */
    constructor ()
      ensures Valid() && vertices == map[] && edges == []
    {
      vertices, edges, nextSerial := map[], [], 0;
    }

    method GetVertex(id: string) returns (v: Option<Vertex>)
      ensures v == Snapshot().GetVertex(id)
    {
      if id in vertices {
        v := Some(vertices[id]);
      } else {
        v := None;
      }
    }

    /** The target store refuses a second vertex with an id it already holds. */
    method AddVertex(id: string) returns (v: Vertex)
      requires Valid() && id !in vertices
      modifies this
      ensures Valid()
      ensures (Snapshot(), v) == old(Snapshot()).AddVertex(id)
    {
      v := Vertex(id, nextSerial);
      vertices := vertices[id := v];
      nextSerial := nextSerial + 1;
    }

    /** Both endpoints must be vertices of this graph. */
    method AddEdge(outVertex: Vertex, edgeLabel: string, inVertex: Vertex) returns (e: Edge)
      requires Valid() && Snapshot().Contains(outVertex) && Snapshot().Contains(inVertex)
      modifies this
      ensures Valid()
      ensures (Snapshot(), e) == old(Snapshot()).AddEdge(outVertex, edgeLabel, inVertex)
    {
      e := Edge(|edges|, outVertex, edgeLabel, inVertex);
      edges := edges + [e];
    }
  }
}
