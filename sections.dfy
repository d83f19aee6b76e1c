/**
 * The inputs of a graph injection: the parsed graph section, the classmap
 * that resolves names, the two property appliers, and the errors raised.
 */
module Sections {
  import opened Blueprints

  /** Resolution of raw vertex names and edge labels to graph ids and labels. */
  datatype Classmap = Classmap(resolveVertex: string -> string, resolveEdge: string -> string)

  /** A classmap with no entries: every name resolves to itself. */
  function IdentityClassmap(): (cm: Classmap)
    ensures forall s :: cm.resolveVertex(s) == s && cm.resolveEdge(s) == s
  {
    Classmap(s => s, s => s)
  }

  /**
   * The value of one edge label in the YAML: a vertex name, a list of vertex
   * names, or a nested map, which is not a valid target.
   */
  datatype Target = Name(name: string) | Many(names: seq<string>) | Nested

  /** Edge label to target, in the mapping's iteration order. */
  type EdgeMap = seq<(string, Target)>

  /** Source vertex name to its edges, in the mapping's iteration order. */
  type Section = seq<(string, EdgeMap)>

  /** One step of the fan-out of a target: an edge to a named vertex, or the nested map that aborts. */
  datatype Leaf = ToVertex(name: string) | ToMap

  /** The leaves of a target in the order the injector visits them. */
  function Leaves(t: Target): seq<Leaf>
  {
    match t
    case Name(n) => [ToVertex(n)]
    case Nested => [ToMap]
    case Many(names) => NameLeaves(names)
  }

  /** One leaf per list element, in list order. */
  function NameLeaves(names: seq<string>): seq<Leaf>
  {
    if names == [] then [] else [ToVertex(names[0])] + NameLeaves(names[1..])
  }

  /** The leaves of a list of names are those names, one each, in list order, duplicates included. */
  lemma {:induction false} NameListLeaves(names: seq<string>)
    ensures |NameLeaves(names)| == |names|
    ensures forall k | 0 <= k < |names| :: NameLeaves(names)[k] == ToVertex(names[k])
    ensures ToMap !in NameLeaves(names)
  {
    if names != [] {
      NameListLeaves(names[1..]);
    }
  }

  /** How many edges a target adds when it is injected: one per name. */
  function TargetEdgeCount(t: Target): nat
  {
    match t
    case Name(_) => 1
    case Many(names) => |names|
    case Nested => 0
  }

  /** The resolved ids of the vertex names of a target. */
  function TargetIds(cm: Classmap, t: Target): set<string>
  {
    match t
    case Name(n) => {cm.resolveVertex(n)}
    case Many(names) => set k | 0 <= k < |names| :: cm.resolveVertex(names[k])
    case Nested => {}
  }

  /** The leaves visited before the first nested map (all of them when there is none). */
  function Reached(leaves: seq<Leaf>): (r: seq<Leaf>)
    ensures r <= leaves
    ensures ToMap !in r
    ensures |r| < |leaves| ==> leaves[|r|] == ToMap
  {
    if leaves == [] || leaves[0] == ToMap then [] else [leaves[0]] + Reached(leaves[1..])
  }

  /** The resolved ids of the vertices named by `leaves`. */
  function LeafIds(cm: Classmap, leaves: seq<Leaf>): set<string>
  {
    set k | 0 <= k < |leaves| && leaves[k].ToVertex? :: cm.resolveVertex(leaves[k].name)
  }

  /**
   * The leaves of a target hold a nested map exactly when the target is one;
   * otherwise there is one leaf per edge, naming the target's ids.
   */
  lemma TargetLeaves(cm: Classmap, t: Target)
    ensures ToMap in Leaves(t) <==> t.Nested?
    ensures !t.Nested? ==> |Leaves(t)| == TargetEdgeCount(t) && LeafIds(cm, Leaves(t)) == TargetIds(cm, t)
  {
    if t.Many? {
      var leaves := Leaves(t);
      NameListLeaves(t.names);
      forall id | id in TargetIds(cm, t) ensures id in LeafIds(cm, leaves) {
        var k :| 0 <= k < |t.names| && cm.resolveVertex(t.names[k]) == id;
        assert leaves[k] == ToVertex(t.names[k]);
      }
      forall id | id in LeafIds(cm, leaves) ensures id in TargetIds(cm, t) {
        var k :| 0 <= k < |leaves| && leaves[k].ToVertex? && cm.resolveVertex(leaves[k].name) == id;
        assert leaves[k] == ToVertex(t.names[k]);
      }
    }
  }

  /** Applies the properties declared for a vertex; the model keeps the log of its calls. */
  class VerticesSection {
    var applied: seq<(string, Vertex)>

    constructor ()
      ensures applied == []
    {
      applied := [];
    }

    method UpdateVertexProperties(vertexName: string, vertex: Vertex)
      modifies this
      ensures applied == old(applied) + [(vertexName, vertex)]
    {
      applied := applied + [(vertexName, vertex)];
    }
  }

  /** Applies the properties declared for an edge label; the model keeps the log of its calls. */
  class EdgesSection {
    var applied: seq<(string, Edge)>

    constructor ()
      ensures applied == []
    {
      applied := [];
    }

    method UpdateEdgeProperties(edgeName: string, edge: Edge)
      modifies this
      ensures applied == old(applied) + [(edgeName, edge)]
    {
      applied := applied + [(edgeName, edge)];
    }
  }

  /** The two `GramlException`s of the injector. */
  datatype GramlError = MissingGraphSection | MapAsEdgeTarget(srcVertex: string)

  const MapTargetPrefix := "Source vertex \""

  /** The exception message; the data error names the offending source vertex. */
  function Message(e: GramlError): (r: string)
    ensures e.MissingGraphSection? ==> r == "Missing required graph section."
    ensures e.MapAsEdgeTarget? ==>
      var n := |MapTargetPrefix|;
      |r| > n + |e.srcVertex| && r[..n] == MapTargetPrefix && r[n..n + |e.srcVertex|] == e.srcVertex
  {
    match e
    case MissingGraphSection => "Missing required graph section."
    case MapAsEdgeTarget(src) =>
      MapTargetPrefix + src + "\" may not use an arbitrary map as an edge target."
  }
}
