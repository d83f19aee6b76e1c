# Graml graph injection, modelled in Dafny

Graml loads a YAML description of a graph into a Tinkerpop Blueprints graph.
This project models the graph injector, `GraphSectionImpl`. The injector takes
the parsed `graph` section: a mapping from source-vertex name to a mapping from
edge label to target. For each source vertex it finds or creates the vertex.
For each edge label it then adds one edge to a single target name, or one edge
per element of a list of targets. A nested map as a target is a data error.
Vertex names and edge labels are resolved through the classmap. A vertex is
looked up by its resolved id, first in a bounded vertex cache, then in the graph.
It is created only when both miss. The vertex- and edge-property sections
always receive the raw, unresolved name.

Files:

- `wrappers.dfy`: `Option` and `Result`.
- `blueprints.dfy`: the graph the injector writes to. Vertex and edge handles
  are values. `Store` holds the graph contents, with the functions `GetVertex`,
  `AddVertex` and `AddEdge`. `Graph` is the mutable graph object whose methods
  follow those functions.
- `sections.dfy`: the inputs. The classmap is a pair of resolver functions.
  `Target` is the shape of an edge target. The vertex and edge property sections
  are modelled as logs of the calls they receive. The file also holds the two
  `GramlException`s and their messages.
- `injection_spec.dfy`: what an injection does, as functions from the state
  before it to the state after it. The state is the graph plus the two applier
  logs. This file also holds the lemmas for the properties below. The cache
  does not appear here.
- `graph_section_impl.dfy`: the injector as a class. It has the cache field and
  methods with loops. Each method is proved to produce exactly the state its
  `InjectionSpec` function gives. So the cache never changes the outcome: no
  duplicate vertex and no stale handle.

A target is one of three things: a vertex name, a list of vertex names, or a
nested map. It is flattened into its `Leaves` in visiting order. Each leaf is
either a vertex name or the nested map that stops the run. The source casts a
list target to `List<String>` and hands each element to `injectEdges` as a
`String`. So only names can be list elements, and each one adds one edge.

## Model

| member | source | states |
|---|---|---|
| Injector.New | src/main/java/org/segfly/graml/model/impl/GraphSectionImpl.java:32-43 | fails with the "Missing required graph section." error exactly when the section is absent; otherwise yields a fresh injector that keeps the given section, classmap and property sections, with an empty cache; touches no graph |
| Injector.GraphSectionImpl.constructor | src/main/java/org/segfly/graml/model/impl/GraphSectionImpl.java:38-42 | keeps the section, classmap and both property sections; the vertex cache starts empty |
| Injector.GraphSectionImpl.Inject | src/main/java/org/segfly/graml/model/impl/GraphSectionImpl.java:46-48 | leaves the graph and applier logs exactly as `InjectSection` says, entry by entry, stopping at the first error; keeps the graph valid and the cache in agreement with it |
| Injector.GraphSectionImpl.InjectSourceNodes | src/main/java/org/segfly/graml/model/impl/GraphSectionImpl.java:50-53 | finds or creates the source vertex, then injects each edge label in order, stopping at the first error, exactly as `InjectSource` says |
| Injector.GraphSectionImpl.InjectEdges | src/main/java/org/segfly/graml/model/impl/GraphSectionImpl.java:55-69 | a list recurses once per name, a nested map fails naming the source vertex, a name adds one edge; the result equals `InjectLeaves` over the target's leaves |
| Injector.GraphSectionImpl.FindOrCreateVertex | src/main/java/org/segfly/graml/model/impl/GraphSectionImpl.java:71-84 | returns the vertex `FindOrCreate` gives (cache hit, graph hit or new vertex), applies properties under the raw name, and afterwards the cache maps the resolved id to the returned handle |
| Injector.GraphSectionImpl.CachePut | src/main/java/org/segfly/graml/model/impl/GraphSectionImpl.java:82 | the key maps to the new handle, at most 100 entries remain, and every other surviving entry is unchanged; at most one other key is dropped, and none unless the cache was full and the key new (which one is left open) |
| InjectionSpec.FindOrCreate | src/main/java/org/segfly/graml/model/impl/GraphSectionImpl.java:71-84 | the vertex ids grow by at most the resolved id; an id already in the graph reuses its vertex and leaves the graph unchanged; otherwise a handle distinct from every existing one is created; the result is the graph's vertex for the resolved id; the vertex applier gets the raw name and that handle |
| InjectionSpec.InjectLeaves | src/main/java/org/segfly/graml/model/impl/GraphSectionImpl.java:55-69 | one edge label's leaves in visiting order, stopping at the first nested map; the only error it returns is the data error naming the source vertex, and only when a leaf is a nested map |
| InjectionSpec.InjectEdgeMap | src/main/java/org/segfly/graml/model/impl/GraphSectionImpl.java:52 | the edge labels of one source in order, stopping at the first error; the only error is the data error naming that source |
| InjectionSpec.InjectSource | src/main/java/org/segfly/graml/model/impl/GraphSectionImpl.java:50-53 | finds or creates the source vertex, then injects its edge map; the only error is the data error naming that source |
| InjectionSpec.InjectSection | src/main/java/org/segfly/graml/model/impl/GraphSectionImpl.java:46-48 | the section entries in order, stopping at the first error; an error always names the source vertex of some entry |
| InjectionSpec.Connect | src/main/java/org/segfly/graml/model/impl/GraphSectionImpl.java:65-67 | a scalar target appends exactly one edge from the source vertex with the resolved edge label to the vertex of the resolved target name, then logs the raw label with that edge |
| InjectionSpec.ScalarTarget | src/main/java/org/segfly/graml/model/impl/GraphSectionImpl.java:64-68 | a scalar target succeeds and appends exactly the edge `(src, resolveEdge(label), findOrCreate(target))`, then gives the raw label and that edge to the edge applier |
| InjectionSpec.ListTarget | src/main/java/org/segfly/graml/model/impl/GraphSectionImpl.java:57-60 | a list of T names succeeds and appends exactly T edges, all from the source vertex with the resolved label, to the names' vertices in list order |
| InjectionSpec.DuplicateTargetsNotCollapsed | src/main/java/org/segfly/graml/model/impl/GraphSectionImpl.java:57-60 | a name listed twice gives two distinct edges with the same source, label and target vertex |
| InjectionSpec.NestedTarget | src/main/java/org/segfly/graml/model/impl/GraphSectionImpl.java:61-63 | a nested-map target fails with the error naming the source vertex and changes nothing |
| InjectionSpec.InjectLeavesAppend | src/main/java/org/segfly/graml/model/impl/GraphSectionImpl.java:60 | injecting the elements of a list one after another is injecting their concatenated leaves, stopping at the first failure |
| InjectionSpec.InjectLeavesOutcome | src/main/java/org/segfly/graml/model/impl/GraphSectionImpl.java:57-63 | injecting leaves fails exactly when one of them is a nested map, and the error names the source vertex |
| InjectionSpec.InjectLeavesGrowth | src/main/java/org/segfly/graml/model/impl/GraphSectionImpl.java:55-69 | no vertex, edge or applier call is removed, also on failure; the graph stays valid and still holds the source vertex |
| InjectionSpec.InjectLeavesCount | src/main/java/org/segfly/graml/model/impl/GraphSectionImpl.java:57-67 | exactly one edge and one edge-applier call per name reached before the first nested map |
| InjectionSpec.InjectLeavesEdges | src/main/java/org/segfly/graml/model/impl/GraphSectionImpl.java:57-67 | the i-th new edge goes from the source vertex, with the resolved label, to the vertex of the i-th reached name's resolved id; the i-th new edge-applier call is the raw label with that edge |
| InjectionSpec.InjectLeavesVertices | src/main/java/org/segfly/graml/model/impl/GraphSectionImpl.java:65 | the vertex ids grow by exactly the resolved ids of the names reached |
| InjectionSpec.ConnectEdgeTo | src/main/java/org/segfly/graml/model/impl/GraphSectionImpl.java:65-67 | the edge and edge-applier call that a scalar target adds match source, resolved label, resolved target id and raw label |
| InjectionSpec.InjectEdgeMapEffect | src/main/java/org/segfly/graml/model/impl/GraphSectionImpl.java:52 | the edges of one source fail exactly when some target is a nested map, naming that source; nothing is removed; on success the ids grow by the targets' resolved ids and the edges by one per scalar and per list element |
| InjectionSpec.InjectSourceEffect | src/main/java/org/segfly/graml/model/impl/GraphSectionImpl.java:50-53 | as above for one entry, with the source's resolved id added too |
| InjectionSpec.InjectSectionEffect | src/main/java/org/segfly/graml/model/impl/GraphSectionImpl.java:46-53 | nothing is removed, also on failure; the run fails exactly when some target is a nested map, with the error naming the source vertex of the first such entry; on success every source and target resolved id is a vertex and the new edges number one per scalar plus the length of each list |
| InjectionSpec.OneHandlePerId | src/main/java/org/segfly/graml/model/impl/GraphSectionImpl.java:71-83 | after any run, two edge endpoints with the same resolved id are the same vertex handle |
| InjectionSpec.SequentialLoadsReuseVertices | src/main/java/org/segfly/graml/model/impl/GraphSectionImpl.java:75-78 | two sections loaded one after the other into an empty graph leave one vertex per distinct resolved id of both |
| InjectionSpec.TwoScalarEdgesExample | src/main/java/org/segfly/graml/model/impl/GraphSectionImpl.java:46-68 | `{source: {edge: target1, edge2: target2}}` with no classmap entries gives the vertices source, target1, target2 and the edges source-edge->target1, source-edge2->target2 |
| Sections.Message | src/main/java/org/segfly/graml/model/impl/GraphSectionImpl.java:62-63 | the data error's message starts with `Source vertex "` followed by the offending source vertex name; the configuration error's message is "Missing required graph section." |
| Sections.Reached | src/main/java/org/segfly/graml/model/impl/GraphSectionImpl.java:57-63 | the leaves visited before the first nested map: a prefix free of maps, followed by a map or by nothing |
| Sections.NameListLeaves | src/main/java/org/segfly/graml/model/impl/GraphSectionImpl.java:57-60 | a list of names has one leaf per element, in list order, duplicates kept, and no nested map |
| Sections.TargetLeaves | src/main/java/org/segfly/graml/model/impl/GraphSectionImpl.java:56-68 | a target's leaves hold a nested map exactly when the target is one; otherwise there is one leaf per edge it adds (one for a name, one per list element) and they name exactly the target's resolved ids |
| Sections.VerticesSection.UpdateVertexProperties | src/main/java/org/segfly/graml/model/impl/GraphSectionImpl.java:81 | records one call with the raw vertex name and the handle |
| Sections.EdgesSection.UpdateEdgeProperties | src/main/java/org/segfly/graml/model/impl/GraphSectionImpl.java:67 | records one call with the raw edge label and the edge |
| Blueprints.Store.GetVertex | src/main/java/org/segfly/graml/model/impl/GraphSectionImpl.java:75 | finds a vertex exactly when the id is present, and in a valid graph it is the vertex with that id |
| Blueprints.Store.AddVertex | src/main/java/org/segfly/graml/model/impl/GraphSectionImpl.java:77 | adds exactly the given id with a handle distinct from all existing ones, keeping all other vertices and edges |
| Blueprints.Store.AddEdge | src/main/java/org/segfly/graml/model/impl/GraphSectionImpl.java:66 | appends one new edge, distinct from all earlier ones, with the given endpoints and label; vertices unchanged |
| Blueprints.Graph.GetVertex | src/main/java/org/segfly/graml/model/impl/GraphSectionImpl.java:75 | answers as `Store.GetVertex` on the graph's contents |
| Blueprints.Graph.AddVertex | src/main/java/org/segfly/graml/model/impl/GraphSectionImpl.java:77 | only for an id the graph lacks; updates the graph as `Store.AddVertex` |
| Blueprints.Graph.AddEdge | src/main/java/org/segfly/graml/model/impl/GraphSectionImpl.java:66 | only between vertices of this graph; updates the graph as `Store.AddEdge` |

## Left out

- Loading from a URL, file, stream or string, and YAML parsing (`GramlReader`): I/O and a foreign parser. The model starts from the parsed section.
- `GramlFactoryImpl`: it only casts the parsed sections and forwards them to the constructors.
- The bodies of the classmap and the vertex and edge property sections. The classmap is any pair of total string functions. The property sections are logs of the calls they receive; which properties they write is not modelled.
- LRU recency order of the cache. The entry evicted from a full cache is arbitrary, which covers the least recently used one. Nothing proved depends on which entry is evicted.
- Blueprints internals beyond `getVertex`, `addVertex` and `addEdge`: persistence, indexing, id generation. A handle is an (id, serial) value standing for the Java object.
- Blueprints.Graph.AddVertex: a second vertex with an id already present is excluded by precondition, where a real store would raise an error. The injector is proved never to make such a call.
- Targets that are neither a name, a list nor a map (numbers, booleans, null), list elements that are not strings (a nested list or map inside a list), and a source entry whose value is not a map. In the source these end in a `ClassCastException` or `NullPointerException`, not a `GramlException`. `Target` cannot express them, so the model has no such inputs.
- Exceptions are returned as `Option<GramlError>` rather than thrown. The null-section check is `Injector.New`, because a Dafny constructor cannot fail.
- Map iteration order: the section and each edge map are sequences, so the order is fixed. Duplicate keys are allowed, which is more general than a Java map.
- Injector.GraphSectionImpl.Inject: requires the cache to agree with the target graph. A freshly constructed injector has an empty cache, so this holds for the one `inject` per load that the reader performs. A second `inject` of the same object into a different, or externally modified, graph is not modelled.
- Concurrent injectors and external writers to the same graph.
