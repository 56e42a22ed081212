/** From the stored grid twin to the solver's arrays: the radial network
    `build_network` derives, and the numbering `_build_pgm_dataset` gives it. */
module GridDataset {
  import opened Base

  type ElementId = int

  datatype TwinNode = TwinNode(id: ElementId, transformer: bool, parent: Option<ElementId>, feeder: int, rating: Option<int>)

  datatype Edge = Edge(id: ElementId, from: ElementId, to: ElementId, rating: Option<int>)

  datatype Network = Network(nodes: seq<TwinNode>, lines: seq<Edge>, transformers: seq<Edge>)

  function NodeIds(nodes: seq<TwinNode>): (ids: set<ElementId>)
    ensures forall i :: 0 <= i < |nodes| ==> nodes[i].id in ids
  {
    set i | 0 <= i < |nodes| :: nodes[i].id
  }

  predicate DistinctNodes(nodes: seq<TwinNode>) {
    forall i, j :: 0 <= i < j < |nodes| ==> nodes[i].id != nodes[j].id
  }

  predicate DistinctEdges(edges: seq<Edge>) {
    forall i, j :: 0 <= i < j < |edges| ==> edges[i].id != edges[j].id
  }

  predicate EndpointsIn(edges: seq<Edge>, ids: set<ElementId>) {
    forall i :: 0 <= i < |edges| ==> edges[i].from in ids && edges[i].to in ids
  }

  predicate WellFormed(n: Network) {
    DistinctNodes(n.nodes) && DistinctEdges(n.lines + n.transformers)
    && EndpointsIn(n.lines + n.transformers, NodeIds(n.nodes))
  }

  // ---- build_network -------------------------------------------------------

  function OfFeeder(nodes: seq<TwinNode>, feeder: Option<int>): (r: seq<TwinNode>)
    ensures DistinctNodes(nodes) ==> DistinctNodes(r)
    ensures forall i :: 0 <= i < |r| ==> r[i] in nodes
  {
    if |nodes| == 0 then []
    else
      var front, last := OfFeeder(nodes[..|nodes| - 1], feeder), nodes[|nodes| - 1];
      assert nodes == nodes[..|nodes| - 1] + [last];
      if feeder.None? || last.feeder == feeder.value then front + [last] else front
  }

  predicate HasParent(n: TwinNode, ids: set<ElementId>) {
    n.parent.Some? && n.parent.value in ids
  }

  /** An edge stands for a node with a parent in the network, of one kind. */
  predicate IsEdge(e: Edge, n: TwinNode, ids: set<ElementId>, transformer: bool) {
    HasParent(n, ids) && n.transformer == transformer && e == Edge(n.id, n.parent.value, n.id, n.rating)
  }

  /** The edges of one kind, in node order. */
  function EdgesFrom(nodes: seq<TwinNode>, ids: set<ElementId>, transformer: bool): (r: seq<Edge>)
    ensures forall i :: 0 <= i < |r| ==> exists k :: 0 <= k < |nodes| && IsEdge(r[i], nodes[k], ids, transformer)
  {
    if |nodes| == 0 then []
    else
      var front, last := EdgesFrom(nodes[..|nodes| - 1], ids, transformer), nodes[|nodes| - 1];
      assert forall k :: 0 <= k < |nodes| - 1 ==> nodes[..|nodes| - 1][k] == nodes[k];
      if HasParent(last, ids) && last.transformer == transformer then
        var edge := Edge(last.id, last.parent.value, last.id, last.rating);
        assert IsEdge(edge, last, ids, transformer);
        front + [edge]
      else front
  }

  /** The nodes without a parent in the network. */
  function Rootless(nodes: seq<TwinNode>, ids: set<ElementId>): (r: seq<TwinNode>)
    ensures forall i :: 0 <= i < |r| ==> r[i] in nodes && !HasParent(r[i], ids)
  {
    if |nodes| == 0 then []
    else
      var front, last := Rootless(nodes[..|nodes| - 1], ids), nodes[|nodes| - 1];
      if HasParent(last, ids) then front else front + [last]
  }

  /** `build_network`: one edge for each node whose parent is in the network, a
      transformer for a transformer node and a line for any other. */
  method BuildNetwork(stored: seq<TwinNode>, feeder: Option<int>) returns (n: Network)
    ensures n.nodes == OfFeeder(stored, feeder)
    ensures n.lines == EdgesFrom(n.nodes, NodeIds(n.nodes), false)
    ensures n.transformers == EdgesFrom(n.nodes, NodeIds(n.nodes), true)
  {
    var nodes := OfFeeder(stored, feeder);
    var ids := NodeIds(nodes);
    var lines: seq<Edge> := [];
    var transformers: seq<Edge> := [];
    var i := 0;
    while i < |nodes|
      invariant 0 <= i <= |nodes|
      invariant lines == EdgesFrom(nodes[..i], ids, false)
      invariant transformers == EdgesFrom(nodes[..i], ids, true)
    {
      var node := nodes[i];
      assert nodes[..i + 1][..i] == nodes[..i];
      if HasParent(node, ids) {
        var edge := Edge(node.id, node.parent.value, node.id, node.rating);
        if node.transformer {
          transformers := transformers + [edge];
        } else {
          lines := lines + [edge];
        }
      }
      i := i + 1;
    }
    assert nodes[..i] == nodes;
    n := Network(nodes, lines, transformers);
  }

  /** The network of distinct stored nodes is well formed: edge ids are distinct
      over both kinds, every endpoint is one of its nodes, and each node is either
      a root or the far end of exactly one edge. */
  lemma BuiltNetworkIsWellFormed(nodes: seq<TwinNode>)
    requires DistinctNodes(nodes)
    ensures var ids := NodeIds(nodes);
      var lines, transformers := EdgesFrom(nodes, ids, false), EdgesFrom(nodes, ids, true);
      && WellFormed(Network(nodes, lines, transformers))
      && |lines| + |transformers| + |Rootless(nodes, ids)| == |nodes|
  {
    var ids := NodeIds(nodes);
    var lines, transformers := EdgesFrom(nodes, ids, false), EdgesFrom(nodes, ids, true);
    KindDistinct(nodes, ids, false);
    KindDistinct(nodes, ids, true);
    EdgeCount(nodes, ids);
    forall i, j | 0 <= i < |lines| && 0 <= j < |transformers| ensures lines[i].id != transformers[j].id {
      var k :| 0 <= k < |nodes| && IsEdge(lines[i], nodes[k], ids, false);
      var m :| 0 <= m < |nodes| && IsEdge(transformers[j], nodes[m], ids, true);
      assert k != m;
    }
    EndpointsKnown(nodes, ids, false);
    EndpointsKnown(nodes, ids, true);
  }

  /** The edges of a kind are exactly the steps of the hierarchy to nodes of that
      kind: from the parent to the node, under the node's own id and rating. */
  lemma {:induction false} EdgesAreSteps(nodes: seq<TwinNode>, ids: set<ElementId>, transformer: bool, e: Edge)
    ensures e in EdgesFrom(nodes, ids, transformer) <==>
      exists k :: 0 <= k < |nodes| && nodes[k].transformer == transformer && nodes[k].parent == Some(e.from) && e.from in ids
                  && e.to == nodes[k].id && e.id == nodes[k].id && e.rating == nodes[k].rating
  {
    if |nodes| > 0 {
      var n := |nodes| - 1;
      EdgesAreSteps(nodes[..n], ids, transformer, e);
      var front := EdgesFrom(nodes[..n], ids, transformer);
      assert forall k :: 0 <= k < n ==> nodes[..n][k] == nodes[k];
      var step := if nodes[n].parent.Some? then Edge(nodes[n].id, nodes[n].parent.value, nodes[n].id, nodes[n].rating) else e;
      assert e in EdgesFrom(nodes, ids, transformer) <==>
        e in front || (HasParent(nodes[n], ids) && nodes[n].transformer == transformer && e == step);
    }
  }

  /** The nodes of a feeder are the stored ones that belong to it. */
  lemma {:induction false} FeederExactly(nodes: seq<TwinNode>, feeder: Option<int>, node: TwinNode)
    ensures node in OfFeeder(nodes, feeder) <==> node in nodes && (feeder == None || feeder == Some(node.feeder))
  {
    if |nodes| > 0 {
      FeederExactly(nodes[..|nodes| - 1], feeder, node);
      assert nodes == nodes[..|nodes| - 1] + [nodes[|nodes| - 1]];
    }
  }

  /** The slack buses are the nodes without a parent in the network, or the first
      node when every node has one. */
  lemma SlackExactly(n: Network, node: TwinNode)
    requires |n.nodes| > 0
    ensures node in SlackNodes(n) <==>
      if exists k :: 0 <= k < |n.nodes| && Orphan(n.nodes[k], n.nodes)
      then node in n.nodes && Orphan(node, n.nodes)
      else node == n.nodes[0]
  {
    hide NodeIds;
    var ids := NodeIds(n.nodes);
    forall m: TwinNode ensures HasParent(m, ids) <==> !Orphan(m, n.nodes) {
      OrphanIff(m, n.nodes);
    }
    RootlessExactly(n.nodes, ids);
    var roots := Rootless(n.nodes, ids);
    if |roots| > 0 {
      assert roots[0] in roots;
      var k :| 0 <= k < |n.nodes| && n.nodes[k] == roots[0];
      assert Orphan(n.nodes[k], n.nodes);
    }
    if k :| 0 <= k < |n.nodes| && Orphan(n.nodes[k], n.nodes) {
      assert n.nodes[k] in roots;
    }
  }

  /** No node of the network is its parent. */
  predicate Orphan(node: TwinNode, nodes: seq<TwinNode>) {
    forall k :: 0 <= k < |nodes| ==> node.parent != Some(nodes[k].id)
  }

  lemma OrphanIff(node: TwinNode, nodes: seq<TwinNode>)
    ensures HasParent(node, NodeIds(nodes)) <==> !Orphan(node, nodes)
  {
  }

  lemma {:induction false} RootlessExactly(nodes: seq<TwinNode>, ids: set<ElementId>)
    ensures forall node :: node in Rootless(nodes, ids) <==> node in nodes && !HasParent(node, ids)
  {
    if |nodes| > 0 {
      RootlessExactly(nodes[..|nodes| - 1], ids);
      assert nodes == nodes[..|nodes| - 1] + [nodes[|nodes| - 1]];
    }
  }

  lemma EndpointsKnown(nodes: seq<TwinNode>, ids: set<ElementId>, transformer: bool)
    requires ids == NodeIds(nodes)
    ensures EndpointsIn(EdgesFrom(nodes, ids, transformer), ids)
  {
    var edges := EdgesFrom(nodes, ids, transformer);
    forall i | 0 <= i < |edges| ensures edges[i].from in ids && edges[i].to in ids {
      var k :| 0 <= k < |nodes| && IsEdge(edges[i], nodes[k], ids, transformer);
    }
  }

  lemma {:induction false} KindDistinct(nodes: seq<TwinNode>, ids: set<ElementId>, transformer: bool)
    requires DistinctNodes(nodes)
    ensures DistinctEdges(EdgesFrom(nodes, ids, transformer))
  {
    if |nodes| > 0 {
      var n := |nodes| - 1;
      KindDistinct(nodes[..n], ids, transformer);
      var front := EdgesFrom(nodes[..n], ids, transformer);
      forall i | 0 <= i < |front| ensures front[i].id != nodes[n].id {
        var k :| 0 <= k < n && IsEdge(front[i], nodes[..n][k], ids, transformer);
        assert nodes[..n][k] == nodes[k];
      }
    }
  }

  lemma {:induction false} EdgeCount(nodes: seq<TwinNode>, ids: set<ElementId>)
    ensures |EdgesFrom(nodes, ids, false)| + |EdgesFrom(nodes, ids, true)| + |Rootless(nodes, ids)| == |nodes|
  {
    if |nodes| > 0 {
      EdgeCount(nodes[..|nodes| - 1], ids);
    }
  }

  // ---- numbering -----------------------------------------------------------

  datatype Injection = Injection(node: ElementId, kw: int)

  datatype Source = Source(id: int, node: int)

  datatype Branch = Branch(id: int, from: int, to: int)

  datatype Appliance = Appliance(id: int, node: int, kw: int)

  datatype Dataset = Dataset(
    nodes: seq<int>, sources: seq<Source>, lines: seq<Branch>, transformers: seq<Branch>,
    gens: seq<Appliance>, loads: seq<Appliance>)

  datatype Built = Built(data: Dataset, nodeOf: map<ElementId, int>, edgeOf: map<ElementId, int>, next: int)

  datatype GridError = NoNodes

  function Range(from: int, n: nat): seq<int> {
    seq(n, i => from + i)
  }

  function SourceIds(xs: seq<Source>): seq<int> {
    seq(|xs|, i requires 0 <= i < |xs| => xs[i].id)
  }

  function BranchIds(xs: seq<Branch>): seq<int> {
    seq(|xs|, i requires 0 <= i < |xs| => xs[i].id)
  }

  function ApplianceIds(xs: seq<Appliance>): seq<int> {
    seq(|xs|, i requires 0 <= i < |xs| => xs[i].id)
  }

  function Powers(xs: seq<Appliance>): seq<int> {
    seq(|xs|, i requires 0 <= i < |xs| => xs[i].kw)
  }

  function AllIds(d: Dataset): seq<int> {
    d.nodes + BranchIds(d.lines) + BranchIds(d.transformers) + SourceIds(d.sources) + ApplianceIds(d.gens) + ApplianceIds(d.loads)
  }

  predicate Numbered(numbers: map<ElementId, int>, ids: seq<ElementId>, from: int) {
    (forall i :: 0 <= i < |ids| ==> ids[i] in numbers && numbers[ids[i]] == from + i)
    && (forall id :: id in numbers ==> id in ids)
  }

  function IdsOfNodes(nodes: seq<TwinNode>): seq<ElementId> {
    seq(|nodes|, i requires 0 <= i < |nodes| => nodes[i].id)
  }

  function IdsOfEdges(edges: seq<Edge>): seq<ElementId> {
    seq(|edges|, i requires 0 <= i < |edges| => edges[i].id)
  }

  /** Hand out consecutive numbers. */
  method Number(ids: seq<ElementId>, from: int) returns (numbers: map<ElementId, int>, next: int)
    requires forall i, j :: 0 <= i < j < |ids| ==> ids[i] != ids[j]
    ensures Numbered(numbers, ids, from) && next == from + |ids|
  {
    numbers, next := map[], from;
    var i := 0;
    while i < |ids|
      invariant 0 <= i <= |ids| && next == from + i
      invariant Numbered(numbers, ids[..i], from)
    {
      numbers := numbers[ids[i] := next];
      next := next + 1;
      i := i + 1;
    }
    assert ids[..i] == ids;
  }

  predicate BranchesFor(branches: seq<Branch>, edges: seq<Edge>, nodeOf: map<ElementId, int>, from: int) {
    |branches| == |edges| && forall i :: 0 <= i < |edges| ==>
      (branches[i].id == from + i
       && edges[i].from in nodeOf && branches[i].from == nodeOf[edges[i].from]
       && edges[i].to in nodeOf && branches[i].to == nodeOf[edges[i].to])
  }

  method MakeBranches(edges: seq<Edge>, nodeOf: map<ElementId, int>, edgeOf: map<ElementId, int>, ghost from: int) returns (branches: seq<Branch>)
    requires forall i :: 0 <= i < |edges| ==> edges[i].from in nodeOf && edges[i].to in nodeOf
    requires forall i :: 0 <= i < |edges| ==> edges[i].id in edgeOf && edgeOf[edges[i].id] == from + i
    ensures BranchesFor(branches, edges, nodeOf, from)
  {
    branches := [];
    var i := 0;
    while i < |edges|
      invariant 0 <= i <= |edges|
      invariant BranchesFor(branches, edges[..i], nodeOf, from)
    {
      branches := branches + [Branch(edgeOf[edges[i].id], nodeOf[edges[i].from], nodeOf[edges[i].to])];
      i := i + 1;
    }
    assert edges[..i] == edges;
  }

  function Kept(injections: seq<Injection>, ids: set<ElementId>, gen: bool): (r: seq<Injection>)
    ensures forall i :: 0 <= i < |r| ==> r[i] in injections && r[i].node in ids && (gen <==> r[i].kw > 0)
  {
    if |injections| == 0 then []
    else
      var front, last := Kept(injections[..|injections| - 1], ids, gen), injections[|injections| - 1];
      if last.node in ids && (gen <==> last.kw > 0) then front + [last] else front
  }

  /** An injection at a known node that is generation, or that is not. */
  predicate Wanted(x: Injection, ids: set<ElementId>, gen: bool) {
    x.node in ids && (gen <==> x.kw > 0)
  }

  /** Every injection at a known node is kept once, as generation if it is positive
      and as load otherwise, and no other is. */
  lemma KeptExactly(injections: seq<Injection>, ids: set<ElementId>, gen: bool)
    ensures |Kept(injections, ids, gen)| == |set i | 0 <= i < |injections| && Wanted(injections[i], ids, gen)|
    ensures forall x :: x in Kept(injections, ids, gen) <==> x in injections && Wanted(x, ids, gen)
  {
    hide Kept, Wanted;
    KeptCount(injections, ids, gen);
    KeptMembers(injections, ids, gen);
  }

  lemma {:induction false} KeptCount(injections: seq<Injection>, ids: set<ElementId>, gen: bool)
    ensures |Kept(injections, ids, gen)| == |set i | 0 <= i < |injections| && Wanted(injections[i], ids, gen)|
  {
    hide Kept, Wanted;
    var all := set i | 0 <= i < |injections| && Wanted(injections[i], ids, gen);
    if |injections| > 0 {
      var n := |injections| - 1;
      KeptCount(injections[..n], ids, gen);
      KeptStep(injections, ids, gen);
      var front := set i | 0 <= i < n && Wanted(injections[..n][i], ids, gen);
      assert n !in front;
      assert all == if Wanted(injections[n], ids, gen) then front + {n} else front;
    } else {
      NothingKept(ids, gen);
      assert all == {};
      assert injections == [];
    }
  }

  lemma NothingKept(ids: set<ElementId>, gen: bool)
    ensures Kept([], ids, gen) == []
  {
  }

  lemma {:induction false} KeptMembers(injections: seq<Injection>, ids: set<ElementId>, gen: bool)
    ensures forall x :: x in Kept(injections, ids, gen) <==> x in injections && Wanted(x, ids, gen)
  {
    hide Kept, Wanted;
    NothingKept(ids, gen);
    if |injections| > 0 {
      var n := |injections| - 1;
      KeptMembers(injections[..n], ids, gen);
      KeptStep(injections, ids, gen);
      assert injections == injections[..n] + [injections[n]];
    } else {
      assert injections == [];
    }
  }

  lemma KeptStep(injections: seq<Injection>, ids: set<ElementId>, gen: bool)
    requires |injections| > 0
    ensures var n := |injections| - 1;
      Kept(injections, ids, gen)
      == Kept(injections[..n], ids, gen) + (if Wanted(injections[n], ids, gen) then [injections[n]] else [])
  {
  }

  predicate AppliancesFor(xs: seq<Appliance>, injections: seq<Injection>, nodeOf: map<ElementId, int>, from: int) {
    |xs| == |injections| && forall i :: 0 <= i < |xs| ==>
      (xs[i].id == from + i && injections[i].node in nodeOf && xs[i].node == nodeOf[injections[i].node]
       && xs[i].kw == if injections[i].kw > 0 then injections[i].kw else -injections[i].kw)
  }

  method MakeAppliances(injections: seq<Injection>, nodeOf: map<ElementId, int>, from: int) returns (xs: seq<Appliance>, next: int)
    requires forall i :: 0 <= i < |injections| ==> injections[i].node in nodeOf
    ensures AppliancesFor(xs, injections, nodeOf, from) && next == from + |xs|
  {
    xs, next := [], from;
    var i := 0;
    while i < |injections|
      invariant 0 <= i <= |injections| && next == from + i
      invariant AppliancesFor(xs, injections[..i], nodeOf, from)
    {
      var injection := injections[i];
      xs := xs + [Appliance(next, nodeOf[injection.node], if injection.kw > 0 then injection.kw else -injection.kw)];
      next := next + 1;
      i := i + 1;
    }
    assert injections[..i] == injections;
  }

  function SlackNodes(n: Network): (r: seq<TwinNode>)
    requires |n.nodes| > 0
    ensures |r| > 0 && forall i :: 0 <= i < |r| ==> r[i] in n.nodes
  {
    var roots := Rootless(n.nodes, NodeIds(n.nodes));
    if |roots| == 0 then [n.nodes[0]] else roots
  }

  predicate SourcesFor(xs: seq<Source>, roots: seq<TwinNode>, nodeOf: map<ElementId, int>, from: int) {
    |xs| == |roots| && forall i :: 0 <= i < |xs| ==>
      (xs[i].id == from + i && roots[i].id in nodeOf && xs[i].node == nodeOf[roots[i].id])
  }

  method MakeSources(roots: seq<TwinNode>, nodeOf: map<ElementId, int>, from: int) returns (xs: seq<Source>, next: int)
    requires forall i :: 0 <= i < |roots| ==> roots[i].id in nodeOf
    ensures SourcesFor(xs, roots, nodeOf, from) && next == from + |xs|
  {
    xs, next := [], from;
    var i := 0;
    while i < |roots|
      invariant 0 <= i <= |roots| && next == from + i
      invariant SourcesFor(xs, roots[..i], nodeOf, from)
    {
      xs := xs + [Source(next, nodeOf[roots[i].id])];
      next := next + 1;
      i := i + 1;
    }
    assert roots[..i] == roots;
  }

  /** What the injections at known nodes add up to. */
  function KnownPowers(injections: seq<Injection>, ids: set<ElementId>): seq<int> {
    seq(|injections|, i requires 0 <= i < |injections| =>
      if injections[i].node in ids then injections[i].kw else 0)
  }

  /** Every array refers to the right elements. */
  predicate Refers(n: Network, injections: seq<Injection>, b: Built, offset: int)
    requires |n.nodes| > 0
  {
    var lines, transformers := offset + 1 + |n.nodes|, offset + 1 + |n.nodes| + |n.lines|;
    var sources := transformers + |n.transformers|;
    && Numbered(b.nodeOf, IdsOfNodes(n.nodes), offset + 1)
    && Numbered(b.edgeOf, IdsOfEdges(n.lines + n.transformers), lines)
    && b.data.nodes == Range(offset + 1, |n.nodes|)
    && BranchesFor(b.data.lines, n.lines, b.nodeOf, lines)
    && BranchesFor(b.data.transformers, n.transformers, b.nodeOf, transformers)
    && SourcesFor(b.data.sources, SlackNodes(n), b.nodeOf, sources)
    && AppliancesFor(b.data.gens, Kept(injections, NodeIds(n.nodes), true), b.nodeOf, sources + |b.data.sources|)
    && AppliancesFor(b.data.loads, Kept(injections, NodeIds(n.nodes), false), b.nodeOf,
                     sources + |b.data.sources| + |b.data.gens|)
    && b.next == sources + |b.data.sources| + |b.data.gens| + |b.data.loads|
  }

  /** `_build_pgm_dataset`. A network without nodes has no slack bus. */
  method BuildDataset(n: Network, injections: seq<Injection>, offset: int) returns (r: Result<Built, GridError>)
    requires WellFormed(n)
    ensures r.Err? <==> n.nodes == []
    ensures r.Ok? ==> Refers(n, injections, r.value, offset)
  {
    hide Kept, Rootless, Numbered, BranchesFor, AppliancesFor, SourcesFor, SlackNodes, IdsOfNodes, IdsOfEdges;
    IdsDistinct(n);
    if |n.nodes| == 0 {
      return Err(NoNodes);
    }
    var ids := NodeIds(n.nodes);
    var nodeOf, current := Number(IdsOfNodes(n.nodes), offset + 1);
    var edgeOf, afterEdges := Number(IdsOfEdges(n.lines + n.transformers), current);
    KnownNumbered(n, nodeOf, offset + 1);
    EdgesNumbered(n, edgeOf, current);
    var sources, afterSources := MakeSources(SlackNodes(n), nodeOf, afterEdges);
    var lines := MakeBranches(n.lines, nodeOf, edgeOf, current);
    var transformers := MakeBranches(n.transformers, nodeOf, edgeOf, current + |n.lines|);
    var gens, afterGens := MakeAppliances(Kept(injections, ids, true), nodeOf, afterSources);
    var loads, next := MakeAppliances(Kept(injections, ids, false), nodeOf, afterGens);
    var data := Dataset(Range(offset + 1, |n.nodes|), sources, lines, transformers, gens, loads);
    r := Ok(Built(data, nodeOf, edgeOf, next));
  }

  lemma IdsDistinct(n: Network)
    requires WellFormed(n)
    ensures var ids := IdsOfNodes(n.nodes);
      |ids| == |n.nodes| && forall i, j :: 0 <= i < j < |ids| ==> ids[i] != ids[j]
    ensures var ids := IdsOfEdges(n.lines + n.transformers);
      |ids| == |n.lines| + |n.transformers| && forall i, j :: 0 <= i < j < |ids| ==> ids[i] != ids[j]
  {
  }

  lemma KnownNumbered(n: Network, nodeOf: map<ElementId, int>, from: int)
    requires Numbered(nodeOf, IdsOfNodes(n.nodes), from)
    ensures forall id :: id in NodeIds(n.nodes) ==> id in nodeOf
    ensures forall node :: node in n.nodes ==> node.id in nodeOf
    ensures EndpointsIn(n.lines + n.transformers, NodeIds(n.nodes)) ==>
      (forall i :: 0 <= i < |n.lines| ==> n.lines[i].from in nodeOf && n.lines[i].to in nodeOf)
      && (forall i :: 0 <= i < |n.transformers| ==> n.transformers[i].from in nodeOf && n.transformers[i].to in nodeOf)
  {
    forall id | id in NodeIds(n.nodes) ensures id in nodeOf {
      var i :| 0 <= i < |n.nodes| && n.nodes[i].id == id;
      assert IdsOfNodes(n.nodes)[i] == id;
    }
    var edges := n.lines + n.transformers;
    assert forall i :: 0 <= i < |n.lines| ==> n.lines[i] == edges[i];
    assert forall i :: 0 <= i < |n.transformers| ==> n.transformers[i] == edges[|n.lines| + i];
  }

  lemma EdgesNumbered(n: Network, edgeOf: map<ElementId, int>, from: int)
    requires Numbered(edgeOf, IdsOfEdges(n.lines + n.transformers), from)
    ensures forall i :: 0 <= i < |n.lines| ==> n.lines[i].id in edgeOf && edgeOf[n.lines[i].id] == from + i
    ensures forall i :: 0 <= i < |n.transformers| ==>
      n.transformers[i].id in edgeOf && edgeOf[n.transformers[i].id] == from + |n.lines| + i
  {
    var ids := IdsOfEdges(n.lines + n.transformers);
    assert forall i :: 0 <= i < |n.lines| ==> n.lines[i].id == ids[i];
    assert forall i :: 0 <= i < |n.transformers| ==> n.transformers[i].id == ids[|n.lines| + i];
  }

  // ---- what the numbering guarantees ---------------------------------------

  /** The solver's ids, over all six arrays, are exactly the numbers after the
      offset and before the returned next one, each used once. */
  lemma IdsAreExactlyTheRange(n: Network, injections: seq<Injection>, b: Built, offset: int)
    requires |n.nodes| > 0 && Refers(n, injections, b, offset)
    ensures b.next > offset && AllIds(b.data) == Range(offset + 1, b.next - offset - 1)
  {
    hide Kept, Rootless, SlackNodes, Numbered, BranchesFor, SourcesFor, AppliancesFor;
    hide BranchIds, SourceIds, ApplianceIds, Range, IdsOfNodes, IdsOfEdges;
    var d, from := b.data, offset + 1;
    var ids := NodeIds(n.nodes);
    var lines := from + |n.nodes|;
    var transformers := lines + |n.lines|;
    var sources := transformers + |n.transformers|;
    BranchNumbers(d.lines, n.lines, b.nodeOf, lines);
    BranchNumbers(d.transformers, n.transformers, b.nodeOf, transformers);
    SourceNumbers(d.sources, SlackNodes(n), b.nodeOf, sources);
    ApplianceNumbers(d.gens, Kept(injections, ids, true), b.nodeOf, sources + |d.sources|);
    ApplianceNumbers(d.loads, Kept(injections, ids, false), b.nodeOf, sources + |d.sources| + |d.gens|);
    RangeConcat(from, |n.nodes|, |d.lines|);
    RangeConcat(from, |n.nodes| + |d.lines|, |d.transformers|);
    RangeConcat(from, |n.nodes| + |d.lines| + |d.transformers|, |d.sources|);
    RangeConcat(from, |n.nodes| + |d.lines| + |d.transformers| + |d.sources|, |d.gens|);
    RangeConcat(from, |n.nodes| + |d.lines| + |d.transformers| + |d.sources| + |d.gens|, |d.loads|);
  }

  lemma BranchNumbers(xs: seq<Branch>, edges: seq<Edge>, nodeOf: map<ElementId, int>, from: int)
    requires BranchesFor(xs, edges, nodeOf, from)
    ensures |xs| == |edges| && BranchIds(xs) == Range(from, |xs|)
  {
  }

  lemma SourceNumbers(xs: seq<Source>, roots: seq<TwinNode>, nodeOf: map<ElementId, int>, from: int)
    requires SourcesFor(xs, roots, nodeOf, from)
    ensures SourceIds(xs) == Range(from, |xs|)
  {
  }

  lemma ApplianceNumbers(xs: seq<Appliance>, injections: seq<Injection>, nodeOf: map<ElementId, int>, from: int)
    requires AppliancesFor(xs, injections, nodeOf, from)
    ensures ApplianceIds(xs) == Range(from, |xs|)
  {
  }

  lemma RangeConcat(from: int, a: nat, b: nat)
    ensures Range(from, a) + Range(from + a, b) == Range(from, a + b)
  {
  }

  /** Generation minus load is what the known nodes inject; nothing is lost,
      doubled or turned round. */
  lemma InjectionsBalance(n: Network, injections: seq<Injection>, b: Built, offset: int)
    requires |n.nodes| > 0 && Refers(n, injections, b, offset)
    ensures Sum(Powers(b.data.gens)) - Sum(Powers(b.data.loads)) == Sum(KnownPowers(injections, NodeIds(n.nodes)))
    ensures forall i :: 0 <= i < |b.data.gens| ==> b.data.gens[i].kw > 0
    ensures forall i :: 0 <= i < |b.data.loads| ==> b.data.loads[i].kw >= 0
  {
    hide Rootless, Kept, AppliancesFor, SourcesFor, BranchesFor, Numbered, SlackNodes, Powers, Signed, KnownPowers, IdsOfNodes, IdsOfEdges;
    var ids := NodeIds(n.nodes);
    var gens, loads := Kept(injections, ids, true), Kept(injections, ids, false);
    var from := offset + 1 + |n.nodes| + |n.lines| + |n.transformers| + |b.data.sources|;
    SignedPowers(b.data.gens, gens, b.nodeOf, from, 1);
    SignedPowers(b.data.loads, loads, b.nodeOf, from + |b.data.gens|, -1);
    KeptBalance(injections, ids);
  }

  lemma SignedPowers(xs: seq<Appliance>, injections: seq<Injection>, nodeOf: map<ElementId, int>, from: int, sign: int)
    requires AppliancesFor(xs, injections, nodeOf, from) && (sign == 1 || sign == -1)
    requires forall i :: 0 <= i < |injections| ==> (sign == 1 <==> injections[i].kw > 0)
    ensures Powers(xs) == Signed(injections, sign)
    ensures forall i :: 0 <= i < |xs| ==> xs[i].kw >= 0 && (sign == 1 ==> xs[i].kw > 0)
  {
  }

  function Signed(injections: seq<Injection>, sign: int): seq<int> {
    seq(|injections|, i requires 0 <= i < |injections| => sign * injections[i].kw)
  }

  lemma {:induction false} KeptBalance(injections: seq<Injection>, ids: set<ElementId>)
    ensures Sum(Signed(Kept(injections, ids, true), 1)) - Sum(Signed(Kept(injections, ids, false), -1))
      == Sum(KnownPowers(injections, ids))
  {
    if |injections| > 0 {
      var m := |injections| - 1;
      var front, last := injections[..m], injections[m];
      KeptBalance(front, ids);
      assert KnownPowers(injections, ids) == KnownPowers(front, ids) + [if last.node in ids then last.kw else 0];
      SumAppend(KnownPowers(front, ids), if last.node in ids then last.kw else 0);
      SignedAppend(Kept(front, ids, true), last, 1);
      SignedAppend(Kept(front, ids, false), last, -1);
    }
  }

  lemma SignedAppend(injections: seq<Injection>, last: Injection, sign: int)
    ensures Sum(Signed(injections + [last], sign)) == Sum(Signed(injections, sign)) + sign * last.kw
  {
    assert Signed(injections + [last], sign) == Signed(injections, sign) + [sign * last.kw];
    SumAppend(Signed(injections, sign), sign * last.kw);
  }

  /** A solver id is the number of exactly this node. */
  predicate Names(n: Network, b: Built, number: int, id: ElementId)
    requires |b.data.nodes| == |n.nodes|
  {
    number in b.data.nodes && forall k :: 0 <= k < |n.nodes| ==> (number == b.data.nodes[k] <==> id == n.nodes[k].id)
  }

  /** Every reference in the arrays is a node id, and the id of the node meant. */
  lemma ReferencesAreNodes(n: Network, injections: seq<Injection>, b: Built, offset: int)
    requires WellFormed(n) && |n.nodes| > 0 && Refers(n, injections, b, offset)
    ensures |b.data.lines| == |n.lines| && |b.data.transformers| == |n.transformers|
    ensures |b.data.nodes| == |n.nodes|
    ensures forall i :: 0 <= i < |n.lines| ==>
      Names(n, b, b.data.lines[i].from, n.lines[i].from) && Names(n, b, b.data.lines[i].to, n.lines[i].to)
    ensures forall i :: 0 <= i < |n.transformers| ==>
      (Names(n, b, b.data.transformers[i].from, n.transformers[i].from)
       && Names(n, b, b.data.transformers[i].to, n.transformers[i].to))
    ensures var roots := SlackNodes(n);
      |b.data.sources| == |roots| && forall i :: 0 <= i < |roots| ==> Names(n, b, b.data.sources[i].node, roots[i].id)
    ensures var gens := Kept(injections, NodeIds(n.nodes), true);
      |b.data.gens| == |gens| && forall i :: 0 <= i < |gens| ==> Names(n, b, b.data.gens[i].node, gens[i].node)
    ensures var loads := Kept(injections, NodeIds(n.nodes), false);
      |b.data.loads| == |loads| && forall i :: 0 <= i < |loads| ==> Names(n, b, b.data.loads[i].node, loads[i].node)
  {
    hide Kept, Rootless, SlackNodes, Names;
    forall id | id in b.nodeOf ensures Names(n, b, b.nodeOf[id], id) {
      NumberNames(n, b, offset, id);
    }
  }

  lemma NumberNames(n: Network, b: Built, offset: int, id: ElementId)
    requires DistinctNodes(n.nodes) && Numbered(b.nodeOf, IdsOfNodes(n.nodes), offset + 1) && id in b.nodeOf
    requires b.data.nodes == Range(offset + 1, |n.nodes|)
    ensures Names(n, b, b.nodeOf[id], id)
  {
    NumberIsNode(n, b, offset, id);
    forall k | 0 <= k < |n.nodes| ensures b.nodeOf[id] == b.data.nodes[k] <==> id == n.nodes[k].id {
      assert IdsOfNodes(n.nodes)[k] == n.nodes[k].id;
    }
  }

  lemma NumberIsNode(n: Network, b: Built, offset: int, id: ElementId)
    requires Numbered(b.nodeOf, IdsOfNodes(n.nodes), offset + 1) && id in b.nodeOf
    requires b.data.nodes == Range(offset + 1, |n.nodes|)
    ensures b.nodeOf[id] in b.data.nodes
    ensures exists k :: 0 <= k < |n.nodes| && n.nodes[k].id == id && b.nodeOf[id] == offset + 1 + k
  {
    var ids := IdsOfNodes(n.nodes);
    var k :| 0 <= k < |ids| && ids[k] == id;
    assert n.nodes[k].id == id && b.data.nodes[k] == offset + 1 + k;
  }

  /** The reverse map the results are read through. */
  function Reverse(edges: seq<Edge>, edgeOf: map<ElementId, int>): map<int, ElementId>
    requires forall i :: 0 <= i < |edges| ==> edges[i].id in edgeOf
  {
    if |edges| == 0 then map[]
    else
      var last := edges[|edges| - 1];
      Reverse(edges[..|edges| - 1], edgeOf)[edgeOf[last.id] := last.id]
  }

  /** A number leads back to the edge it was given to, and to no other. */
  lemma ReverseInverts(n: Network, injections: seq<Injection>, b: Built, offset: int)
    requires WellFormed(n) && |n.nodes| > 0 && Refers(n, injections, b, offset)
    requires forall i :: 0 <= i < |n.lines| ==> n.lines[i].id in b.edgeOf
    requires forall i :: 0 <= i < |n.transformers| ==> n.transformers[i].id in b.edgeOf
    ensures var lines := Reverse(n.lines, b.edgeOf);
      && (forall i :: 0 <= i < |n.lines| ==> b.data.lines[i].id in lines && lines[b.data.lines[i].id] == n.lines[i].id)
      && (forall i :: 0 <= i < |n.transformers| ==> b.data.transformers[i].id !in lines)
    ensures var transformers := Reverse(n.transformers, b.edgeOf);
      && (forall i :: 0 <= i < |n.transformers| ==>
            b.data.transformers[i].id in transformers && transformers[b.data.transformers[i].id] == n.transformers[i].id)
      && (forall i :: 0 <= i < |n.lines| ==> b.data.lines[i].id !in transformers)
  {
    hide Kept, Rootless, Reverse, Numbered, WellFormed, SlackNodes, AppliancesFor, SourcesFor;
    var from := offset + 1 + |n.nodes|;
    EdgesNumbered(n, b.edgeOf, from);
    ReverseRange(n.lines, b.edgeOf, from);
    ReverseRange(n.transformers, b.edgeOf, from + |n.lines|);
  }

  lemma {:induction false} ReverseRange(edges: seq<Edge>, edgeOf: map<ElementId, int>, from: int)
    requires forall i :: 0 <= i < |edges| ==> edges[i].id in edgeOf && edgeOf[edges[i].id] == from + i
    ensures forall id :: id in Reverse(edges, edgeOf) <==> from <= id < from + |edges|
    ensures forall i :: 0 <= i < |edges| ==> Reverse(edges, edgeOf)[from + i] == edges[i].id
  {
    if |edges| > 0 {
      ReverseRange(edges[..|edges| - 1], edgeOf, from);
    }
  }
}
