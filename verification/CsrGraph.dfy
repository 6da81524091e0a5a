/** The in-memory compressed-sparse-row graph (liva-native-core/src/db/csr_graph.rs 21-258).
    Node properties, lower-cased copies and ranking are not modelled; weights are reals. */
module CsrGraph {
  import opened GraphTables

  datatype Arc = Arc(target: nat, relation: string, weight: real)

  // ---------------------------------------------------------------- row normalisation

  function Positive(w: real): real { if w > 0.0 then w else 0.0 }

  function Total(row: seq<Arc>): (s: real)
    ensures s >= 0.0
  {
    if row == [] then 0.0 else Total(row[..|row| - 1]) + Positive(row[|row| - 1].weight)
  }

  /** The transition probability stored for the i-th arc of a row. */
  function Share(row: seq<Arc>, i: nat): real
    requires i < |row|
  {
    Portion(Positive(row[i].weight), Total(row), |row|)
  }

  function Portion(w: real, total: real, count: nat): real
    requires count > 0
  {
    if total > 0.0 then w / total else 1.0 / (count as real)
  }

  function Sum(xs: seq<real>): real {
    if xs == [] then 0.0 else Sum(xs[..|xs| - 1]) + xs[|xs| - 1]
  }

  function Shares(row: seq<Arc>): seq<real> { seq(|row|, i requires 0 <= i < |row| => Share(row, i)) }

  lemma {:induction false} ScaledSum(row: seq<Arc>, scale: real, xs: seq<real>)
    requires scale > 0.0 && |xs| == |row|
    requires forall i :: 0 <= i < |row| ==> xs[i] == Positive(row[i].weight) / scale
    ensures Sum(xs) == Total(row) / scale
  {
    if row != [] {
      var n := |row| - 1;
      ScaledSum(row[..n], scale, xs[..n]);
      assert Total(row[..n]) / scale + Positive(row[n].weight) / scale == Total(row) / scale;
    }
  }

  lemma {:induction false} ConstantSum(n: nat, c: real, xs: seq<real>)
    requires |xs| == n && forall i :: 0 <= i < n ==> xs[i] == c
    ensures Sum(xs) == (n as real) * c
  {
    if n > 0 {
      ConstantSum(n - 1, c, xs[..n - 1]);
    }
  }

  lemma PositiveRow(row: seq<Arc>)
    requires row != [] && Total(row) > 0.0
    ensures Sum(Shares(row)) == 1.0
  {
    ScaledSum(row, Total(row), Shares(row));
    SelfQuotient(Total(row));
  }

  lemma SelfQuotient(x: real)
    requires x > 0.0
    ensures x / x == 1.0
  {
  }

  lemma UniformRow(row: seq<Arc>)
    requires row != [] && Total(row) <= 0.0
    ensures Sum(Shares(row)) == 1.0
  {
    var n := |row| as real;
    var c := 1.0 / n;
    ConstantSum(|row|, c, Shares(row));
    assert n * c == 1.0;
  }

  /** Every non-empty row is a probability distribution, whatever its raw weights. */
  lemma RowIsStochastic(row: seq<Arc>)
    requires row != []
    ensures Sum(Shares(row)) == 1.0
    ensures forall i :: 0 <= i < |row| ==> 0.0 <= Share(row, i)
  {
    if Total(row) > 0.0 { PositiveRow(row); } else { UniformRow(row); }
    forall i | 0 <= i < |row| ensures 0.0 <= Share(row, i) {
      if Total(row) > 0.0 {
        QuotientNonNegative(Positive(row[i].weight), Total(row));
      } else {
        QuotientNonNegative(1.0, |row| as real);
      }
    }
  }

  /** ... with the positive weights in proportion; where no weight is positive, all arcs are equal. */
  lemma SharesAreProportional(row: seq<Arc>, i: nat, j: nat)
    requires i < |row| && j < |row|
    ensures row[j].weight > 0.0 ==>
      Share(row, i) * row[j].weight == Share(row, j) * (if row[i].weight > 0.0 then row[i].weight else 0.0)
    ensures (forall k :: 0 <= k < |row| ==> row[k].weight <= 0.0) ==> Share(row, i) == Share(row, j)
  {
    TotalIsPositive(row);
    if Total(row) > 0.0 {
      CrossProduct(Positive(row[i].weight), Positive(row[j].weight), Total(row));
    } else if row[j].weight > 0.0 {
      assert false;
    }
  }

  lemma {:induction false} TotalIsPositive(row: seq<Arc>)
    ensures Total(row) > 0.0 <==> exists k :: 0 <= k < |row| && row[k].weight > 0.0
  {
    if row != [] {
      var n := |row| - 1;
      TotalIsPositive(row[..n]);
      if k :| 0 <= k < |row| && row[k].weight > 0.0 {
        if k < n { assert row[..n][k].weight > 0.0; }
      }
      if k :| 0 <= k < n && row[..n][k].weight > 0.0 { assert row[k].weight > 0.0; }
    }
  }

  lemma CrossProduct(a: real, b: real, t: real)
    requires t > 0.0
    ensures a / t * b == b / t * a
  {
  }

  lemma QuotientNonNegative(a: real, b: real)
    requires a >= 0.0 && b > 0.0
    ensures a / b >= 0.0
  {
  }

  // ---------------------------------------------------------------- flat arrays

  /** The three parallel arrays hold `row`, normalised, from position `p` on. */
  ghost predicate RowAt(row: seq<Arc>, p: nat, cols: seq<nat>, rels: seq<string>, weights: seq<real>) {
    && |cols| == |rels| == |weights| && p + |row| <= |cols|
    && forall i :: 0 <= i < |row| ==>
         && cols[p + i] == row[i].target && rels[p + i] == row[i].relation && weights[p + i] == Share(row, i)
  }

  /** The flat arrays hold the adjacency rows one after the other and nothing else. */
  ghost predicate Flattens(adj: seq<seq<Arc>>, rowPtr: seq<nat>, cols: seq<nat>, rels: seq<string>, weights: seq<real>) {
    && |rowPtr| == |adj| + 1 && rowPtr[0] == 0
    && |cols| == |rels| == |weights| == rowPtr[|adj|]
    && (forall u :: 0 <= u < |adj| ==> rowPtr[u + 1] == rowPtr[u] + |adj[u]|)
    && (forall u :: 0 <= u < |adj| ==> RowAt(adj[u], rowPtr[u], cols, rels, weights))
  }

  lemma RowAtStays(row: seq<Arc>, p: nat, cols0: seq<nat>, rels0: seq<string>, weights0: seq<real>,
                   cols: seq<nat>, rels: seq<string>, weights: seq<real>)
    requires RowAt(row, p, cols0, rels0, weights0)
    requires cols0 <= cols && rels0 <= rels && weights0 <= weights && |cols| == |rels| == |weights|
    ensures RowAt(row, p, cols, rels, weights)
  {
    forall i | 0 <= i < |row|
      ensures cols[p + i] == row[i].target && rels[p + i] == row[i].relation && weights[p + i] == Share(row, i)
    {
      assert cols[p + i] == cols0[p + i] && rels[p + i] == rels0[p + i] && weights[p + i] == weights0[p + i];
    }
  }

  lemma FlattenRow(adj: seq<seq<Arc>>, row: seq<Arc>, rowPtr: seq<nat>,
                   cols0: seq<nat>, rels0: seq<string>, weights0: seq<real>,
                   cols: seq<nat>, rels: seq<string>, weights: seq<real>)
    requires Flattens(adj, rowPtr, cols0, rels0, weights0)
    requires cols0 <= cols && rels0 <= rels && weights0 <= weights
    requires |cols| == |cols0| + |row| && RowAt(row, |cols0|, cols, rels, weights)
    ensures Flattens(adj + [row], rowPtr + [rowPtr[|adj|] + |row|], cols, rels, weights)
  {
    var all, ptr := adj + [row], rowPtr + [rowPtr[|adj|] + |row|];
    forall u | 0 <= u < |all|
      ensures ptr[u + 1] == ptr[u] + |all[u]| && RowAt(all[u], ptr[u], cols, rels, weights)
    {
      if u < |adj| {
        RowAtStays(adj[u], rowPtr[u], cols0, rels0, weights0, cols, rels, weights);
      }
    }
  }

  // ---------------------------------------------------------------- node and adjacency lists

  predicate Joins(a: Arc, v: nat, relation: string) { a.target == v && a.relation == relation }

  datatype Lists = Lists(index: map<string, nat>, ids: seq<string>, labels: seq<string>, adjacency: seq<seq<Arc>>)
  {
    /** Slots and names are inverse to each other and labelled. */
    ghost predicate Nodes(g: Graph) {
      && |labels| == |ids|
      && (forall i :: 0 <= i < |ids| ==> ids[i] in index && index[ids[i]] == i)
      && (forall id :: id in index ==> index[id] < |ids| && ids[index[id]] == id)
      && g.labels.Keys == index.Keys
      && (forall id :: id in index ==> g.labels[id] == labels[index[id]])
    }

    /** Row `u` has an arc to `v` with this relation exactly when the graph has it, once, same weight. */
    ghost predicate Row(g: Graph, u: nat)
      requires u < |ids| && u < |adjacency|
    {
      && (forall i :: 0 <= i < |adjacency[u]| ==> adjacency[u][i].target < |ids|)
      && (forall i :: 0 <= i < |adjacency[u]| ==>
            var k := EdgeKey(ids[u], ids[adjacency[u][i].target], adjacency[u][i].relation);
            k in g.arcs && g.arcs[k] == adjacency[u][i].weight)
      && (forall v, relation :: 0 <= v < |ids| && EdgeKey(ids[u], ids[v], relation) in g.arcs ==>
            HasArc(adjacency[u], v, relation))
      && (forall i, j :: 0 <= i < j < |adjacency[u]| ==> !Joins(adjacency[u][j], adjacency[u][i].target, adjacency[u][i].relation))
    }

    /** A graph that may be extended: it owns one adjacency list per node. */
    ghost predicate Denotes(g: Graph) {
      && Nodes(g) && |adjacency| == |ids|
      && (forall u :: 0 <= u < |ids| ==> Row(g, u))
      && (forall k :: k in g.arcs ==> k.source in index && k.target in index)
    }

    function Relabel(id: string, name: string): Lists
      requires id in index && index[id] < |labels|
    {
      this.(labels := labels[index[id] := name])
    }

    function Append(id: string, name: string): Lists {
      Lists(index[id := |ids|], ids + [id], labels + [name], adjacency + [[]])
    }

    function PutArc(u: nat, at: nat, arc: Arc): Lists
      requires u < |adjacency| && at <= |adjacency[u]|
    {
      var row := adjacency[u];
      this.(adjacency := adjacency[u := if at < |row| then row[at := arc] else row + [arc]])
    }
  }

  ghost predicate HasArc(row: seq<Arc>, v: nat, relation: string) {
    exists i :: 0 <= i < |row| && Joins(row[i], v, relation)
  }

  lemma RelabelDenotes(l: Lists, g: Graph, id: string, name: string)
    requires l.Denotes(g) && id in l.index
    ensures l.Relabel(id, name).Denotes(g.AddNode(id, name))
  {
    var m, h := l.Relabel(id, name), g.AddNode(id, name);
    forall u | 0 <= u < |m.ids| ensures m.Row(h, u) { assert l.Row(g, u); }
  }

  lemma AppendNodes(l: Lists, g: Graph, id: string, name: string)
    requires l.Denotes(g) && id !in l.index
    ensures l.Append(id, name).Nodes(g.AddNode(id, name))
  {
    var m := l.Append(id, name);
    assert forall i :: 0 <= i < |l.ids| ==> m.ids[i] == l.ids[i] && m.labels[i] == l.labels[i] && l.ids[i] in l.index;
  }

  lemma AppendRow(l: Lists, g: Graph, id: string, name: string, u: nat)
    requires l.Denotes(g) && id !in l.index && u < |l.ids|
    ensures l.Append(id, name).Row(g.AddNode(id, name), u)
  {
    var m := l.Append(id, name);
    assert l.Row(g, u) && m.adjacency[u] == l.adjacency[u];
    forall v, relation | 0 <= v < |m.ids| && EdgeKey(m.ids[u], m.ids[v], relation) in g.arcs
      ensures HasArc(m.adjacency[u], v, relation)
    {
      assert m.ids[v] in l.index;
    }
  }

  lemma AppendDenotes(l: Lists, g: Graph, id: string, name: string)
    requires l.Denotes(g) && id !in l.index
    ensures l.Append(id, name).Denotes(g.AddNode(id, name))
  {
    var m, h := l.Append(id, name), g.AddNode(id, name);
    AppendNodes(l, g, id, name);
    forall u | 0 <= u < |m.ids| ensures m.Row(h, u) {
      if u < |l.ids| { AppendRow(l, g, id, name, u); } else { assert m.adjacency[u] == []; }
    }
  }

  /** Where the linear search of `add_or_update_adjacency` stops. */
  ghost predicate FirstJoin(row: seq<Arc>, at: nat, v: nat, relation: string) {
    && at <= |row|
    && (forall i :: 0 <= i < at ==> !Joins(row[i], v, relation))
    && (at < |row| ==> Joins(row[at], v, relation))
  }

  lemma PutArcDenotes(l: Lists, g: Graph, u: nat, v: nat, relation: string, weight: real, at: nat)
    requires l.Denotes(g) && u < |l.ids| && v < |l.ids| && FirstJoin(l.adjacency[u], at, v, relation)
    ensures l.PutArc(u, at, Arc(v, relation, weight))
              .Denotes(Graph(g.labels, g.arcs[EdgeKey(l.ids[u], l.ids[v], relation) := weight]))
  {
    var arc, key := Arc(v, relation, weight), EdgeKey(l.ids[u], l.ids[v], relation);
    var m, h := l.PutArc(u, at, arc), Graph(g.labels, g.arcs[key := weight]);
    forall w | 0 <= w < |m.ids| ensures m.Row(h, w) {
      assert l.Row(g, w);
      if w == u {
        PutInRow(l, g, u, v, relation, weight, at);
      } else {
        assert l.ids[w] != l.ids[u];
      }
    }
  }

  /** The graph's arcs out of `u` are all found in the changed row. */
  lemma PutKeepsArcs(l: Lists, g: Graph, u: nat, v: nat, relation: string, weight: real, at: nat, w: nat, r: string)
    requires l.Denotes(g) && u < |l.ids| && v < |l.ids| && FirstJoin(l.adjacency[u], at, v, relation)
    requires w < |l.ids| && EdgeKey(l.ids[u], l.ids[w], r) in g.arcs[EdgeKey(l.ids[u], l.ids[v], relation) := weight]
    ensures HasArc(l.PutArc(u, at, Arc(v, relation, weight)).adjacency[u], w, r)
  {
    var before, after := l.adjacency[u], l.PutArc(u, at, Arc(v, relation, weight)).adjacency[u];
    if w == v && r == relation {
      assert Joins(after[at], w, r);
    } else {
      assert l.ids[w] != l.ids[v] || r != relation;
      assert l.Row(g, u) && HasArc(before, w, r);
      var i :| 0 <= i < |before| && Joins(before[i], w, r);
      assert Joins(after[i], w, r);
    }
  }

  lemma PutInRow(l: Lists, g: Graph, u: nat, v: nat, relation: string, weight: real, at: nat)
    requires l.Denotes(g) && u < |l.ids| && v < |l.ids| && FirstJoin(l.adjacency[u], at, v, relation)
    ensures l.PutArc(u, at, Arc(v, relation, weight))
              .Row(Graph(g.labels, g.arcs[EdgeKey(l.ids[u], l.ids[v], relation) := weight]), u)
  {
    var arc, key := Arc(v, relation, weight), EdgeKey(l.ids[u], l.ids[v], relation);
    var m, h := l.PutArc(u, at, arc), Graph(g.labels, g.arcs[key := weight]);
    var before, after := l.adjacency[u], m.adjacency[u];
    assert l.Row(g, u);
    assert forall i :: 0 <= i < |before| && i != at ==> after[i] == before[i] && !Joins(before[i], v, relation);
    assert at < |after| && after[at] == arc;
    forall w, r | 0 <= w < |m.ids| && EdgeKey(m.ids[u], m.ids[w], r) in h.arcs ensures HasArc(after, w, r) {
      PutKeepsArcs(l, g, u, v, relation, weight, at, w, r);
    }
    forall i | 0 <= i < |after|
      ensures after[i].target < |m.ids|
      ensures var k := EdgeKey(m.ids[u], m.ids[after[i].target], after[i].relation);
              k in h.arcs && h.arcs[k] == after[i].weight
    {
      if i != at {
        assert after[i] == before[i];
        assert m.ids[after[i].target] != m.ids[v] || after[i].relation != relation;
      }
    }
  }

  class CsrGraph {
    var index: map<string, nat>
    var ids: seq<string>
    var labels: seq<string>
    var adjacency: seq<seq<Arc>>
    var rowPtr: seq<nat>
    var cols: seq<nat>
    var weights: seq<real>
    var relations: seq<string>
    var dirty: bool

    /** The graph the adjacency lists denote. */
    ghost var graph: Graph

    function View(): Lists
      reads this`index, this`ids, this`labels, this`adjacency
    {
      Lists(index, ids, labels, adjacency)
    }

    ghost predicate Valid()
      reads this`index, this`ids, this`labels, this`adjacency, this`graph
    {
      View().Denotes(graph)
    }

    ghost predicate Compiled()
      reads this
    {
      Flattens(adjacency, rowPtr, cols, relations, weights)
    }

    constructor ()
      ensures Valid() && Compiled() && graph == Graph(map[], map[]) && !dirty && adjacency == []
    {
      index, ids, labels, adjacency := map[], [], [], [];
      rowPtr, cols, weights, relations, dirty := [0], [], [], [], false;
      graph := Graph(map[], map[]);
    }

    method AddNode(id: string, name: string) returns (slot: nat)
      requires Valid()
      modifies this
      ensures Valid() && graph == old(graph).AddNode(id, name)
      ensures id in index && slot == index[id] && old(ids) <= ids && (old(dirty) ==> dirty)
    {
      if id in index {
        RelabelDenotes(View(), graph, id, name);
        slot := index[id];
        labels := labels[slot := name];
      } else {
        AppendDenotes(View(), graph, id, name);
        slot := |ids|;
        index := index[id := slot];
        ids := ids + [id];
        labels := labels + [name];
        adjacency := adjacency + [[]];
        dirty := true;
      }
      graph := graph.AddNode(id, name);
    }

    method SlotOf(id: string) returns (slot: nat)
      requires Valid()
      modifies this
      ensures Valid() && graph == old(graph).WithNode(id)
      ensures slot < |ids| && ids[slot] == id && old(ids) <= ids && (old(dirty) ==> dirty)
    {
      assert graph.labels.Keys == index.Keys;
      if id in index { slot := index[id]; } else { slot := AddNode(id, id); }
    }

    /** Updates the arc u -> v of this relation, or appends it. */
    method AddOrUpdateAdjacency(u: nat, v: nat, relation: string, weight: real)
      requires Valid() && u < |ids| && v < |ids|
      modifies this`adjacency, this`graph
      ensures Valid()
      ensures graph == Graph(old(graph).labels, old(graph).arcs[EdgeKey(ids[u], ids[v], relation) := weight])
    {
      var row := adjacency[u];
      var at := 0;
      while at < |row| && !Joins(row[at], v, relation)
        invariant at <= |row|
        invariant forall i :: 0 <= i < at ==> !Joins(row[i], v, relation)
      {
        at := at + 1;
      }
      PutArcDenotes(View(), graph, u, v, relation, weight, at);
      var arc := Arc(v, relation, weight);
      adjacency := adjacency[u := if at < |row| then row[at := arc] else row + [arc]];
      graph := Graph(graph.labels, graph.arcs[EdgeKey(ids[u], ids[v], relation) := weight]);
    }

    method AddBothWays(u: nat, v: nat, relation: string, weight: real)
      requires Valid() && u < |ids| && v < |ids|
      modifies this`adjacency, this`graph
      ensures Valid() && graph.labels == old(graph).labels
      ensures var k := EdgeKey(ids[u], ids[v], relation);
              graph.arcs == old(graph).arcs[k := weight][k.Reverse() := weight]
    {
      AddOrUpdateAdjacency(u, v, relation, weight);
      AddOrUpdateAdjacency(v, u, relation, weight);
    }

    method AddEdge(source: string, target: string, relation: string, weight: real)
      requires Valid()
      modifies this
      ensures Valid() && dirty && graph == old(graph).AddEdge(EdgeKey(source, target, relation), weight)
    {
      dirty := true;
      var u := SlotOf(source);
      var v := SlotOf(target);
      AddBothWays(u, v, relation, weight);
    }

    /** One row of `compile_csr`: its raw sum, then its normalised arcs at the end of the arrays. */
    method CompileRow(edges: seq<Arc>)
      modifies this`cols, this`weights, this`relations
      requires |cols| == |relations| == |weights|
      ensures |cols| == |old(cols)| + |edges| && RowAt(edges, |old(cols)|, cols, relations, weights)
      ensures old(cols) <= cols && old(relations) <= relations && old(weights) <= weights
    {
      var rawSum := 0.0;
      for i := 0 to |edges|
        invariant rawSum == Total(edges[..i])
      {
        assert edges[..i + 1][..i] == edges[..i];
        rawSum := rawSum + Positive(edges[i].weight);
      }
      assert edges[..|edges|] == edges;
      for i := 0 to |edges|
        invariant |cols| == |relations| == |weights| == |old(cols)| + i
        invariant old(cols) <= cols && old(relations) <= relations && old(weights) <= weights
        invariant forall j :: 0 <= j < i ==>
          && cols[|old(cols)| + j] == edges[j].target
          && relations[|old(cols)| + j] == edges[j].relation
          && weights[|old(cols)| + j] == Share(edges, j)
      {
        cols := cols + [edges[i].target];
        relations := relations + [edges[i].relation];
        weights := weights + [Portion(Positive(edges[i].weight), rawSum, |edges|)];
      }
    }

    /** Rebuilds the flat arrays; what the graph denotes is not touched. */
    method CompileCsr()
      requires |adjacency| == |ids|
      modifies this`rowPtr, this`cols, this`weights, this`relations, this`dirty
      ensures Compiled() && !dirty
    {
      var n := |ids|;
      rowPtr, cols, weights, relations := [0], [], [], [];
      for u := 0 to n
        invariant Flattens(adjacency[..u], rowPtr, cols, relations, weights)
      {
        ghost var ptr0, cols0, rels0, weights0 := rowPtr, cols, relations, weights;
        CompileRow(adjacency[u]);
        rowPtr := rowPtr + [rowPtr[u] + |adjacency[u]|];
        FlattenRow(adjacency[..u], adjacency[u], ptr0, cols0, rels0, weights0, cols, relations, weights);
        assert adjacency[..u + 1] == adjacency[..u] + [adjacency[u]];
      }
      assert adjacency[..n] == adjacency;
      dirty := false;
    }

    /** The read-only copy for publication: flat arrays and labels, but no adjacency lists, so it
        can no longer be extended unless it has no node at all. */
    method ToReadSnapshot() returns (s: CsrGraph)
      requires Valid()
      ensures fresh(s) && s.View() == Lists(index, ids, labels, []) && !s.dirty && s.graph == graph
      ensures s.rowPtr == rowPtr && s.cols == cols && s.weights == weights && s.relations == relations
      ensures s.Valid() <==> ids == []
    {
      s := new CsrGraph();
      s.index, s.ids, s.labels := index, ids, labels;
      s.rowPtr, s.cols, s.weights, s.relations := rowPtr, cols, weights, relations;
      s.graph := graph;
      assert ids == [] ==> graph.arcs == map[] && adjacency == [];
    }
  }
}
