/** The knowledge-graph tables and the graph that mirrors them in memory
    (liva-native-core/src/db.rs 486-501, db_actor.rs 431-570, db/csr_graph.rs 101-157, 262-310). */
module GraphTables {
  import opened Wrappers

  datatype Triple = Triple(subject: string, relation: string, obj: string, weight: real)

  datatype EdgeKey = EdgeKey(source: string, target: string, relation: string)
  {
    function Reverse(): EdgeKey { EdgeKey(target, source, relation) }
  }

  datatype EdgeRow = EdgeRow(weight: real, obsolete: bool)

  /** `l3_nodes` and `l3_edges`.  Node properties are not modelled. */
  datatype Tables = Tables(nodes: map<string, string>, edges: map<EdgeKey, EdgeRow>)
  {
    predicate Live(k: EdgeKey) { k in edges && !edges[k].obsolete }

    /** The foreign keys of `l3_edges`, enforced by PRAGMA foreign_keys = ON. */
    ghost predicate ForeignKeys() {
      forall k :: k in edges ==> k.source in nodes && k.target in nodes
    }

    function UpsertNode(id: string, name: string): Tables { Tables(nodes[id := name], edges) }

    /** `None` is the foreign-key violation. */
    function UpsertEdge(k: EdgeKey, weight: real): Option<Tables> {
      if k.source in nodes && k.target in nodes then Some(Tables(nodes, edges[k := EdgeRow(weight, false)]))
      else None
    }

    function InsertTriple(t: Triple): Tables {
      UpsertNode(t.subject, t.subject).UpsertNode(t.obj, t.obj)
        .UpsertEdge(EdgeKey(t.subject, t.obj, t.relation), t.weight).value
    }

    function InsertTriples(ts: seq<Triple>): Tables
      decreases |ts|
    {
      if ts == [] then this else InsertTriple(ts[0]).InsertTriples(ts[1..])
    }

    /** Two live rows that are each other's reverse carry the same weight. */
    ghost predicate ReciprocalsAgree() {
      forall k :: Live(k) && Live(k.Reverse()) ==> edges[k].weight == edges[k.Reverse()].weight
    }
  }

  /** The graph a reader sees: node labels, and the arcs compiled into the flat arrays. */
  datatype Graph = Graph(labels: map<string, string>, arcs: map<EdgeKey, real>)
  {
    function AddNode(id: string, name: string): Graph { Graph(labels[id := name], arcs) }

    function WithNode(id: string): Graph { if id in labels then this else AddNode(id, id) }

    /** `add_edge(.., true)`: the arc is stored in both directions. */
    function AddEdge(k: EdgeKey, weight: real): Graph {
      var g := WithNode(k.source).WithNode(k.target);
      Graph(g.labels, g.arcs[k := weight][k.Reverse() := weight])
    }

    function AddTriple(t: Triple): Graph {
      AddNode(t.subject, t.subject).AddNode(t.obj, t.obj)
        .AddEdge(EdgeKey(t.subject, t.obj, t.relation), t.weight)
    }

    function AddTriples(ts: seq<Triple>): Graph
      decreases |ts|
    {
      if ts == [] then this else AddTriple(ts[0]).AddTriples(ts[1..])
    }

    function AddRows(t: Tables, order: seq<EdgeKey>): Graph
      decreases |order|
    {
      if order == [] then this
      else if order[0] !in t.edges then AddRows(t, order[1..])
      else AddEdge(order[0], t.edges[order[0]].weight).AddRows(t, order[1..])
    }
  }

  /** An order in which SELECT may return the live edge rows. */
  ghost predicate IsRowOrder(t: Tables, order: seq<EdgeKey>) {
    && (forall i :: 0 <= i < |order| ==> t.Live(order[i]))
    && (forall k :: t.Live(k) ==> k in order)
  }

  /** `CsrGraph::from_db`. */
  function FromTables(t: Tables, order: seq<EdgeKey>): Graph
  {
    Graph(t.nodes, map[]).AddRows(t, order)
  }

  /** The published graph mirrors the tables: same nodes and labels; an arc exists exactly when a
      live row joins its ends in one direction or the other, and carries the weight of such a row. */
  ghost predicate Mirrors(g: Graph, t: Tables) {
    && g.labels == t.nodes
    && (forall k :: k in g.arcs <==> t.Live(k) || t.Live(k.Reverse()))
    && (forall k :: k in g.arcs ==> k.Reverse() in g.arcs && g.arcs[k.Reverse()] == g.arcs[k])
    && (forall k :: k in g.arcs ==>
          || (t.Live(k) && g.arcs[k] == t.edges[k].weight)
          || (t.Live(k.Reverse()) && g.arcs[k] == t.edges[k.Reverse()].weight))
  }

  lemma NodeKeepsMirror(g: Graph, t: Tables, id: string, name: string)
    requires Mirrors(g, t) && t.ForeignKeys()
    ensures Mirrors(g.AddNode(id, name), t.UpsertNode(id, name)) && t.UpsertNode(id, name).ForeignKeys()
  {
    var u := t.UpsertNode(id, name);
    assert forall k :: u.Live(k) <==> t.Live(k);
  }

  lemma EdgeKeepsMirror(g: Graph, t: Tables, k: EdgeKey, weight: real)
    requires Mirrors(g, t) && t.ForeignKeys() && t.UpsertEdge(k, weight).Some?
    ensures Mirrors(g.AddEdge(k, weight), t.UpsertEdge(k, weight).value)
    ensures t.UpsertEdge(k, weight).value.ForeignKeys()
  {
    var u := t.UpsertEdge(k, weight).value;
    var h := g.AddEdge(k, weight);
    assert h.arcs == g.arcs[k := weight][k.Reverse() := weight];
    assert k.Reverse().Reverse() == k;
    forall j ensures (u.Live(j) <==> t.Live(j) || j == k) && j.Reverse().Reverse() == j {}
    forall j | j in h.arcs
      ensures j.Reverse() in h.arcs && h.arcs[j.Reverse()] == h.arcs[j]
      ensures (u.Live(j) && h.arcs[j] == u.edges[j].weight)
           || (u.Live(j.Reverse()) && h.arcs[j] == u.edges[j.Reverse()].weight)
    {
      if j == k || j == k.Reverse() {
        assert h.arcs[j] == weight;
      } else {
        assert j.Reverse() != k && j.Reverse() != k.Reverse();
      }
    }
  }

  lemma TripleKeepsMirror(g: Graph, t: Tables, x: Triple)
    requires Mirrors(g, t) && t.ForeignKeys()
    ensures Mirrors(g.AddTriple(x), t.InsertTriple(x)) && t.InsertTriple(x).ForeignKeys()
  {
    NodeKeepsMirror(g, t, x.subject, x.subject);
    var g1, t1 := g.AddNode(x.subject, x.subject), t.UpsertNode(x.subject, x.subject);
    NodeKeepsMirror(g1, t1, x.obj, x.obj);
    var g2, t2 := g1.AddNode(x.obj, x.obj), t1.UpsertNode(x.obj, x.obj);
    EdgeKeepsMirror(g2, t2, EdgeKey(x.subject, x.obj, x.relation), x.weight);
  }

  lemma {:induction false} TriplesKeepMirror(g: Graph, t: Tables, xs: seq<Triple>)
    requires Mirrors(g, t) && t.ForeignKeys()
    ensures Mirrors(g.AddTriples(xs), t.InsertTriples(xs)) && t.InsertTriples(xs).ForeignKeys()
    decreases |xs|
  {
    if xs != [] {
      TripleKeepsMirror(g, t, xs[0]);
      TriplesKeepMirror(g.AddTriple(xs[0]), t.InsertTriple(xs[0]), xs[1..]);
    }
  }

  lemma {:induction false} InsertTriplesKeepsForeignKeys(t: Tables, xs: seq<Triple>)
    requires t.ForeignKeys()
    ensures t.InsertTriples(xs).ForeignKeys()
    decreases |xs|
  {
    if xs != [] {
      InsertTriplesKeepsForeignKeys(t.InsertTriple(xs[0]), xs[1..]);
    }
  }

  /** The rows read so far, as tables: what a half-finished `from_db` mirrors. */
  ghost function Partial(t: Tables, done: set<EdgeKey>): Tables {
    Tables(t.nodes, map k | k in t.edges && k in done :: t.edges[k])
  }

  lemma PartialGrows(t: Tables, done: set<EdgeKey>, k: EdgeKey)
    requires t.ForeignKeys() && t.Live(k)
    ensures Partial(t, done).ForeignKeys()
    ensures Partial(t, done).UpsertEdge(k, t.edges[k].weight) == Some(Partial(t, done + {k}))
  {
    assert Partial(t, done).edges[k := EdgeRow(t.edges[k].weight, false)] == Partial(t, done + {k}).edges;
  }

  lemma KeysOfTail(done: set<EdgeKey>, order: seq<EdgeKey>)
    requires order != []
    ensures done + {order[0]} + (set k | k in order[1..]) == done + (set k | k in order)
  {
    assert forall k :: k in order <==> k == order[0] || k in order[1..];
  }

  lemma {:induction false} RowsKeepMirror(g: Graph, t: Tables, done: set<EdgeKey>, order: seq<EdgeKey>)
    requires t.ForeignKeys() && Mirrors(g, Partial(t, done))
    requires forall i :: 0 <= i < |order| ==> t.Live(order[i])
    ensures Mirrors(g.AddRows(t, order), Partial(t, done + set k | k in order))
    decreases |order|
  {
    if order == [] {
      assert done + (set k | k in order) == done;
    } else {
      var k, w := order[0], t.edges[order[0]].weight;
      PartialGrows(t, done, k);
      EdgeKeepsMirror(g, Partial(t, done), k, w);
      RowsKeepMirror(g.AddEdge(k, w), t, done + {k}, order[1..]);
      KeysOfTail(done, order);
    }
  }

  /** Rebuilding from the tables mirrors them, whatever order the rows come in and whatever the
      graph was before: a successful rebuild repairs any divergence. */
  lemma RebuildMirrors(t: Tables, order: seq<EdgeKey>)
    requires t.ForeignKeys() && IsRowOrder(t, order)
    ensures Mirrors(FromTables(t, order), t)
  {
    assert Partial(t, {}) == Tables(t.nodes, map[]);
    RowsKeepMirror(Graph(t.nodes, map[]), t, {}, order);
    var live := Partial(t, {} + set k | k in order);
    assert forall k :: live.Live(k) <==> t.Live(k);
    assert forall k :: t.Live(k) ==> live.edges[k] == t.edges[k];
  }

  /** A mirror shows every live row's own weight if and only if reciprocal rows agree. */
  lemma ExactIffReciprocalsAgree(g: Graph, t: Tables)
    requires Mirrors(g, t)
    ensures (forall k :: t.Live(k) ==> g.arcs[k] == t.edges[k].weight) <==> t.ReciprocalsAgree()
  {
    forall k: EdgeKey ensures k.Reverse().Reverse() == k {}
    if forall k :: t.Live(k) ==> g.arcs[k] == t.edges[k].weight {
      forall k | t.Live(k) && t.Live(k.Reverse()) ensures t.edges[k].weight == t.edges[k.Reverse()].weight {
        assert k in g.arcs;
        assert g.arcs[k.Reverse()] == g.arcs[k];
      }
    }
  }

  /** When reciprocal rows agree the mirror is unique, so the incremental graph and a rebuilt one
      are the same graph. */
  lemma MirrorIsUnique(g: Graph, h: Graph, t: Tables)
    requires Mirrors(g, t) && Mirrors(h, t) && t.ReciprocalsAgree()
    ensures g == h
  {
    forall k | k in g.arcs ensures g.arcs[k] == h.arcs[k] {
      assert k in h.arcs;
      assert k.Reverse().Reverse() == k;
    }
    assert g.arcs == h.arcs;
  }

  /** A graph left as it was while these triples were committed still mirrors the tables if it
      already shows the triples; when reciprocal rows agree, only then. */
  lemma LeftBehind(g: Graph, t: Tables, xs: seq<Triple>)
    requires Mirrors(g, t) && t.ForeignKeys()
    ensures g.AddTriples(xs) == g ==> Mirrors(g, t.InsertTriples(xs))
    ensures t.InsertTriples(xs).ReciprocalsAgree() ==> (Mirrors(g, t.InsertTriples(xs)) <==> g.AddTriples(xs) == g)
  {
    TriplesKeepMirror(g, t, xs);
    if t.InsertTriples(xs).ReciprocalsAgree() && Mirrors(g, t.InsertTriples(xs)) {
      MirrorIsUnique(g, g.AddTriples(xs), t.InsertTriples(xs));
    }
  }

  /** When they disagree it is not: after writing a->b, b->a and a->b again with weights 1, 2, 3 the
      incremental graph shows 3 both ways, a rebuild that reads b->a last shows 2. */
  lemma ReciprocalRowsDiverge()
    ensures exists t: Tables, g: Graph, order ::
      && t.ForeignKeys() && IsRowOrder(t, order) && Mirrors(g, t)
      && g != FromTables(t, order)
  {
    var ab, ba := EdgeKey("a", "b", "r"), EdgeKey("b", "a", "r");
    var nodes := map["a" := "a", "b" := "b"];
    var t := Tables(nodes, map[ab := EdgeRow(3.0, false), ba := EdgeRow(2.0, false)]);
    var incremental := Graph(nodes, map[]).AddEdge(ab, 1.0).AddEdge(ba, 2.0).AddEdge(ab, 3.0);
    assert ab != ba && ab.Reverse() == ba && ba.Reverse() == ab;
    assert incremental.arcs == map[ab := 3.0, ba := 3.0];
    assert Mirrors(incremental, t);
    LastRowWins(t, ab, ba);
    assert IsRowOrder(t, [ab, ba]) by { assert forall k :: t.Live(k) ==> k in [ab, ba]; }
  }

  lemma LastRowWins(t: Tables, k: EdgeKey, last: EdgeKey)
    requires k in t.edges && last == k.Reverse() && last in t.edges
    ensures k in FromTables(t, [k, last]).arcs && FromTables(t, [k, last]).arcs[k] == t.edges[last].weight
  {
    assert [k, last][1..] == [last] && [last][1..] == [];
    var one := Graph(t.nodes, map[]).AddEdge(k, t.edges[k].weight);
    assert FromTables(t, [k, last]) == one.AddRows(t, [last]);
    assert one.AddRows(t, [last]) == one.AddEdge(last, t.edges[last].weight);
  }
}
