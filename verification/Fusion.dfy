/** Reciprocal-rank fusion of the dense and the sparse result list
    (liva-native-core/src/db.rs 2189-2247), over reals. */
module Fusion {
  datatype Hit = Hit(id: int, score: real)

  const K := 60.0

  // ---------------------------------------------------------------- what the answer must be

  ghost predicate Distinct(ids: seq<int>) {
    forall i, j :: 0 <= i < j < |ids| ==> ids[i] != ids[j]
  }

  /** weight / (K + rank), with ranks from 1. */
  function Share(weight: real, index: nat): real { weight * (1.0 / (K + (index as real + 1.0))) }

  /** The shares of every place where `id` is listed. */
  function Shares(ids: seq<int>, weight: real, id: int): real {
    if ids == [] then 0.0
    else Shares(ids[..|ids| - 1], weight, id) + (if ids[|ids| - 1] == id then Share(weight, |ids| - 1) else 0.0)
  }

  /** Dense first, then the sparse ids not seen before, each in list order. */
  function Candidates(dense: seq<int>, sparse: seq<int>): seq<int> {
    if sparse == [] then dense
    else
      var c, last := Candidates(dense, sparse[..|sparse| - 1]), sparse[|sparse| - 1];
      if last in c then c else c + [last]
  }

  function Position(ids: seq<int>, id: int): nat {
    if ids == [] || ids[0] == id then 0 else 1 + Position(ids[1..], id)
  }

  datatype Query = Query(dense: seq<int>, sparse: seq<int>, denseWeight: real, sparseWeight: real)
  {
    function Score(id: int): real { Shares(dense, denseWeight, id) + Shares(sparse, sparseWeight, id) }

    function Place(id: int): nat { Position(Candidates(dense, sparse), id) }

    /** Higher score first, ties in dense-then-sparse order. */
    predicate Outranks(id: int, other: int) {
      Score(id) > Score(other) || (Score(id) == Score(other) && Place(id) < Place(other))
    }

    /** At most `topK` candidates with their exact scores, in rank order, and every candidate left
        out ranks below every one kept. */
    ghost predicate IsAnswer(topK: nat, out: seq<Hit>) {
      && |out| == (if |Candidates(dense, sparse)| < topK then |Candidates(dense, sparse)| else topK)
      && (forall i :: 0 <= i < |out| ==> out[i].id in Candidates(dense, sparse) && out[i].score == Score(out[i].id))
      && (forall i, j :: 0 <= i < j < |out| ==> Outranks(out[i].id, out[j].id))
      && (forall id, i :: id in Candidates(dense, sparse) && id !in Ids(out) && 0 <= i < |out| ==> Outranks(out[i].id, id))
    }
  }

  function Ids(hits: seq<Hit>): seq<int> { seq(|hits|, i requires 0 <= i < |hits| => hits[i].id) }

  // ---------------------------------------------------------------- lemmas on candidates

  lemma {:induction false} CandidatesAreBoth(dense: seq<int>, sparse: seq<int>)
    requires Distinct(dense)
    ensures Distinct(Candidates(dense, sparse))
    ensures forall id :: id in Candidates(dense, sparse) <==> id in dense || id in sparse
    ensures dense <= Candidates(dense, sparse)
  {
    if sparse != [] {
      var n := |sparse| - 1;
      CandidatesAreBoth(dense, sparse[..n]);
      assert sparse == sparse[..n] + [sparse[n]];
    }
  }

  lemma {:induction false} UnlistedHasNoShare(ids: seq<int>, weight: real, id: int)
    requires id !in ids
    ensures Shares(ids, weight, id) == 0.0
  {
    if ids != [] { UnlistedHasNoShare(ids[..|ids| - 1], weight, id); }
  }

  lemma OneMoreShare(ids: seq<int>, weight: real, i: nat, id: int)
    requires i < |ids|
    ensures Shares(ids[..i + 1], weight, id) == Shares(ids[..i], weight, id) + if ids[i] == id then Share(weight, i) else 0.0
  {
    assert ids[..i + 1][..i] == ids[..i];
  }

  /** At place i of a list the share is weight / (61 + i): the rank is i + 1, the constant 60. */
  lemma ShareIs(weight: real, i: nat)
    ensures Share(weight, i) * (61.0 + i as real) == weight
  {
    var rank := 61.0 + i as real;
    assert K + (i as real + 1.0) == rank;
    Reciprocal(weight, rank);
  }

  lemma Reciprocal(weight: real, rank: real)
    requires rank > 0.0
    ensures weight * (1.0 / rank) * rank == weight
  {
    assert 1.0 / rank * rank == 1.0;
  }

  /** An id listed once has the share of its place, an id not listed none. */
  lemma {:induction false} SharesOfPlace(ids: seq<int>, weight: real, i: nat)
    requires Distinct(ids) && i < |ids|
    ensures Shares(ids, weight, ids[i]) == Share(weight, i)
  {
    var n := |ids| - 1;
    if i == n {
      UnlistedHasNoShare(ids[..n], weight, ids[n]);
    } else {
      assert ids[..n][i] == ids[i];
      SharesOfPlace(ids[..n], weight, i);
    }
  }

  /** So the score of an id is the sum of its two shares, or the one it has. */
  lemma ScoreIs(q: Query, id: int, i: nat, j: nat)
    requires Distinct(q.dense) && Distinct(q.sparse)
    ensures i < |q.dense| && q.dense[i] == id && j < |q.sparse| && q.sparse[j] == id ==>
      q.Score(id) == Share(q.denseWeight, i) + Share(q.sparseWeight, j)
    ensures i < |q.dense| && q.dense[i] == id && id !in q.sparse ==> q.Score(id) == Share(q.denseWeight, i)
    ensures id !in q.dense && j < |q.sparse| && q.sparse[j] == id ==> q.Score(id) == Share(q.sparseWeight, j)
  {
    if i < |q.dense| && q.dense[i] == id { SharesOfPlace(q.dense, q.denseWeight, i); }
    if j < |q.sparse| && q.sparse[j] == id { SharesOfPlace(q.sparse, q.sparseWeight, j); }
    if id !in q.dense { UnlistedHasNoShare(q.dense, q.denseWeight, id); }
    if id !in q.sparse { UnlistedHasNoShare(q.sparse, q.sparseWeight, id); }
  }

  /** Candidates keep list order: dense ids in theirs, and of two ids found by the sparse list alone the
      one it lists first. */
  lemma {:induction false} CandidatesKeepOrder(dense: seq<int>, sparse: seq<int>, i: nat, j: nat)
    requires Distinct(dense) && i < j < |sparse| && sparse[i] !in dense && sparse[j] !in dense && sparse[j] !in sparse[..j]
    ensures Position(Candidates(dense, sparse), sparse[i]) < Position(Candidates(dense, sparse), sparse[j])
  {
    var n := |sparse| - 1;
    var before := Candidates(dense, sparse[..n]);
    CandidatesAreBoth(dense, sparse[..n]);
    assert sparse[i] in sparse[..n] by { assert sparse[..n][i] == sparse[i]; }
    var k :| 0 <= k < |before| && before[k] == sparse[i];
    PositionOf(before, k);
    CandidatesAreBoth(dense, sparse);
    assert before <= Candidates(dense, sparse);
    PositionOf(Candidates(dense, sparse), k);
    if j == n {
      PositionOf(Candidates(dense, sparse), |before|);
    } else {
      assert sparse[..n][i] == sparse[i] && sparse[..n][j] == sparse[j] && sparse[..n][..j] == sparse[..j];
      CandidatesKeepOrder(dense, sparse[..n], i, j);
      assert sparse[j] in sparse[..n];
      var l :| 0 <= l < |before| && before[l] == sparse[j];
      PositionOf(before, l);
      PositionOf(Candidates(dense, sparse), l);
    }
  }

  lemma {:induction false} PositionOf(ids: seq<int>, i: nat)
    requires Distinct(ids) && i < |ids|
    ensures Position(ids, ids[i]) == i
  {
    if i > 0 {
      assert ids[1..][i - 1] == ids[i];
      PositionOf(ids[1..], i - 1);
    }
  }

  // ---------------------------------------------------------------- the answer is unique

  /** The requirement pins the answer down: no two different lists meet it. */
  lemma AnswerIsUnique(q: Query, topK: nat, a: seq<Hit>, b: seq<Hit>)
    requires q.IsAnswer(topK, a) && q.IsAnswer(topK, b)
    ensures a == b
  {
    forall n | 0 <= n < |a| ensures a[n] == b[n] { SamePrefix(q, topK, a, b, n); }
  }

  lemma {:induction false} SamePrefix(q: Query, topK: nat, a: seq<Hit>, b: seq<Hit>, n: nat)
    requires q.IsAnswer(topK, a) && q.IsAnswer(topK, b) && n < |a|
    ensures a[..n] == b[..n] && a[n] == b[n]
  {
    if n > 0 { SamePrefix(q, topK, a, b, n - 1); }
    if a[n].id != b[n].id {
      Elsewhere(q, topK, b, n, a);
      Elsewhere(q, topK, a, n, b);
      PickOutranksRest(q, topK, a, n, b[n].id);
      PickOutranksRest(q, topK, b, n, a[n].id);
      assert false;
    }
  }

  /** An answer never repeats at `n` what it, or a list with the same beginning, had before. */
  lemma Elsewhere(q: Query, topK: nat, a: seq<Hit>, n: nat, b: seq<Hit>)
    requires q.IsAnswer(topK, a) && n < |a| && n < |b| && a[..n] == b[..n]
    ensures forall k :: 0 <= k < n ==> b[k].id != a[n].id
  {
    forall k | 0 <= k < n ensures b[k].id != a[n].id {
      assert a[..n][k] == b[..n][k];
      assert q.Outranks(a[k].id, a[n].id);
    }
  }

  /** What an answer lists at `n` outranks every candidate it has not listed by then. */
  lemma PickOutranksRest(q: Query, topK: nat, a: seq<Hit>, n: nat, id: int)
    requires q.IsAnswer(topK, a) && n < |a| && id in Candidates(q.dense, q.sparse)
    requires forall k :: 0 <= k <= n ==> a[k].id != id
    ensures q.Outranks(a[n].id, id)
  {
    if id in Ids(a) {
      var m :| 0 <= m < |a| && Ids(a)[m] == id;
      assert m > n;
    }
  }

  // ---------------------------------------------------------------- the fusion

  /** The list built so far holds the candidates in order, with the shares counted so far. */
  ghost predicate Scored(hits: seq<Hit>, q: Query) {
    && Ids(hits) == Candidates(q.dense, q.sparse)
    && forall i :: 0 <= i < |hits| ==> hits[i].score == q.Score(hits[i].id)
  }

  method AddDense(dense: seq<int>, weight: real, sparseWeight: real) returns (hits: seq<Hit>)
    requires Distinct(dense)
    ensures Scored(hits, Query(dense, [], weight, sparseWeight))
  {
    hits := [];
    for i := 0 to |dense|
      invariant Ids(hits) == dense[..i]
      invariant forall k :: 0 <= k < i ==> hits[k].score == Shares(dense[..i], weight, dense[k])
    {
      forall k | 0 <= k <= i ensures Shares(dense[..i + 1], weight, dense[k])
        == (if k == i then Share(weight, i) else Shares(dense[..i], weight, dense[k]))
      {
        OneMoreShare(dense, weight, i, dense[k]);
        if k == i { UnlistedHasNoShare(dense[..i], weight, dense[i]); }
      }
      assert forall k :: 0 <= k < i ==> hits[k].id == Ids(hits)[k];
      hits := hits + [Hit(dense[i], Share(weight, i))];
    }
    assert dense[..|dense|] == dense;
    assert forall k :: 0 <= k < |dense| ==> hits[k].id == Ids(hits)[k];
  }

  /** The first hit with this id, or the length of the list. */
  method Find(hits: seq<Hit>, id: int) returns (at: nat)
    ensures at <= |hits| && (at < |hits| ==> hits[at].id == id)
    ensures at == |hits| ==> id !in Ids(hits)
  {
    at := 0;
    while at < |hits| && hits[at].id != id
      invariant at <= |hits| && forall k :: 0 <= k < at ==> hits[k].id != id
    {
      at := at + 1;
    }
  }

  lemma OneMoreSparse(q: Query, i: nat, hits: seq<Hit>, at: nat)
    requires i < |q.sparse| && Distinct(q.dense) && at <= |hits|
    requires Scored(hits, q.(sparse := q.sparse[..i]))
    requires if at < |hits| then hits[at].id == q.sparse[i] else q.sparse[i] !in Ids(hits)
    ensures var share := Share(q.sparseWeight, i);
      Scored(if at < |hits| then hits[at := Hit(hits[at].id, hits[at].score + share)] else hits + [Hit(q.sparse[i], share)],
             q.(sparse := q.sparse[..i + 1]))
  {
    var share := Share(q.sparseWeight, i);
    var before, after := q.(sparse := q.sparse[..i]), q.(sparse := q.sparse[..i + 1]);
    var c := Candidates(q.dense, q.sparse[..i]);
    CandidatesAreBoth(q.dense, q.sparse[..i]);
    assert q.sparse[..i + 1][..i] == q.sparse[..i];
    assert forall k :: 0 <= k < |hits| ==> hits[k].id == c[k];
    forall id ensures after.Score(id) == before.Score(id) + if q.sparse[i] == id then share else 0.0 {
      OneMoreShare(q.sparse, q.sparseWeight, i, id);
    }
    if at < |hits| {
      assert c[at] in c;
      var updated := hits[at := Hit(hits[at].id, hits[at].score + share)];
      assert Ids(updated) == Ids(hits);
    } else {
      UnlistedHasNoShare(q.dense, q.denseWeight, q.sparse[i]);
      UnlistedHasNoShare(q.sparse[..i], q.sparseWeight, q.sparse[i]);
      assert Ids(hits + [Hit(q.sparse[i], share)]) == Ids(hits) + [q.sparse[i]];
    }
  }

  method AddSparse(q: Query, dense: seq<Hit>) returns (hits: seq<Hit>)
    requires Distinct(q.dense) && Scored(dense, q.(sparse := []))
    ensures Scored(hits, q)
  {
    hits := dense;
    assert q.sparse[..0] == [];
    for i := 0 to |q.sparse|
      invariant Scored(hits, q.(sparse := q.sparse[..i]))
    {
      var share := Share(q.sparseWeight, i);
      var at := Find(hits, q.sparse[i]);
      OneMoreSparse(q, i, hits, at);
      if at < |hits| {
        hits := hits[at := Hit(hits[at].id, hits[at].score + share)];
      } else {
        hits := hits + [Hit(q.sparse[i], share)];
      }
    }
    assert q.sparse[..|q.sparse|] == q.sparse && q.(sparse := q.sparse) == q;
  }

  // ---------------------------------------------------------------- stable sort, descending

  ghost predicate RankOrdered(q: Query, hits: seq<Hit>) {
    forall i, j :: 0 <= i < j < |hits| ==> q.Outranks(hits[i].id, hits[j].id)
  }

  /** Inserts behind every hit of at least the same score, as a stable sort does. */
  method Insert(q: Query, sorted: seq<Hit>, h: Hit) returns (longer: seq<Hit>)
    requires RankOrdered(q, sorted) && h.score == q.Score(h.id)
    requires forall i :: 0 <= i < |sorted| ==> sorted[i].score == q.Score(sorted[i].id) && q.Place(sorted[i].id) < q.Place(h.id)
    ensures RankOrdered(q, longer) && multiset(longer) == multiset(sorted) + multiset{h}
  {
    var at := |sorted|;
    while at > 0 && sorted[at - 1].score < h.score
      invariant 0 <= at <= |sorted|
      invariant forall i :: at <= i < |sorted| ==> sorted[i].score < h.score
    {
      at := at - 1;
    }
    InsertKeepsRank(q, sorted, h, at);
    longer := sorted[..at] + [h] + sorted[at..];
    assert sorted == sorted[..at] + sorted[at..];
  }

  lemma InsertKeepsRank(q: Query, sorted: seq<Hit>, h: Hit, at: nat)
    requires RankOrdered(q, sorted) && h.score == q.Score(h.id) && at <= |sorted|
    requires forall i :: 0 <= i < |sorted| ==> sorted[i].score == q.Score(sorted[i].id) && q.Place(sorted[i].id) < q.Place(h.id)
    requires at > 0 ==> sorted[at - 1].score >= h.score
    requires forall i :: at <= i < |sorted| ==> sorted[i].score < h.score
    ensures RankOrdered(q, sorted[..at] + [h] + sorted[at..])
  {
    var longer := sorted[..at] + [h] + sorted[at..];
    forall i | 0 <= i < at ensures q.Outranks(sorted[i].id, h.id) {
      if i < at - 1 { assert q.Outranks(sorted[i].id, sorted[at - 1].id); }
    }
    forall i | at <= i < |sorted| ensures q.Outranks(h.id, sorted[i].id) {}
    forall i, j | 0 <= i < j < |longer| ensures q.Outranks(longer[i].id, longer[j].id) {
      var k := if i < at then i else i - 1;
      var l := if j < at then j else j - 1;
      assert i != at ==> longer[i] == sorted[k];
      assert j != at ==> longer[j] == sorted[l];
    }
  }

  method SortByScore(q: Query, hits: seq<Hit>) returns (sorted: seq<Hit>)
    requires Distinct(q.dense) && Scored(hits, q)
    ensures RankOrdered(q, sorted) && multiset(sorted) == multiset(hits)
  {
    CandidatesAreBoth(q.dense, q.sparse);
    sorted := [];
    for i := 0 to |hits|
      invariant RankOrdered(q, sorted) && multiset(sorted) == multiset(hits[..i])
    {
      InsertedLast(q, hits, i, sorted);
      sorted := Insert(q, sorted, hits[i]);
      assert hits[..i + 1] == hits[..i] + [hits[i]];
    }
    assert hits[..|hits|] == hits;
  }

  lemma InsertedLast(q: Query, hits: seq<Hit>, i: nat, sorted: seq<Hit>)
    requires Distinct(Candidates(q.dense, q.sparse)) && Scored(hits, q) && i < |hits|
    requires multiset(sorted) == multiset(hits[..i])
    ensures forall k :: 0 <= k < |sorted| ==> sorted[k].score == q.Score(sorted[k].id) && q.Place(sorted[k].id) < q.Place(hits[i].id)
  {
    var c := Candidates(q.dense, q.sparse);
    PositionOf(c, i);
    assert hits[i].id == Ids(hits)[i];
    forall k | 0 <= k < |sorted|
      ensures sorted[k].score == q.Score(sorted[k].id) && q.Place(sorted[k].id) < q.Place(hits[i].id)
    {
      assert sorted[k] in multiset(hits[..i]);
      var j :| 0 <= j < i && hits[j] == sorted[k];
      assert hits[j].id == Ids(hits)[j];
      PositionOf(c, j);
    }
  }

  lemma TruncationIsAnswer(q: Query, topK: nat, hits: seq<Hit>, sorted: seq<Hit>)
    requires Scored(hits, q) && RankOrdered(q, sorted) && multiset(sorted) == multiset(hits)
    ensures q.IsAnswer(topK, if |sorted| > topK then sorted[..topK] else sorted)
  {
    var c := Candidates(q.dense, q.sparse);
    var out := if |sorted| > topK then sorted[..topK] else sorted;
    assert |sorted| == |multiset(sorted)| == |multiset(hits)| == |hits| == |Ids(hits)|;
    forall i | 0 <= i < |out| ensures out[i].id in c && out[i].score == q.Score(out[i].id) {
      SortedIsScored(q, hits, sorted, i);
    }
    assert out == sorted[..|out|];
    forall id, i | id in c && id !in Ids(out) && 0 <= i < |out| ensures q.Outranks(out[i].id, id) {
      DroppedRanksBelow(q, hits, sorted, |out|, id, i);
    }
  }

  lemma DroppedRanksBelow(q: Query, hits: seq<Hit>, sorted: seq<Hit>, n: nat, id: int, i: nat)
    requires Scored(hits, q) && RankOrdered(q, sorted) && multiset(sorted) == multiset(hits) && i < n <= |sorted|
    requires id in Candidates(q.dense, q.sparse) && id !in Ids(sorted[..n])
    ensures q.Outranks(sorted[i].id, id)
  {
    var k := PlaceInSorted(q, hits, sorted, id);
    assert forall j :: 0 <= j < n ==> Ids(sorted[..n])[j] == sorted[j].id;
    assert k >= n;
  }

  lemma SortedIsScored(q: Query, hits: seq<Hit>, sorted: seq<Hit>, i: nat)
    requires Scored(hits, q) && multiset(sorted) == multiset(hits) && i < |sorted|
    ensures sorted[i].id in Candidates(q.dense, q.sparse) && sorted[i].score == q.Score(sorted[i].id)
  {
    assert sorted[i] in multiset(hits);
    var j :| 0 <= j < |hits| && hits[j] == sorted[i];
    assert hits[j].id == Ids(hits)[j];
  }

  lemma PlaceInSorted(q: Query, hits: seq<Hit>, sorted: seq<Hit>, id: int) returns (k: nat)
    requires Scored(hits, q) && multiset(sorted) == multiset(hits) && id in Candidates(q.dense, q.sparse)
    ensures k < |sorted| && sorted[k].id == id
  {
    var j :| 0 <= j < |Ids(hits)| && Ids(hits)[j] == id;
    assert hits[j] in multiset(sorted);
    k :| 0 <= k < |sorted| && sorted[k] == hits[j];
  }

  /** The fusion part of `search_hybrid_vectors`: its answer is the one the requirement admits. */
  method SearchHybrid(q: Query, topK: nat) returns (out: seq<Hit>)
    requires Distinct(q.dense)
    ensures q.IsAnswer(topK, out) && |out| <= topK && Distinct(Ids(out))
  {
    var dense := AddDense(q.dense, q.denseWeight, q.sparseWeight);
    var hits := AddSparse(q, dense);
    var sorted := SortByScore(q, hits);
    TruncationIsAnswer(q, topK, hits, sorted);
    out := if |sorted| > topK then sorted[..topK] else sorted;
    AnswerHasNoDuplicates(q, topK, out);
  }

  lemma AnswerHasNoDuplicates(q: Query, topK: nat, out: seq<Hit>)
    requires q.IsAnswer(topK, out)
    ensures Distinct(Ids(out))
  {
    forall i, j | 0 <= i < j < |out| ensures Ids(out)[i] != Ids(out)[j] {
      assert q.Outranks(out[i].id, out[j].id);
    }
  }
}
