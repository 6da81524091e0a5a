/** The event projection queue: retries, dead letters and the drain bound
    (liva-native-core/src/memory_consolidation.rs 96-281). */
module Projection {
  import opened Wrappers
  import opened Crypto
  import opened GraphTables
  import opened VectorTables

  const MAX_BATCH_SIZE := 100
  const MAX_RETRIES := 3

  datatype Status = Pending | Consolidated | DeadLettered

  datatype Event = Event(timestamp: int, domain: string, category: string, status: Status, retries: nat)

  datatype DeadLetter = DeadLetter(eventId: string, retries: nat)

  /** What one batch reports. */
  datatype Counts = Counts(processed: nat, consolidated: nat, retried: nat, deadLettered: nat, triples: nat)

  datatype Checkpoint = Checkpoint(lastStep: nat, lastEvent: string, counts: Counts)

  /** The tables a batch writes; `order` is the index on (timestamp, eventId). */
  datatype Ledger = Ledger(events: map<string, Event>, order: seq<string>, deadLetters: seq<DeadLetter>,
                           checkpoints: map<string, Checkpoint>, graph: Tables)
  {
    predicate IsPending(id: string) { id in events && events[id].status.Pending? }

    function LastStep(worker: string): nat { if worker in checkpoints then checkpoints[worker].lastStep else 0 }
  }

  /** What a batch only reads. */
  datatype Context = Context(vectors: Vectors, engine: Engine, extract: string -> seq<Triple>)

  /** The event has a conversation row of its own, with its domain and category, and names itself as
      that row's only source. */
  predicate Matches(v: Vectors, id: string, e: Event) {
    v.Has(id) &&
    var row := v.Row(id);
    row.kind == CONVERSATION && row.domain == e.domain && row.category == e.category && row.eventIds == Some([id])
  }

  /** A turn that cannot be read, or is empty, yields no triples. */
  function TriplesOf(ctx: Context, id: string): seq<Triple> {
    if !ctx.vectors.Has(id) then []
    else
      match ctx.engine.ReadFact(ctx.vectors.Row(id).content)
      case Locked(_) => []
      case Readable(text) => if text == "" then [] else ctx.extract(text)
  }

  // ---------------------------------------------------------------- one batch

  function Clamp(size: nat): (b: nat)
    ensures 1 <= b <= 100
    ensures b != size ==> (size == 0 && b == 1) || (size > 100 && b == 100)
  {
    if size < 1 then 1 else if size > MAX_BATCH_SIZE then MAX_BATCH_SIZE else size
  }

  /** ... WHERE consolidation_status = 'pending' ORDER BY timestamp, eventId */
  function PendingOf(l: Ledger, ids: seq<string>): (r: seq<string>)
    ensures forall id :: id in r ==> id in ids && l.IsPending(id)
  {
    if ids == [] then []
    else (if l.IsPending(ids[0]) then [ids[0]] else []) + PendingOf(l, ids[1..])
  }

  function Queue(l: Ledger): seq<string> { PendingOf(l, l.order) }

  function Window(l: Ledger, size: nat): (r: seq<string>)
    ensures forall id :: id in r ==> l.IsPending(id)
  {
    if |Queue(l)| < Clamp(size) then Queue(l) else Queue(l)[..Clamp(size)]
  }

  datatype Outcome = Consolidate | Retry | Bury

  function Judge(ctx: Context, l: Ledger, id: string): Outcome
    requires id in l.events
  {
    if Matches(ctx.vectors, id, l.events[id]) then Consolidate
    else if l.events[id].retries + 1 >= MAX_RETRIES then Bury
    else Retry
  }

  function After(o: Outcome, e: Event): Event {
    match o
    case Consolidate => e.(status := Consolidated)
    case Retry => e.(retries := e.retries + 1)
    case Bury => e.(status := DeadLettered, retries := e.retries + 1)
  }

  function Visit(ctx: Context, l: Ledger, id: string): Ledger
    requires id in l.events
  {
    var o, e := Judge(ctx, l, id), l.events[id];
    var moved := l.(events := l.events[id := After(o, e)]);
    match o
    case Consolidate => moved.(graph := l.graph.InsertTriples(TriplesOf(ctx, id)))
    case Retry => moved
    case Bury => moved.(deadLetters := l.deadLetters + [DeadLetter(id, e.retries + 1)])
  }

  function Tally(ctx: Context, l: Ledger, id: string, c: Counts): Counts
    requires id in l.events
  {
    var d := c.(processed := c.processed + 1);
    match Judge(ctx, l, id)
    case Consolidate => d.(consolidated := c.consolidated + 1, triples := c.triples + |TriplesOf(ctx, id)|)
    case Retry => d.(retried := c.retried + 1)
    case Bury => d.(deadLettered := c.deadLettered + 1)
  }

  /** The loop of a batch, over the ids selected at its start. */
  function VisitAll(ctx: Context, l: Ledger, c: Counts, ids: seq<string>): (Ledger, Counts)
    requires forall id :: id in ids ==> id in l.events
    decreases |ids|
  {
    if ids == [] then (l, c)
    else VisitAll(ctx, Visit(ctx, l, ids[0]), Tally(ctx, l, ids[0], c), ids[1..])
  }

  const NOTHING := Counts(0, 0, 0, 0, 0)

  function WithCheckpoint(l: Ledger, worker: string, ids: seq<string>, c: Counts): Ledger {
    if ids == [] then l
    else l.(checkpoints := l.checkpoints[worker := Checkpoint(l.LastStep(worker) + c.processed, ids[|ids| - 1], c)])
  }

  lemma {:induction false} QueueIsPending(l: Ledger, ids: seq<string>)
    ensures forall id :: id in PendingOf(l, ids) <==> id in ids && l.IsPending(id)
    ensures Distinct(ids) ==> Distinct(PendingOf(l, ids))
  {
    if ids != [] {
      QueueIsPending(l, ids[1..]);
      if Distinct(ids) {
        assert forall i :: 0 <= i < |ids[1..]| ==> ids[1..][i] == ids[i + 1];
        assert ids[0] !in ids[1..];
      }
    }
  }

  function Process(ctx: Context, l: Ledger, worker: string, size: nat): (Ledger, Counts) {
    var ids := Window(l, size);
    var (m, c) := VisitAll(ctx, l, NOTHING, ids);
    (WithCheckpoint(m, worker, ids, c), c)
  }

  // ---------------------------------------------------------------- invariants of every run

  ghost predicate Distinct(ids: seq<string>) {
    forall i, j :: 0 <= i < j < |ids| ==> ids[i] != ids[j]
  }

  function Letters(letters: seq<DeadLetter>, id: string): nat {
    if letters == [] then 0
    else Letters(letters[..|letters| - 1], id) + (if letters[|letters| - 1].eventId == id then 1 else 0)
  }

  /** A pending event has retries left; a dead-lettered one has exactly one dead letter, any other
      none; the graph satisfies its foreign keys. */
  ghost predicate Sound(l: Ledger) {
    && Distinct(l.order) && (forall id :: id in l.order <==> id in l.events)
    && (forall id :: l.IsPending(id) ==> l.events[id].retries < 3)
    && (forall id :: LettersMatch(l.deadLetters, l.events, id))
    && l.graph.ForeignKeys()
  }

  /** How a batch may move one event. */
  ghost predicate Moves(ctx: Context, before: Event, after: Event, id: string) {
    && before.status.Pending?
    && (after.domain, after.category, after.timestamp) == (before.domain, before.category, before.timestamp)
    && (after.status.Consolidated? <==> Matches(ctx.vectors, id, before))
    && after.retries == before.retries + (if after.status.Consolidated? then 0 else 1)
    && (after.status.DeadLettered? <==> !Matches(ctx.vectors, id, before) && after.retries == 3)
  }

  lemma LettersAppend(letters: seq<DeadLetter>, x: DeadLetter, id: string)
    ensures Letters(letters + [x], id) == Letters(letters, id) + if x.eventId == id then 1 else 0
  {
    assert (letters + [x])[..|letters|] == letters;
  }

  /** One visit: the ledger stays sound, that event moves, nothing else does. */
  ghost predicate VisitOutcome(ctx: Context, l: Ledger, id: string, m: Ledger) {
    && Sound(m) && m.order == l.order && m.checkpoints == l.checkpoints && m.events.Keys == l.events.Keys
    && id in l.events && Moves(ctx, l.events[id], m.events[id], id)
    && (forall other :: other in l.events && other != id ==> m.events[other] == l.events[other])
  }

  ghost predicate LettersMatch(letters: seq<DeadLetter>, events: map<string, Event>, id: string) {
    Letters(letters, id) == if id in events && events[id].status.DeadLettered? then 1 else 0
  }

  lemma MovedLetters(letters: seq<DeadLetter>, events: map<string, Event>, id: string, moved: Event, other: string)
    requires id in events && events[id].status.Pending? && LettersMatch(letters, events, other)
    ensures !moved.status.DeadLettered? ==> LettersMatch(letters, events[id := moved], other)
    ensures moved.status.DeadLettered? ==> LettersMatch(letters + [DeadLetter(id, moved.retries)], events[id := moved], other)
  {
    LettersAppend(letters, DeadLetter(id, moved.retries), other);
  }

  lemma VisitLetters(ctx: Context, l: Ledger, id: string)
    requires Sound(l) && l.IsPending(id)
    ensures forall other :: LettersMatch(Visit(ctx, l, id).deadLetters, Visit(ctx, l, id).events, other)
  {
    var moved := After(Judge(ctx, l, id), l.events[id]);
    forall other ensures LettersMatch(Visit(ctx, l, id).deadLetters, Visit(ctx, l, id).events, other) {
      assert LettersMatch(l.deadLetters, l.events, other);
      MovedLetters(l.deadLetters, l.events, id, moved, other);
    }
  }

  lemma VisitKeepsSound(ctx: Context, l: Ledger, id: string)
    requires Sound(l) && l.IsPending(id)
    ensures VisitOutcome(ctx, l, id, Visit(ctx, l, id))
  {
    VisitLetters(ctx, l, id);
    VisitMoves(ctx, l, id);
    InsertTriplesKeepsForeignKeys(l.graph, TriplesOf(ctx, id));
    var m := Visit(ctx, l, id);
    assert forall other :: m.IsPending(other) && other != id ==> l.IsPending(other);
  }

  lemma VisitMoves(ctx: Context, l: Ledger, id: string)
    requires l.IsPending(id) && l.events[id].retries < MAX_RETRIES
    ensures var m := Visit(ctx, l, id);
      && m.events.Keys == l.events.Keys && Moves(ctx, l.events[id], m.events[id], id)
      && (m.IsPending(id) ==> m.events[id].retries < MAX_RETRIES)
      && (forall other :: other in l.events && other != id ==> m.events[other] == l.events[other])
  {
  }

  ghost predicate CountsAdd(c: Counts) { c.processed == c.consolidated + c.retried + c.deadLettered }

  /** What a batch's loop does to the ledger: each selected event moves once, nothing else moves. */
  ghost predicate LoopOutcome(ctx: Context, l: Ledger, c: Counts, ids: seq<string>, m: Ledger, d: Counts) {
    && Sound(m) && m.order == l.order && m.checkpoints == l.checkpoints && m.events.Keys == l.events.Keys
    && (forall id :: id in ids ==> id in l.events && Moves(ctx, l.events[id], m.events[id], id))
    && (forall id :: id in l.events && id !in ids ==> m.events[id] == l.events[id])
    && d.processed == c.processed + |ids| && CountsAdd(d)
  }

  lemma LoopExtends(ctx: Context, l: Ledger, c: Counts, ids: seq<string>, l1: Ledger, c1: Counts, m: Ledger, d: Counts)
    requires ids != [] && ids[0] !in ids[1..]
    requires VisitOutcome(ctx, l, ids[0], l1) && c1.processed == c.processed + 1
    requires LoopOutcome(ctx, l1, c1, ids[1..], m, d)
    ensures LoopOutcome(ctx, l, c, ids, m, d)
  {
    assert forall id :: id in ids <==> id == ids[0] || id in ids[1..];
    assert m.events[ids[0]] == l1.events[ids[0]];
  }

  lemma {:induction false} LoopMovesEach(ctx: Context, l: Ledger, c: Counts, ids: seq<string>)
    requires Sound(l) && CountsAdd(c) && Distinct(ids) && forall id :: id in ids ==> l.IsPending(id)
    ensures LoopOutcome(ctx, l, c, ids, VisitAll(ctx, l, c, ids).0, VisitAll(ctx, l, c, ids).1)
    decreases |ids|
  {
    if ids != [] {
      VisitKeepsSound(ctx, l, ids[0]);
      var l1, c1 := Visit(ctx, l, ids[0]), Tally(ctx, l, ids[0], c);
      assert ids[0] !in ids[1..];
      assert forall id :: id in ids[1..] ==> l.IsPending(id) && l1.events[id] == l.events[id];
      LoopMovesEach(ctx, l1, c1, ids[1..]);
      LoopExtends(ctx, l, c, ids, l1, c1, VisitAll(ctx, l1, c1, ids[1..]).0, VisitAll(ctx, l1, c1, ids[1..]).1);
    }
  }

  /** One batch: it visits the first pending events in index order, at most the clamped size of them,
      and moves each exactly once; the counters add up; the worker's checkpoint grows by what was
      processed. */
  ghost predicate BatchOutcome(ctx: Context, l: Ledger, worker: string, size: nat, m: Ledger, c: Counts) {
    && Sound(m) && m.order == l.order && m.events.Keys == l.events.Keys
    && (forall id :: id in Window(l, size) ==> id in l.events && Moves(ctx, l.events[id], m.events[id], id))
    && (forall id :: id in l.events && id !in Window(l, size) ==> m.events[id] == l.events[id])
    && c.processed == |Window(l, size)| && CountsAdd(c)
    && (forall w :: m.LastStep(w) == l.LastStep(w) + if w == worker then c.processed else 0)
    && CheckpointTells(l, worker, Window(l, size), m, c)
  }

  /** A batch that selected anything leaves its last event and its counters in the worker's checkpoint;
      every other checkpoint stays. */
  ghost predicate CheckpointTells(l: Ledger, worker: string, ids: seq<string>, m: Ledger, c: Counts) {
    if ids == [] then m.checkpoints == l.checkpoints
    else
      && worker in m.checkpoints && m.checkpoints[worker].lastEvent == ids[|ids| - 1] && m.checkpoints[worker].counts == c
      && forall w :: w != worker ==>
           (w in m.checkpoints <==> w in l.checkpoints) && (w in l.checkpoints ==> m.checkpoints[w] == l.checkpoints[w])
  }

  lemma BatchMovesEach(ctx: Context, l: Ledger, worker: string, size: nat)
    requires Sound(l)
    ensures BatchOutcome(ctx, l, worker, size, Process(ctx, l, worker, size).0, Process(ctx, l, worker, size).1)
  {
    var ids := Window(l, size);
    var (m, c) := VisitAll(ctx, l, NOTHING, ids);
    WindowMovesEach(ctx, l, size, ids, m, c);
    LoopIsBatch(ctx, l, worker, size, ids, m, c);
    ProcessIs(ctx, l, worker, size, ids, m, c);
  }

  lemma ProcessIs(ctx: Context, l: Ledger, worker: string, size: nat, ids: seq<string>, m: Ledger, c: Counts)
    requires ids == Window(l, size) && (m, c) == VisitAll(ctx, l, NOTHING, ids)
    ensures Process(ctx, l, worker, size) == (WithCheckpoint(m, worker, ids, c), c)
  {
  }

  lemma WindowMovesEach(ctx: Context, l: Ledger, size: nat, ids: seq<string>, m: Ledger, c: Counts)
    requires Sound(l) && ids == Window(l, size) && (m, c) == VisitAll(ctx, l, NOTHING, ids)
    ensures LoopOutcome(ctx, l, NOTHING, ids, m, c)
  {
    WindowIsDistinct(l, size);
    LoopMovesEach(ctx, l, NOTHING, ids);
  }

  lemma WindowIsDistinct(l: Ledger, size: nat)
    requires Distinct(l.order)
    ensures Distinct(Window(l, size))
  {
    QueueIsPending(l, l.order);
  }

  lemma LoopIsBatch(ctx: Context, l: Ledger, worker: string, size: nat, ids: seq<string>, m: Ledger, c: Counts)
    requires ids == Window(l, size) && LoopOutcome(ctx, l, NOTHING, ids, m, c)
    ensures BatchOutcome(ctx, l, worker, size, WithCheckpoint(m, worker, ids, c), c)
  {
    CheckpointGrows(m, worker, ids, c);
    assert forall w :: m.LastStep(w) == l.LastStep(w);
  }

  lemma CheckpointGrows(m: Ledger, worker: string, ids: seq<string>, c: Counts)
    requires Sound(m) && c.processed == |ids|
    ensures var n := WithCheckpoint(m, worker, ids, c);
      && Sound(n) && n.order == m.order && n.events == m.events && CheckpointTells(m, worker, ids, n, c)
      && (forall w :: n.LastStep(w) == m.LastStep(w) + if w == worker then c.processed else 0)
  {
    var n := WithCheckpoint(m, worker, ids, c);
    assert forall id :: n.IsPending(id) == m.IsPending(id);
  }

  // ---------------------------------------------------------------- what a batch adds

  /** The selected events whose projection matches, and those out of retries. */
  function Matching(ctx: Context, l: Ledger, ids: seq<string>): seq<string> {
    if ids == [] then []
    else (if ids[0] in l.events && Matches(ctx.vectors, ids[0], l.events[ids[0]]) then [ids[0]] else [])
         + Matching(ctx, l, ids[1..])
  }

  function Buried(ctx: Context, l: Ledger, ids: seq<string>): seq<string> {
    if ids == [] then []
    else (if ids[0] in l.events && !Matches(ctx.vectors, ids[0], l.events[ids[0]]) && l.events[ids[0]].retries == 2
          then [ids[0]] else [])
         + Buried(ctx, l, ids[1..])
  }

  function Extracted(ctx: Context, ids: seq<string>): seq<Triple> {
    if ids == [] then [] else TriplesOf(ctx, ids[0]) + Extracted(ctx, ids[1..])
  }

  function LettersOf(ids: seq<string>): seq<DeadLetter> {
    seq(|ids|, i requires 0 <= i < |ids| => DeadLetter(ids[i], 3))
  }

  /** The graph gains the triples of exactly the matching events, in order; the dead letters those of
      exactly the events out of retries, in order; the counters say how many of each. */
  ghost predicate Adds(ctx: Context, l: Ledger, c: Counts, ids: seq<string>, m: Ledger, d: Counts) {
    && m.graph == l.graph.InsertTriples(Extracted(ctx, Matching(ctx, l, ids)))
    && m.deadLetters == l.deadLetters + LettersOf(Buried(ctx, l, ids))
    && d.triples == c.triples + |Extracted(ctx, Matching(ctx, l, ids))|
    && d.consolidated == c.consolidated + |Matching(ctx, l, ids)|
    && d.deadLettered == c.deadLettered + |Buried(ctx, l, ids)|
  }

  lemma {:induction false} UntouchedSelection(ctx: Context, l: Ledger, m: Ledger, ids: seq<string>)
    requires forall id :: id in ids ==> id in l.events && id in m.events && m.events[id] == l.events[id]
    ensures Matching(ctx, m, ids) == Matching(ctx, l, ids) && Buried(ctx, m, ids) == Buried(ctx, l, ids)
  {
    if ids != [] {
      assert ids[0] in ids;
      UntouchedSelection(ctx, l, m, ids[1..]);
    }
  }

  lemma {:induction false} InsertConcat(t: Tables, a: seq<Triple>, b: seq<Triple>)
    ensures t.InsertTriples(a + b) == t.InsertTriples(a).InsertTriples(b)
    decreases |a|
  {
    if a == [] {
      assert a + b == b;
    } else {
      assert (a + b)[1..] == a[1..] + b;
      InsertConcat(t.InsertTriple(a[0]), a[1..], b);
    }
  }

  /** The rest of a loop, seen from the ledger before its first visit. */
  ghost predicate AddsAfterFirst(ctx: Context, l: Ledger, c: Counts, ids: seq<string>, m: Ledger, d: Counts)
    requires ids != [] && ids[0] in l.events
  {
    var l1, c1 := Visit(ctx, l, ids[0]), Tally(ctx, l, ids[0], c);
    && Adds(ctx, l1, c1, ids[1..], m, d)
    && Matching(ctx, l1, ids[1..]) == Matching(ctx, l, ids[1..]) && Buried(ctx, l1, ids[1..]) == Buried(ctx, l, ids[1..])
  }

  lemma AddsConsolidated(ctx: Context, l: Ledger, c: Counts, ids: seq<string>, m: Ledger, d: Counts)
    requires ids != [] && ids[0] in l.events && l.events[ids[0]].retries < MAX_RETRIES
    requires AddsAfterFirst(ctx, l, c, ids, m, d)
    requires Judge(ctx, l, ids[0]).Consolidate?
    ensures Adds(ctx, l, c, ids, m, d)
  {
    var rest := Matching(ctx, l, ids[1..]);
    InsertConcat(l.graph, TriplesOf(ctx, ids[0]), Extracted(ctx, rest));
    ExtractedCons(ctx, ids[0], rest);
    assert [] + Buried(ctx, l, ids[1..]) == Buried(ctx, l, ids[1..]);
  }

  lemma AddsRetried(ctx: Context, l: Ledger, c: Counts, ids: seq<string>, m: Ledger, d: Counts)
    requires ids != [] && ids[0] in l.events && l.events[ids[0]].retries < MAX_RETRIES
    requires AddsAfterFirst(ctx, l, c, ids, m, d)
    requires Judge(ctx, l, ids[0]).Retry?
    ensures Adds(ctx, l, c, ids, m, d)
  {
    assert [] + Matching(ctx, l, ids[1..]) == Matching(ctx, l, ids[1..]);
    assert [] + Buried(ctx, l, ids[1..]) == Buried(ctx, l, ids[1..]);
  }

  lemma AddsBuried(ctx: Context, l: Ledger, c: Counts, ids: seq<string>, m: Ledger, d: Counts)
    requires ids != [] && ids[0] in l.events && l.events[ids[0]].retries < MAX_RETRIES
    requires AddsAfterFirst(ctx, l, c, ids, m, d)
    requires Judge(ctx, l, ids[0]).Bury?
    ensures Adds(ctx, l, c, ids, m, d)
  {
    assert [] + Matching(ctx, l, ids[1..]) == Matching(ctx, l, ids[1..]);
    LettersCons(l.deadLetters, ids[0], Buried(ctx, l, ids[1..]));
  }

  lemma ExtractedCons(ctx: Context, id: string, rest: seq<string>)
    ensures Extracted(ctx, [id] + rest) == TriplesOf(ctx, id) + Extracted(ctx, rest)
  {
    assert ([id] + rest)[1..] == rest;
  }

  lemma LettersCons(letters: seq<DeadLetter>, id: string, rest: seq<string>)
    ensures letters + LettersOf([id] + rest) == (letters + [DeadLetter(id, 3)]) + LettersOf(rest)
  {
  }

  lemma {:induction false} LoopAdds(ctx: Context, l: Ledger, c: Counts, ids: seq<string>)
    requires Distinct(ids) && forall id :: id in ids ==> id in l.events && l.events[id].retries < MAX_RETRIES
    ensures Adds(ctx, l, c, ids, VisitAll(ctx, l, c, ids).0, VisitAll(ctx, l, c, ids).1)
    decreases |ids|
  {
    if ids == [] {
      assert l.deadLetters + LettersOf([]) == l.deadLetters;
    } else {
      var l1, c1 := Visit(ctx, l, ids[0]), Tally(ctx, l, ids[0], c);
      assert ids[0] !in ids[1..];
      assert forall id :: id in ids[1..] ==> id in ids && l1.events[id] == l.events[id];
      UntouchedSelection(ctx, l, l1, ids[1..]);
      LoopAdds(ctx, l1, c1, ids[1..]);
      var (m, d) := VisitAll(ctx, l1, c1, ids[1..]);
      match Judge(ctx, l, ids[0])
      case Consolidate => AddsConsolidated(ctx, l, c, ids, m, d);
      case Retry => AddsRetried(ctx, l, c, ids, m, d);
      case Bury => AddsBuried(ctx, l, c, ids, m, d);
    }
  }

  /** What one batch adds to graph and dead letters, and its counters. */
  lemma BatchAdds(ctx: Context, l: Ledger, worker: string, size: nat)
    requires Sound(l)
    ensures Adds(ctx, l, NOTHING, Window(l, size), Process(ctx, l, worker, size).0, Process(ctx, l, worker, size).1)
  {
    WindowIsDistinct(l, size);
    assert forall id :: id in Window(l, size) ==> l.IsPending(id);
    LoopAdds(ctx, l, NOTHING, Window(l, size));
  }

  /** One run of the consumer: what it could read at that time, its name and its batch size. */
  datatype Turn = Turn(ctx: Context, worker: string, size: nat)

  function Next(l: Ledger, t: Turn): Ledger { Process(t.ctx, l, t.worker, t.size).0 }

  function RunTurns(l: Ledger, turns: seq<Turn>): Ledger
    decreases |turns|
  {
    if turns == [] then l
    else RunTurns(Next(l, turns[0]), turns[1..])
  }

  function TotalProcessed(l: Ledger, turns: seq<Turn>, worker: string): nat
    decreases |turns|
  {
    if turns == [] then 0
    else
      var (m, c) := Process(turns[0].ctx, l, turns[0].worker, turns[0].size);
      (if turns[0].worker == worker then c.processed else 0) + TotalProcessed(m, turns[1..], worker)
  }

  /** Over any run: the ledger stays sound, finished events never change again, and every worker's
      checkpoint is the total it processed. */
  lemma {:induction false} RunKeepsLedger(l: Ledger, turns: seq<Turn>)
    requires Sound(l)
    ensures var m := RunTurns(l, turns);
      && Sound(m) && m.events.Keys == l.events.Keys
      && (forall id :: id in l.events && !l.IsPending(id) ==> m.events[id] == l.events[id])
      && (forall w :: m.LastStep(w) == l.LastStep(w) + TotalProcessed(l, turns, w))
    decreases |turns|
  {
    if turns != [] {
      var t := turns[0];
      var (m, c) := Process(t.ctx, l, t.worker, t.size);
      BatchMovesEach(t.ctx, l, t.worker, t.size);
      FinishedStay(t.ctx, l, t.worker, t.size, m, c);
      RunKeepsLedger(m, turns[1..]);
    }
  }

  lemma FinishedStay(ctx: Context, l: Ledger, worker: string, size: nat, m: Ledger, c: Counts)
    requires BatchOutcome(ctx, l, worker, size, m, c)
    ensures forall id :: id in l.events && !l.IsPending(id) ==> id in m.events && m.events[id] == l.events[id] && !m.IsPending(id)
  {
  }

  // ---------------------------------------------------------------- the drain bound

  ghost predicate TriedAtLeast(l: Ledger, ids: seq<string>, k: nat) {
    forall id :: id in ids ==> id in l.events && l.events[id].retries >= k
  }

  /** A batch selects an event exactly when it is pending and fewer pending ones than the clamped size
      stand before it in the index; that number is its place in the batch. */
  lemma WindowIsFirstPending(l: Ledger, size: nat, k: nat)
    requires Distinct(l.order) && k < |l.order|
    ensures var ahead := |PendingOf(l, l.order[..k])|;
      && (l.order[k] in Window(l, size) <==> l.IsPending(l.order[k]) && ahead < Clamp(size))
      && (l.order[k] in Window(l, size) ==> ahead < |Window(l, size)| && Window(l, size)[ahead] == l.order[k])
    ensures |Window(l, size)| <= Clamp(size)
  {
    var before, rest := l.order[..k], l.order[k..];
    assert l.order == before + rest && rest[0] == l.order[k];
    PendingOfConcat(l, before, rest);
    QueueIsPending(l, l.order);
    if l.IsPending(l.order[k]) {
      PlaceInQueue(Queue(l), PendingOf(l, before), l.order[k], Window(l, size));
    }
  }

  lemma PlaceInQueue(queue: seq<string>, ahead: seq<string>, id: string, window: seq<string>)
    requires Distinct(queue) && |ahead| < |queue| && queue[|ahead|] == id && window <= queue
    ensures id in window <==> |ahead| < |window|
    ensures id in window ==> window[|ahead|] == id
  {
    if i :| 0 <= i < |window| && window[i] == id {
      assert queue[i] == id;
    }
  }

  lemma {:induction false} PendingOfUnchanged(l: Ledger, m: Ledger, ids: seq<string>)
    requires forall id :: id in ids ==> m.IsPending(id) == l.IsPending(id)
    ensures PendingOf(m, ids) == PendingOf(l, ids)
  {
    if ids != [] { PendingOfUnchanged(l, m, ids[1..]); }
  }

  lemma HeadInWindow(m: Ledger, head: string, rest: seq<string>, n: nat)
    requires 1 <= n <= 1 + |rest|
    ensures var q := [head] + rest;
      && q[..n] == [head] + rest[..n - 1] && q[n..] == rest[n - 1..]
      && PendingOf(m, q[..n]) + q[n..]
         == (if m.IsPending(head) then [head] else []) + (PendingOf(m, rest[..n - 1]) + rest[n - 1..])
  {
    var q := [head] + rest;
    assert q[..n] == [head] + rest[..n - 1];
    assert q[..n][1..] == rest[..n - 1];
  }

  /** A batch keeps the queue behind its window, and of the window only what is still pending. */
  lemma {:induction false} PendingOfWindow(l: Ledger, m: Ledger, ids: seq<string>, n: nat)
    requires n <= |PendingOf(l, ids)| && Distinct(ids)
    requires forall id :: id in ids && id !in PendingOf(l, ids)[..n] ==> m.IsPending(id) == l.IsPending(id)
    ensures PendingOf(m, ids) == PendingOf(m, PendingOf(l, ids)[..n]) + PendingOf(l, ids)[n..]
    decreases |ids|
  {
    if n == 0 {
      PendingOfUnchanged(l, m, ids);
    } else if ids != [] {
      assert ids[0] !in ids[1..];
      var rest := PendingOf(l, ids[1..]);
      if l.IsPending(ids[0]) {
        HeadInWindow(m, ids[0], rest, n);
        PendingOfWindow(l, m, ids[1..], n - 1);
      } else {
        assert PendingOf(l, ids) == rest;
        PendingOfWindow(l, m, ids[1..], n);
      }
    }
  }

  lemma {:induction false} PendingOfConcat(l: Ledger, a: seq<string>, b: seq<string>)
    ensures PendingOf(l, a + b) == PendingOf(l, a) + PendingOf(l, b)
    ensures |PendingOf(l, a)| <= |a|
  {
    if a == [] {
      assert a + b == b;
    } else {
      assert (a + b)[1..] == a[1..] + b;
      PendingOfConcat(l, a[1..], b);
    }
  }

  /** A part of the queue's front that fits into the window is tried once more by every batch. */
  lemma FrontIsTried(ctx: Context, l: Ledger, worker: string, size: nat, a: seq<string>, b: seq<string>, k: nat)
    returns (a': seq<string>, b': seq<string>)
    requires Sound(l) && Queue(l) == a + b && |a| <= Clamp(size) && TriedAtLeast(l, a, k)
    ensures var m := Process(ctx, l, worker, size).0;
      && Sound(m) && Queue(m) == a' + b' && |a'| <= |a| && |b'| <= |b| && TriedAtLeast(m, a', k + 1)
  {
    BatchMovesEach(ctx, l, worker, size);
    var (m, c) := Process(ctx, l, worker, size);
    var n := QueueAfter(ctx, l, worker, size, m, c);
    SplitFront(a, b, n);
    a', b' := FrontAfter(ctx, l, m, a, b[..n - |a|], b[n - |a|..], k);
  }

  /** `a` and `c` were in the window, `d` is the rest of the queue. */
  lemma FrontAfter(ctx: Context, l: Ledger, m: Ledger, a: seq<string>, c: seq<string>, d: seq<string>, k: nat)
    returns (a': seq<string>, b': seq<string>)
    requires Queue(m) == PendingOf(m, a + c) + d && TriedAtLeast(l, a, k) && m.events.Keys == l.events.Keys
    requires forall id :: id in a + c ==> id in l.events && Moves(ctx, l.events[id], m.events[id], id)
    ensures Queue(m) == a' + b' && |a'| <= |a| && |b'| <= |c + d| && TriedAtLeast(m, a', k + 1)
  {
    PendingOfConcat(m, a, c);
    PendingOfConcat(m, c, []);
    a', b' := PendingOf(m, a), PendingOf(m, c) + d;
    assert forall id :: id in a ==> id in a + c;
    TriedOnceMore(ctx, l, a + c, m, a, k);
  }

  lemma SplitFront(a: seq<string>, b: seq<string>, n: nat)
    requires |a| <= n <= |a| + |b|
    ensures (a + b)[..n] == a + b[..n - |a|] && (a + b)[n..] == b[n - |a|..]
  {
  }

  lemma TriedOnceMore(ctx: Context, l: Ledger, window: seq<string>, m: Ledger, a: seq<string>, k: nat)
    requires TriedAtLeast(l, a, k) && m.events.Keys == l.events.Keys
    requires forall id :: id in a ==> id in window
    requires forall id :: id in window ==> id in l.events && Moves(ctx, l.events[id], m.events[id], id)
    ensures TriedAtLeast(m, PendingOf(m, a), k + 1)
  {
  }

  lemma QueueAfter(ctx: Context, l: Ledger, worker: string, size: nat, m: Ledger, c: Counts) returns (n: nat)
    requires BatchOutcome(ctx, l, worker, size, m, c) && Distinct(l.order)
    ensures n == Least(Clamp(size), |Queue(l)|) && Queue(l)[..n] == Window(l, size)
    ensures Queue(m) == PendingOf(m, Queue(l)[..n]) + Queue(l)[n..]
  {
    n := |Window(l, size)|;
    PendingOfWindow(l, m, l.order, n);
  }

  function Least(a: nat, b: nat): nat { if a < b then a else b }

  /** Three batches finish at least the first `b` events of the queue. */
  lemma ThreeBatches(l: Ledger, turns: seq<Turn>, b: nat)
    requires Sound(l) && |turns| == MAX_RETRIES && forall t :: t in turns ==> Clamp(t.size) >= b
    ensures Sound(RunTurns(l, turns))
    ensures |Queue(RunTurns(l, turns))| <= |Queue(l)| - Least(b, |Queue(l)|)
  {
    var n := Least(b, |Queue(l)|);
    assert turns[0] in turns && turns[1] in turns && turns[2] in turns;
    ThreeTries(l, turns[0], turns[1], turns[2], n);
    RunThree(l, turns);
  }

  lemma ThreeTries(l: Ledger, t0: Turn, t1: Turn, t2: Turn, n: nat)
    requires Sound(l) && n <= |Queue(l)|
    requires n <= Clamp(t0.size) && n <= Clamp(t1.size) && n <= Clamp(t2.size)
    ensures Sound(Next(Next(Next(l, t0), t1), t2)) && |Queue(Next(Next(Next(l, t0), t1), t2))| <= |Queue(l)| - n
  {
    var a0, b0 := Queue(l)[..n], Queue(l)[n..];
    assert Queue(l) == a0 + b0;
    QueueIsPending(l, l.order);
    var a1, b1 := FrontIsTried(t0.ctx, l, t0.worker, t0.size, a0, b0, 0);
    var l1 := Next(l, t0);
    var a2, b2 := FrontIsTried(t1.ctx, l1, t1.worker, t1.size, a1, b1, 1);
    var l2 := Next(l1, t1);
    var a3, b3 := FrontIsTried(t2.ctx, l2, t2.worker, t2.size, a2, b2, 2);
    NoneTriedThrice(Next(l2, t2), a3, b3);
  }

  lemma RunThree(l: Ledger, turns: seq<Turn>)
    requires |turns| == 3
    ensures RunTurns(l, turns) == Next(Next(Next(l, turns[0]), turns[1]), turns[2])
  {
    var r1 := turns[1..];
    assert r1[0] == turns[1] && r1[1..] == [turns[2]] && [turns[2]][1..] == [];
    var m := Next(Next(l, turns[0]), turns[1]);
    assert RunTurns(m, [turns[2]]) == RunTurns(Next(m, turns[2]), []);
  }

  lemma HeadIsPending(l: Ledger, a: seq<string>, b: seq<string>)
    requires Queue(l) == a + b && a != []
    ensures l.IsPending(a[0])
  {
    assert (a + b)[0] == a[0];
    assert a[0] in Queue(l);
  }

  lemma NoneTriedThrice(l: Ledger, a: seq<string>, b: seq<string>)
    requires Sound(l) && Queue(l) == a + b && TriedAtLeast(l, a, MAX_RETRIES)
    ensures a == []
  {
    if a != [] {
      HeadIsPending(l, a, b);
      assert false;
    }
  }

  /** ceil(n / b). */
  function CeilDiv(n: nat, b: nat): nat
    requires b > 0
  {
    if n == 0 then 0 else 1 + CeilDiv(n - Least(b, n), b)
  }

  lemma {:induction false} CeilDivIsCeiling(n: nat, b: nat)
    requires b > 0
    ensures b * CeilDiv(n, b) - b < n <= b * CeilDiv(n, b)
  {
    if n > 0 {
      var rest := CeilDiv(n - Least(b, n), b);
      CeilDivIsCeiling(n - Least(b, n), b);
      assert b * (1 + rest) == b + b * rest;
    }
  }

  lemma NoQueue(l: Ledger)
    requires Sound(l)
    ensures Queue(l) == [] <==> forall id :: id in l.events ==> !l.IsPending(id)
  {
    QueueIsPending(l, l.order);
    if Queue(l) != [] { assert Queue(l)[0] in Queue(l); }
  }

  lemma EmptyQueueStays(l: Ledger, turns: seq<Turn>)
    requires Sound(l) && Queue(l) == []
    ensures Queue(RunTurns(l, turns)) == []
  {
    NoQueue(l);
    RunKeepsLedger(l, turns);
    NoQueue(RunTurns(l, turns));
  }

  lemma BoundStep(length: nat, n: nat, b: nat)
    requires b > 0 && n > 0 && length >= MAX_RETRIES * CeilDiv(n, b)
    ensures length >= MAX_RETRIES && length - MAX_RETRIES >= MAX_RETRIES * CeilDiv(n - Least(b, n), b)
  {
  }

  lemma {:induction false} DrainsIn(l: Ledger, turns: seq<Turn>, b: nat, n: nat)
    requires Sound(l) && b > 0 && forall t :: t in turns ==> Clamp(t.size) >= b
    requires |Queue(l)| <= n && |turns| >= MAX_RETRIES * CeilDiv(n, b)
    ensures Queue(RunTurns(l, turns)) == []
    decreases n
  {
    if n == 0 {
      EmptyQueueStays(l, turns);
    } else {
      var first, rest := turns[..MAX_RETRIES], turns[MAX_RETRIES..];
      assert turns == first + rest;
      BoundStep(|turns|, n, b);
      ThreeBatches(l, first, b);
      DrainsIn(RunTurns(l, first), rest, b, n - Least(b, n));
      RunTurnsConcat(l, first, rest);
    }
  }

  /** Every event of `l` is still there and is consolidated or dead-lettered. */
  ghost predicate Drained(l: Ledger, m: Ledger) {
    forall id :: id in l.events ==> id in m.events && !m.events[id].status.Pending?
  }

  /** Drain bound: with no new events and no failing statement, every pending event is consolidated
      or dead-lettered after 3 * ceil(n / b) batches of at least `b`, whichever projections are
      missing, appear or vanish between batches. */
  lemma DrainBound(l: Ledger, turns: seq<Turn>, b: nat)
    requires Sound(l) && b > 0 && forall t :: t in turns ==> Clamp(t.size) >= b
    requires |turns| >= 3 * CeilDiv(|Queue(l)|, b)
    ensures Drained(l, RunTurns(l, turns))
  {
    DrainsIn(l, turns, b, |Queue(l)|);
    RunKeepsLedger(l, turns);
    NoQueue(RunTurns(l, turns));
  }

  lemma {:induction false} RunTurnsConcat(l: Ledger, a: seq<Turn>, b: seq<Turn>)
    ensures RunTurns(l, a + b) == RunTurns(RunTurns(l, a), b)
    decreases |a|
  {
    if a == [] {
      assert a + b == b;
    } else {
      assert (a + b)[1..] == a[1..] + b;
      RunTurnsConcat(Next(l, a[0]), a[1..], b);
    }
  }
}
