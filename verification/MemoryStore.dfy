/** Vector memory, event ledger and agent checkpoints as one database, written statement by statement
    (liva-native-core/src/db.rs 1416-1535, 1678-1866, memory_consolidation.rs 96-254). */
module MemoryStore {
  import opened Wrappers
  import opened Crypto
  import opened GraphTables
  import opened VectorTables
  import opened Projection

  // ---------------------------------------------------------------- the index on (timestamp, eventId)

  predicate LexLess(a: string, b: string) {
    b != "" && (a == "" || a[0] < b[0] || (a[0] == b[0] && LexLess(a[1..], b[1..])))
  }

  lemma {:induction false} LexTotal(a: string, b: string)
    ensures a == b || LexLess(a, b) || LexLess(b, a)
  {
    if a != "" && b != "" && a[0] == b[0] {
      LexTotal(a[1..], b[1..]);
      if a[1..] == b[1..] { assert a == [a[0]] + a[1..] && b == [b[0]] + b[1..]; }
    }
  }

  /** Strings are compared by their first difference; a prefix comes first. */
  lemma {:induction false} LexLessIff(a: string, b: string)
    ensures LexLess(a, b) <==> exists n: nat :: DiffersAt(a, b, n)
  {
    if LexLess(a, b) {
      if a == "" || a[0] < b[0] {
        assert DiffersAt(a, b, 0);
      } else {
        LexLessIff(a[1..], b[1..]);
        var n: nat :| DiffersAt(a[1..], b[1..], n);
        assert a[..n + 1] == [a[0]] + a[1..][..n] && b[..n + 1] == [b[0]] + b[1..][..n];
        assert DiffersAt(a, b, n + 1);
      }
    }
    if n: nat :| DiffersAt(a, b, n) {
      if n > 0 {
        assert a[0] == a[..n][0] && b[0] == b[..n][0];
        assert a[1..][..n - 1] == a[..n][1..] && b[1..][..n - 1] == b[..n][1..];
        assert DiffersAt(a[1..], b[1..], n - 1);
        LexLessIff(a[1..], b[1..]);
      }
    }
  }

  ghost predicate DiffersAt(a: string, b: string, n: nat) {
    n <= |a| && n < |b| && a[..n] == b[..n] && (n == |a| || a[n] < b[n])
  }

  predicate Before(s: int, a: string, t: int, b: string) { s < t || (s == t && LexLess(a, b)) }

  ghost predicate Ordered(l: Ledger) {
    forall i :: 0 < i < |l.order| && l.order[i - 1] in l.events && l.order[i] in l.events ==>
      Before(l.events[l.order[i - 1]].timestamp, l.order[i - 1], l.events[l.order[i]].timestamp, l.order[i])
  }

  lemma {:induction false} LexTrans(a: string, b: string, c: string)
    requires LexLess(a, b) && LexLess(b, c)
    ensures LexLess(a, c)
  {
    if a != "" && a[0] == b[0] && b[0] == c[0] { LexTrans(a[1..], b[1..], c[1..]); }
  }

  /** The index is sorted: by timestamp, and by eventId among equal ones. */
  lemma {:induction false} IndexIsSorted(l: Ledger, i: nat, j: nat)
    requires Ordered(l) && (forall id :: id in l.order ==> id in l.events) && i < j < |l.order|
    ensures var a, b := l.order[i], l.order[j];
      a in l.events && b in l.events
      && (l.events[a].timestamp < l.events[b].timestamp
          || (l.events[a].timestamp == l.events[b].timestamp && LexLess(a, b)))
    decreases j - i
  {
    assert l.order[i] in l.order && l.order[j] in l.order && l.order[j - 1] in l.order;
    if i < j - 1 {
      IndexIsSorted(l, i, j - 1);
      if LexLess(l.order[i], l.order[j - 1]) && LexLess(l.order[j - 1], l.order[j]) {
        LexTrans(l.order[i], l.order[j - 1], l.order[j]);
      }
    }
  }

  /** Where a new event belongs in the index. */
  function Place(l: Ledger, id: string, timestamp: int, from: nat): (n: nat)
    requires from <= |l.order|
    ensures from <= n <= |l.order|
    ensures forall i :: from <= i < n && l.order[i] in l.events ==>
      !Before(timestamp, id, l.events[l.order[i]].timestamp, l.order[i])
    ensures n < |l.order| && l.order[n] in l.events ==>
      Before(timestamp, id, l.events[l.order[n]].timestamp, l.order[n])
    decreases |l.order| - from
  {
    if from == |l.order| then from
    else if l.order[from] in l.events && Before(timestamp, id, l.events[l.order[from]].timestamp, l.order[from]) then from
    else Place(l, id, timestamp, from + 1)
  }

  /** A new pending event; `None` when the id is taken. */
  function InsertEvent(l: Ledger, id: string, timestamp: int, domain: string, category: string): Option<Ledger> {
    if id in l.events then None
    else
      var n := Place(l, id, timestamp, 0);
      Some(l.(events := l.events[id := Event(timestamp, domain, category, Pending, 0)],
              order := l.order[..n] + [id] + l.order[n..]))
  }

  lemma InsertKeepsOrder(l: Ledger, id: string, timestamp: int, domain: string, category: string)
    requires Sound(l) && Ordered(l) && id !in l.events
    ensures Ordered(InsertEvent(l, id, timestamp, domain, category).value)
  {
    var m := InsertEvent(l, id, timestamp, domain, category).value;
    var n := Place(l, id, timestamp, 0);
    forall i | 0 < i < |m.order| && m.order[i - 1] in m.events && m.order[i] in m.events
      ensures Before(m.events[m.order[i - 1]].timestamp, m.order[i - 1], m.events[m.order[i]].timestamp, m.order[i])
    {
      if i == n {
        LexTotal(id, l.order[n - 1]);
        assert l.order[n - 1] in l.order;
      } else if i == n + 1 {
        assert m.order[i] == l.order[n] && l.order[n] in l.order;
      } else {
        var j := if i < n then i else i - 1;
        assert l.order[j - 1] in l.order && l.order[j] in l.order;
      }
    }
  }

  lemma DistinctInsert(a: seq<string>, b: seq<string>, id: string)
    requires Distinct(a + b) && id !in a + b
    ensures Distinct(a + [id] + b)
    ensures forall x :: x in a + [id] + b <==> x == id || x in a + b
  {
    var longer := a + [id] + b;
    forall i, j | 0 <= i < j < |longer| ensures longer[i] != longer[j] {
      var at := (k: int) => if k <= |a| then k else k - 1;
      assert i != |a| ==> longer[i] == (a + b)[at(i)];
      assert j != |a| ==> longer[j] == (a + b)[at(j)];
    }
  }

  lemma NewEventLetters(l: Ledger, id: string, e: Event, events: map<string, Event>)
    requires Sound(l) && id !in l.events && e.status.Pending? && events == l.events[id := e]
    ensures forall other :: LettersMatch(l.deadLetters, events, other)
  {
    forall other ensures LettersMatch(l.deadLetters, events, other) {
      assert LettersMatch(l.deadLetters, l.events, other);
    }
  }

  lemma InsertKeepsSound(l: Ledger, id: string, timestamp: int, domain: string, category: string)
    requires Sound(l) && id !in l.events
    ensures Sound(InsertEvent(l, id, timestamp, domain, category).value)
  {
    var m := InsertEvent(l, id, timestamp, domain, category).value;
    var n := Place(l, id, timestamp, 0);
    assert l.order == l.order[..n] + l.order[n..];
    DistinctInsert(l.order[..n], l.order[n..], id);
    NewEventLetters(l, id, m.events[id], m.events);
    assert forall other :: m.IsPending(other) && other != id ==> l.IsPending(other);
  }

  // ---------------------------------------------------------------- turns that are never retried

  /** The turns written together with their own event and not upserted since: each one's event
      matches its row, was never retried and is not dead-lettered. */
  ghost predicate TurnsMatch(turns: set<string>, v: Vectors, l: Ledger) {
    forall id :: id in turns ==>
      && id in l.events && Matches(v, id, l.events[id])
      && l.events[id].retries == 0 && !l.events[id].status.DeadLettered?
  }

  /** Such a turn is consolidated by the first batch that visits it. */
  lemma TurnConsolidatedOnFirstVisit(turns: set<string>, ctx: Context, l: Ledger, worker: string, size: nat)
    requires Sound(l) && TurnsMatch(turns, ctx.vectors, l)
    ensures var m := Process(ctx, l, worker, size).0;
      && TurnsMatch(turns, ctx.vectors, m)
      && forall id :: id in turns && id in Window(l, size) ==> m.events[id].status.Consolidated?
  {
    BatchMovesEach(ctx, l, worker, size);
    var (m, c) := Process(ctx, l, worker, size);
    TurnsAfterBatch(turns, ctx, l, worker, size, m, c);
  }

  lemma TurnsAfterBatch(turns: set<string>, ctx: Context, l: Ledger, worker: string, size: nat, m: Ledger, c: Counts)
    requires TurnsMatch(turns, ctx.vectors, l) && BatchOutcome(ctx, l, worker, size, m, c)
    ensures TurnsMatch(turns, ctx.vectors, m)
    ensures forall id :: id in turns && id in Window(l, size) ==> id in m.events && m.events[id].status.Consolidated?
  {
    forall id | id in turns
      ensures id in m.events && Matches(ctx.vectors, id, m.events[id])
      ensures m.events[id].retries == 0 && !m.events[id].status.DeadLettered?
      ensures id in Window(l, size) ==> m.events[id].status.Consolidated?
    {
      if id in Window(l, size) { assert Moves(ctx, l.events[id], m.events[id], id); }
    }
  }

  lemma UpsertKeepsTurns(turns: set<string>, v: Vectors, l: Ledger, item: Item, stored: string, now: int)
    requires v.Keyed() && TurnsMatch(turns, v, l)
    ensures TurnsMatch(turns - {item.vecId}, v.Upsert(item, stored, now), l)
  {
    UpsertTouchesOneRow(v, item, stored, now);
  }

  /** The item `persist_conversation_event_vector` upserts. */
  function TurnItem(id: string, content: string, vector: Embedding, domain: string, category: string): Item {
    Item(id, CONVERSATION, content, vector, Some(domain), Some(category), None, None, Some([id]))
  }

  /** What a successful `persist_conversation_event_vector` does to tables, ledger and `turns`: event
      and rows are there, the content reads back, and the turn joins those that cannot be retried. */
  ghost predicate TurnStored(engine: Engine, w: Write, timestamp: int, domain: string, category: string,
                             v: Vectors, l: Ledger, turns: set<string>, u: Vectors, m: Ledger, joined: set<string>)
  {
    && Accepted(engine, w) && u == Store(v, engine, w)
    && Some(m) == InsertEvent(l, w.item.vecId, timestamp, domain, category)
    && m.IsPending(w.item.vecId) && m.events[w.item.vecId] == Event(timestamp, domain, category, Pending, 0)
    && w.item.vecId !in l.events && (forall x :: x in m.order <==> x == w.item.vecId || x in l.order)
    && joined == turns + {w.item.vecId} && TurnsMatch(joined, u, m)
    && u.Has(w.item.vecId) && Shown(engine, u.Row(w.item.vecId)) == Readable(w.item.content)
    && engine.Protects(u.Row(w.item.vecId).content)
    && (v.FtsExact() ==> u.FtsExact())
  }

  lemma PersistedTurnMatches(turns: set<string>, v: Vectors, l: Ledger, id: string, content: string, vector: Embedding,
                             domain: string, category: string, timestamp: int, stored: string, now: int)
    requires v.Keyed() && TurnsMatch(turns, v, l) && id !in l.events
    ensures TurnsMatch(turns + {id}, v.Upsert(TurnItem(id, content, vector, domain, category), stored, now),
                       InsertEvent(l, id, timestamp, domain, category).value)
  {
    var item := TurnItem(id, content, vector, domain, category);
    UpsertTouchesOneRow(v, item, stored, now);
    var m := InsertEvent(l, id, timestamp, domain, category).value;
    var u := v.Upsert(item, stored, now);
    assert Matches(u, id, m.events[id]);
  }

  // ---------------------------------------------------------------- from the words that were said

  /** After any run of upserts an event matches its row exactly when the last accepted write of its id
      was a conversation turn of the event's domain and category naming that id as its one source. */
  lemma MatchesIffWritten(engine: Engine, ws: seq<Write>, id: string, e: Event)
    requires engine.prim.Laws() && GoodWrites(ws)
    ensures var last := LastWrite(engine, ws, id);
      Matches(StoreAll(EMPTY, engine, ws), id, e) <==>
        && last.Some? && last.value.item.kind == "conversation_turn"
        && (if last.value.item.domain.Some? then last.value.item.domain.value else "General") == e.domain
        && (if last.value.item.category.Some? then last.value.item.category.value else "Uncategorized") == e.category
        && last.value.item.eventIds == Some([id])
  {
    IndexAgreement(engine, ws);
    var v := StoreAll(EMPTY, engine, ws);
    assert VecOutcome(engine, ws, v, id);
    if v.Has(id) { SingleSource(v.Row(id).eventIds, OrElse(LastWrite(engine, ws, id).value.item.eventIds, []), id); }
  }

  lemma SingleSource(stored: Option<seq<string>>, given: seq<string>, id: string)
    requires stored.Some? && stored.value <= given && |stored.value| <= 50
    requires |stored.value| == 50 || stored == Some(given)
    ensures stored == Some([id]) <==> given == [id]
  {
  }

  /** The triples of a turn are extracted from what was said, not from what is stored: after any run of
      upserts, from the plain content of the last accepted write; an empty one yields none. */
  lemma TriplesFromTheWordsSaid(engine: Engine, ws: seq<Write>, extract: string -> seq<Triple>, id: string)
    requires engine.prim.Laws() && GoodWrites(ws)
    requires var last := LastWrite(engine, ws, id); last.Some? && last.value.item.kind == "conversation_turn"
    ensures var said := LastWrite(engine, ws, id).value.item.content;
      TriplesOf(Context(StoreAll(EMPTY, engine, ws), engine, extract), id) == if said == "" then [] else extract(said)
  {
    IndexAgreement(engine, ws);
    assert VecOutcome(engine, ws, StoreAll(EMPTY, engine, ws), id);
  }

  /** The same for one write on any tables: consolidating the turn it wrote adds exactly those triples to
      the graph. */
  lemma ConsolidationLearnsWhatWasSaid(ctx: Context, v: Vectors, w: Write, l: Ledger)
    requires ctx.engine.prim.Laws() && |w.salt| == SALT_LEN && |w.iv| == IV_LEN && v.Keyed()
    requires Acceptable(ctx.engine, w) && w.item.kind == "conversation_turn" && ctx.vectors == Store(v, ctx.engine, w)
    requires w.item.vecId in l.events && Matches(ctx.vectors, w.item.vecId, l.events[w.item.vecId])
    ensures Visit(ctx, l, w.item.vecId).graph
         == l.graph.InsertTriples(if w.item.content == "" then [] else ctx.extract(w.item.content))
  {
    AcceptedIff(ctx.engine, w);
    UpsertTouchesOneRow(v, w.item, StoredContent(ctx.engine, w).value, w.now);
    ShownAfterStore(ctx.engine, w, ctx.vectors.Row(w.item.vecId));
  }

  /** A turn this key cannot read is consolidated without adding anything. */
  lemma LockedTurnAddsNothing(ctx: Context, l: Ledger, id: string)
    requires id in l.events && Matches(ctx.vectors, id, l.events[id])
    requires ctx.engine.ReadFact(ctx.vectors.Row(id).content).Locked?
    ensures Visit(ctx, l, id).graph == l.graph && Visit(ctx, l, id).events[id].status.Consolidated?
  {
  }
}
