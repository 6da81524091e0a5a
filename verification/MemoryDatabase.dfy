/** The database as the code writes it: one SQL statement after the other, each of which may fail, in
    a transaction of its own or inside the caller's (liva-native-core/src/db.rs 1416-1535, 1678-1866,
    memory_consolidation.rs 96-254). */
module MemoryDatabase {
  import opened Wrappers
  import opened Crypto
  import opened GraphTables
  import opened VectorTables
  import opened Projection
  import opened MemoryStore
  import opened Rekey
  import opened PersonalData

  class Database {
    const engine: Engine
    const extract: string -> seq<Triple>
    /** Whether the n-th statement fails. */
    const fails: nat -> bool

    var vectors: Vectors
    var ledger: Ledger
    var checkpoints: map<string, string>
    var tick: nat
    ghost var turns: set<string>

    ghost predicate Valid()
      reads this`vectors, this`ledger, this`turns
    {
      vectors.Keyed() && Sound(ledger) && Ordered(ledger) && TurnsMatch(turns, vectors, ledger)
    }

    ghost predicate NothingFails() { forall n :: !fails(n) }

    constructor (engine: Engine, extract: string -> seq<Triple>, fails: nat -> bool)
      ensures Valid() && vectors == EMPTY && turns == {}
      ensures this.engine == engine && this.extract == extract && this.fails == fails
    {
      this.engine, this.extract, this.fails := engine, extract, fails;
      vectors, ledger, checkpoints := EMPTY, Ledger(map[], [], [], map[], Tables(map[], map[])), map[];
      tick, turns := 0, {};
    }

    method Statement() returns (ok: bool)
      modifies this`tick
      ensures tick == old(tick) + 1 && ok == !fails(old(tick))
    {
      tick := tick + 1;
      ok := !fails(tick - 1);
    }

    // -------------------------------------------------------------- upsert_vector

    /** INSERT OR IGNORE, SELECT id, and for a known id UPDATE and DELETE FROM vec_idx. */
    method UpsertMeta(item: Item, stored: string, now: int) returns (n: nat, ok: bool)
      requires vectors.Keyed()
      modifies this`vectors, this`tick
      ensures ok ==> var target := old(vectors).Upsert(item, stored, now);
        && vectors.ids == target.ids && vectors.meta == target.meta && vectors.nextId == target.nextId
        && vectors.fts == old(vectors).fts && n == target.ids[item.vecId]
        && vectors.idx == map k | k in old(vectors).idx && k != n :: old(vectors).idx[k]
      ensures NothingFails() ==> ok
    {
      n := 0;
      ok := Statement();
      if !ok { return; }
      var known := item.vecId in vectors.ids;
      if !known {
        vectors := vectors.(ids := vectors.ids[item.vecId := vectors.nextId],
                            meta := vectors.meta[vectors.nextId := FreshRow(item, stored, now)],
                            nextId := vectors.nextId + 1);
      }
      ok := Statement();
      if !ok { return; }
      n := vectors.ids[item.vecId];
      if known {
        ok := Statement();
        if !ok { return; }
        vectors := vectors.(meta := vectors.meta[n := TouchedRow(item, stored, now, vectors.meta[n])]);
        ok := Statement();
        if !ok { return; }
        vectors := vectors.(idx := map k | k in vectors.idx && k != n :: vectors.idx[k]);
      }
    }

    /** INSERT INTO vec_idx (a taken row id is an error), then DELETE or INSERT OR REPLACE on FTS. */
    method UpsertIndexes(item: Item, n: nat) returns (ok: bool)
      modifies this`vectors, this`tick
      ensures ok ==> n !in old(vectors).idx && vectors == old(vectors).(
        idx := old(vectors).idx[n := item.vector],
        fts := if item.kind == CONVERSATION then map k | k in old(vectors).fts && k != n :: old(vectors).fts[k]
               else old(vectors).fts[n := item.content])
      ensures NothingFails() && n !in old(vectors).idx ==> ok
    {
      ok := Statement();
      if !ok || n in vectors.idx { return false; }
      vectors := vectors.(idx := vectors.idx[n := item.vector]);
      ok := Statement();
      if !ok { return; }
      vectors := vectors.(fts := if item.kind == CONVERSATION then map k | k in vectors.fts && k != n :: vectors.fts[k]
                                 else vectors.fts[n := item.content]);
    }

    method UpsertStatements(item: Item, stored: string, now: int) returns (ok: bool)
      requires vectors.Keyed()
      modifies this`vectors, this`tick
      ensures ok ==> vectors == old(vectors).Upsert(item, stored, now)
      ensures NothingFails() ==> ok
    {
      var n;
      n, ok := UpsertMeta(item, stored, now);
      if !ok { return; }
      ok := UpsertIndexes(item, n);
    }

    /** `upsert_vector`.  With its own transaction a failure changes nothing; inside the caller's it
        leaves the rollback to the caller. */
    method UpsertVector(w: Write, autocommit: bool) returns (ok: bool)
      requires Valid() && engine.prim.Laws() && |w.salt| == SALT_LEN && |w.iv| == IV_LEN
      modifies this`vectors, this`tick, this`turns
      ensures ok ==> Valid() && Accepted(engine, w) && vectors == Store(old(vectors), engine, w)
      ensures ok ==> vectors.Has(w.item.vecId) && Shown(engine, vectors.Row(w.item.vecId)) == Readable(w.item.content)
      ensures ok && w.item.kind == CONVERSATION ==>
        vectors.Row(w.item.vecId).kind == CONVERSATION && engine.Protects(vectors.Row(w.item.vecId).content)
      ensures ok ==> (old(vectors).FtsExact() ==> vectors.FtsExact()) && turns == old(turns) - {w.item.vecId}
      ensures !ok && (autocommit || !Accepted(engine, w)) ==> Valid() && vectors == old(vectors) && turns == old(turns)
      ensures NothingFails() && Acceptable(engine, w) ==> ok
    {
      AcceptedIff(engine, w);
      if |w.item.vector| != VECTOR_DIM { return false; }
      var stored := StoredContent(engine, w);
      if stored.None? { return false; }
      ok := UpsertInTransaction(w.item, stored.value, w.now, autocommit);
      ShownAfterStore(engine, w, FreshRow(w.item, stored.value, w.now));
    }

    method UpsertInTransaction(item: Item, stored: string, now: int, autocommit: bool) returns (ok: bool)
      requires Valid() && (item.kind != CONVERSATION ==> stored == item.content)
      modifies this`vectors, this`tick, this`turns
      ensures ok ==> Valid() && vectors == old(vectors).Upsert(item, stored, now) && turns == old(turns) - {item.vecId}
      ensures ok ==> vectors.Has(item.vecId) && vectors.Row(item.vecId).kind == item.kind
                     && vectors.Row(item.vecId).content == stored
      ensures ok ==> (old(vectors).FtsExact() ==> vectors.FtsExact())
      ensures !ok && autocommit ==> Valid() && vectors == old(vectors) && turns == old(turns)
      ensures NothingFails() ==> ok
    {
      var saved := vectors;
      if autocommit {
        ok := Statement();
        if !ok { return; }
      }
      ok := UpsertStatements(item, stored, now);
      if ok && autocommit { ok := Statement(); }
      if ok {
        UpsertKeepsAgreement(saved, item, stored, now);
        UpsertKeepsTurns(turns, saved, ledger, item, stored, now);
        turns := turns - {item.vecId};
      } else if autocommit {
        vectors := saved;
      }
    }

    // -------------------------------------------------------------- persist_conversation_event_vector

    /** Event row and vector rows as one unit.  On success the turn is one of `turns`: its event
        matches its row, so it can never be retried while nobody upserts that row again. */
    method PersistTurn(id: string, content: string, vector: Embedding, domain: string, category: string,
                       timestamp: int, salt: Bytes, iv: Bytes, now: int, autocommit: bool) returns (ok: bool)
      requires Valid() && engine.prim.Laws() && |salt| == SALT_LEN && |iv| == IV_LEN
      modifies this`vectors, this`tick, this`turns, this`ledger
      ensures var w := Write(TurnItem(id, content, vector, domain, category), salt, iv, now);
        && (ok ==> TurnStored(engine, w, timestamp, domain, category, old(vectors), old(ledger), old(turns), vectors, ledger, turns))
        && (NothingFails() && Acceptable(engine, w) && id !in old(ledger).events ==> ok)
      ensures ok || autocommit ==> Valid()
      ensures !ok && autocommit ==> (vectors, ledger, turns) == (old(vectors), old(ledger), old(turns))
    {
      if !autocommit {
        ok := PersistStatements(id, content, vector, domain, category, timestamp, salt, iv, now);
        return;
      }
      var savedVectors, savedLedger := vectors, ledger;
      ghost var savedTurns := turns;
      ok := Statement();
      if !ok { return; }
      ok := PersistStatements(id, content, vector, domain, category, timestamp, salt, iv, now);
      if ok { ok := Statement(); }
      if !ok { vectors, ledger, turns := savedVectors, savedLedger, savedTurns; }
    }

    method PersistStatements(id: string, content: string, vector: Embedding, domain: string, category: string,
                             timestamp: int, salt: Bytes, iv: Bytes, now: int) returns (ok: bool)
      requires Valid() && engine.prim.Laws() && |salt| == SALT_LEN && |iv| == IV_LEN
      modifies this`vectors, this`tick, this`turns, this`ledger
      ensures var w := Write(TurnItem(id, content, vector, domain, category), salt, iv, now);
        && (ok ==> TurnStored(engine, w, timestamp, domain, category, old(vectors), old(ledger), old(turns), vectors, ledger, turns))
        && (NothingFails() && Acceptable(engine, w) && id !in old(ledger).events ==> ok)
      ensures ok ==> Valid()
    {
      ghost var v, l, t := vectors, ledger, turns;
      var w := Write(TurnItem(id, content, vector, domain, category), salt, iv, now);
      ok := InsertEventRow(id, timestamp, domain, category);
      if !ok { return; }
      ok := UpsertVector(w, false);
      if !ok { return; }
      PersistedTurnMatches(t, v, l, id, content, vector, domain, category, timestamp, StoredContent(engine, w).value, now);
      turns := t + {id};
    }

    /** INSERT INTO events; a known eventId violates the primary key. */
    method InsertEventRow(id: string, timestamp: int, domain: string, category: string) returns (ok: bool)
      requires Valid()
      modifies this`tick, this`ledger
      ensures ok ==> Some(ledger) == InsertEvent(old(ledger), id, timestamp, domain, category)
      ensures Valid() && (!ok ==> ledger == old(ledger))
      ensures NothingFails() && id !in old(ledger).events ==> ok
    {
      ok := Statement();
      if !ok || id in ledger.events { return false; }
      InsertKeepsSound(ledger, id, timestamp, domain, category);
      InsertKeepsOrder(ledger, id, timestamp, domain, category);
      ledger := InsertEvent(ledger, id, timestamp, domain, category).value;
    }

    // -------------------------------------------------------------- process_pending_batch

    function Reads(): Context
      reads this`vectors
    {
      Context(vectors, engine, extract)
    }

    /** One batch, in its own transaction or the caller's. */
    method ProcessPendingBatch(worker: string, size: nat, autocommit: bool) returns (counts: Counts, ok: bool)
      requires Valid()
      modifies this`tick, this`ledger
      ensures ok ==> Valid() && (ledger, counts) == Process(Reads(), old(ledger), worker, size)
      ensures ok ==> BatchOutcome(Reads(), old(ledger), worker, size, ledger, counts)
      ensures !ok && autocommit ==> Valid() && ledger == old(ledger)
      ensures NothingFails() ==> ok
    {
      counts := NOTHING;
      var saved := ledger;
      if autocommit {
        ok := Statement();
        if !ok { return; }
      }
      counts, ok := BatchStatements(worker, size);
      if ok && autocommit { ok := Statement(); }
      if ok {
        BatchMovesEach(Reads(), saved, worker, size);
        TurnConsolidatedOnFirstVisit(turns, Reads(), saved, worker, size);
        BatchKeepsOrder(Reads(), saved, worker, size);
      } else if autocommit {
        ledger := saved;
      }
    }

    /** SELECT the window, visit each event, write the checkpoint when there was any. */
    method BatchStatements(worker: string, size: nat) returns (counts: Counts, ok: bool)
      modifies this`tick, this`ledger
      requires Sound(ledger)
      ensures ok ==> (ledger, counts) == Process(Reads(), old(ledger), worker, size)
      ensures NothingFails() ==> ok
    {
      counts := NOTHING;
      ok := Statement();
      if !ok { return; }
      var ids := Window(ledger, size);
      WindowIsDistinct(ledger, size);
      counts, ok := VisitEvents(ids);
      if !ok || ids == [] { return; }
      ok := Statement();
      if !ok { return; }
      ledger := WithCheckpoint(ledger, worker, ids, counts);
    }

    method VisitEvents(ids: seq<string>) returns (counts: Counts, ok: bool)
      modifies this`tick, this`ledger
      requires Distinct(ids) && (forall id :: id in ids ==> id in ledger.events && ledger.IsPending(id))
      ensures ok ==> (ledger, counts) == VisitAll(Reads(), old(ledger), NOTHING, ids)
      ensures NothingFails() ==> ok
    {
      counts, ok := NOTHING, true;
      var picked := ledger.events;
      assert ids[0..] == ids;
      forall j | 0 <= j < |ids| ensures ids[j] in picked && picked[ids[j]].status.Pending? { assert ids[j] in ids; }
      for i := 0 to |ids|
        invariant ledger.events.Keys == picked.Keys
        invariant forall j :: i <= j < |ids| ==> ids[j] in picked && ledger.events[ids[j]] == picked[ids[j]] && picked[ids[j]].status.Pending?
        invariant VisitAll(Reads(), old(ledger), NOTHING, ids) == VisitAll(Reads(), ledger, counts, ids[i..])
      {
        assert ids[i..][0] == ids[i] && ids[i..][1..] == ids[i + 1..];
        ghost var before := ledger.events;
        counts, ok := VisitEvent(ids[i], picked[ids[i]], counts);
        if !ok { return; }
      }
    }

    /** One event of the batch, as it was when the batch selected it. */
    method VisitEvent(id: string, e: Event, c: Counts) returns (counts: Counts, ok: bool)
      modifies this`tick, this`ledger
      requires ledger.IsPending(id) && ledger.events[id] == e
      ensures ok ==> ledger == Visit(Reads(), old(ledger), id) && counts == Tally(Reads(), old(ledger), id, c)
      ensures ok ==> ledger.events.Keys == old(ledger).events.Keys
                     && forall other :: other in ledger.events && other != id ==> ledger.events[other] == old(ledger).events[other]
      ensures NothingFails() ==> ok
    {
      counts := c;
      ok := Statement();
      if !ok { return; }
      if Matches(vectors, id, e) {
        counts, ok := ConsolidateEvent(id, e, c);
      } else {
        ok := RetryOrBury(id, e);
        if !ok { return; }
        counts := if e.retries + 1 >= MAX_RETRIES then c.(processed := c.processed + 1, deadLettered := c.deadLettered + 1)
                  else c.(processed := c.processed + 1, retried := c.retried + 1);
      }
    }

    /** UPDATE events ... WHERE eventId = ? AND consolidation_status = 'pending' */
    method UpdatePending(id: string, e: Event) returns (updated: nat, ok: bool)
      modifies this`tick, this`ledger
      requires ledger.IsPending(id)
      ensures ok == !fails(old(tick))
      ensures ok ==> updated == 1 && ledger == old(ledger).(events := old(ledger).events[id := e])
    {
      updated := 0;
      ok := Statement();
      if ok && ledger.IsPending(id) {
        ledger := ledger.(events := ledger.events[id := e]);
        updated := 1;
      }
    }

    method RetryOrBury(id: string, e: Event) returns (ok: bool)
      modifies this`tick, this`ledger
      requires ledger.IsPending(id) && ledger.events[id] == e && !Matches(vectors, id, e)
      ensures ok ==> ledger == Visit(Reads(), old(ledger), id)
      ensures NothingFails() ==> ok
    {
      var updated;
      UnmatchedVisit(Reads(), ledger, id);
      if e.retries + 1 >= MAX_RETRIES {
        updated, ok := UpdatePending(id, e.(status := DeadLettered, retries := e.retries + 1));
        if !ok { return; }
        if updated > 0 {
          ok := Statement();
          if !ok { return; }
          ledger := ledger.(deadLetters := ledger.deadLetters + [DeadLetter(id, e.retries + 1)]);
        }
      } else {
        updated, ok := UpdatePending(id, e.(retries := e.retries + 1));
      }
    }

    method ConsolidateEvent(id: string, e: Event, c: Counts) returns (counts: Counts, ok: bool)
      modifies this`tick, this`ledger
      requires ledger.IsPending(id) && ledger.events[id] == e && Matches(vectors, id, e)
      ensures ok ==> ledger == Visit(Reads(), old(ledger), id) && counts == Tally(Reads(), old(ledger), id, c)
      ensures NothingFails() ==> ok
    {
      counts := c;
      ok := Statement();
      if !ok { return; }
      var triples := TriplesOf(Reads(), id);
      ok := InsertTripleRows(triples);
      if !ok { return; }
      var updated;
      updated, ok := UpdatePending(id, e.(status := Consolidated));
      counts := c.(processed := c.processed + updated, consolidated := c.consolidated + updated,
                   triples := c.triples + |triples|);
    }

    method InsertTripleRows(triples: seq<Triple>) returns (ok: bool)
      modifies this`tick, this`ledger
      ensures ok ==> ledger == old(ledger).(graph := old(ledger).graph.InsertTriples(triples))
      ensures NothingFails() ==> ok
    {
      ok := true;
      assert triples[0..] == triples;
      for i := 0 to |triples|
        invariant old(ledger).graph.InsertTriples(triples) == ledger.graph.InsertTriples(triples[i..])
        invariant ledger == old(ledger).(graph := ledger.graph)
      {
        assert triples[i..][0] == triples[i] && triples[i..][1..] == triples[i + 1..];
        ok := InsertTripleRow(triples[i]);
        if !ok { return; }
      }
    }

    /** Subject node, object node, edge; the edge's foreign keys are checked. */
    method InsertTripleRow(t: Triple) returns (ok: bool)
      modifies this`tick, this`ledger
      ensures ok ==> ledger == old(ledger).(graph := old(ledger).graph.InsertTriple(t))
      ensures NothingFails() ==> ok
    {
      ok := Statement();
      if !ok { return; }
      ledger := ledger.(graph := ledger.graph.UpsertNode(t.subject, t.subject));
      ok := Statement();
      if !ok { return; }
      ledger := ledger.(graph := ledger.graph.UpsertNode(t.obj, t.obj));
      ok := Statement();
      var linked := ledger.graph.UpsertEdge(EdgeKey(t.subject, t.obj, t.relation), t.weight);
      if !ok || linked.None? { return false; }
      ledger := ledger.(graph := linked.value);
    }

    // -------------------------------------------------------------- rekey_personal_data_encryption

    /** The second phase, on whatever the tables hold by then: conditional updates of both tables,
        removal of the conversation rows from FTS, one transaction. */
    method ApplyPersonalRekey(live: Engine, extras: seq<Engine>, sealed: seq<Update<string>>, rewritten: seq<Update<nat>>,
                              locked: nat, writeFails: nat -> bool)
      returns (result: Option<Report>)
      requires Valid() && SoundPlan(live, extras, sealed) && SoundPlan(live, extras, rewritten)
      modifies this`vectors, this`checkpoints
      ensures Valid()
      ensures result.None? ==> vectors == old(vectors) && checkpoints == old(checkpoints)
      ensures result.Some? ==>
        && TableAfter(sealed, old(checkpoints), checkpoints)
        && Contents(vectors).Keys == old(vectors).meta.Keys
        && TableAfter(rewritten, Contents(old(vectors)), Contents(vectors))
        && vectors == WithoutTurnFts(WithContents(old(vectors), Contents(vectors)))
        && result.value == Report(|Changed(old(checkpoints), checkpoints)|
                                  + |Changed(Contents(old(vectors)), Contents(vectors))|, locked, |TurnsInFts(old(vectors))|)
      ensures (forall n :: !writeFails(n)) ==> result.Some?
    {
      if writeFails(0) || writeFails(1) { return None; }
      SoundPlanChanges(live, extras, sealed);
      var first := ApplyConditionally(checkpoints, sealed, 4, writeFails);
      if first.None? { return None; }
      SoundPlanChanges(live, extras, rewritten);
      var second := ApplyConditionally(Contents(vectors), rewritten, 4 + |sealed|, writeFails);
      if second.None? || writeFails(2) || writeFails(3) { return None; }
      ContentsKeepIndex(vectors, second.value.0, turns, ledger);
      var removed := |TurnsInFts(vectors)|;
      vectors := WithoutTurnFts(WithContents(vectors, second.value.0));
      checkpoints := first.value.0;
      result := Some(Report(first.value.1 + second.value.1, locked, removed));
    }

    /** `rekey_personal_data_encryption` with nobody writing between its two phases. */
    method RekeyPersonalData(live: Engine, extras: seq<Engine>, draws: Draws, readFails: nat -> bool, writeFails: nat -> bool)
      returns (result: Option<Report>)
      requires Valid() && live.prim.Laws() && GoodDraws(draws)
      modifies this`vectors, this`checkpoints
      ensures Valid()
      ensures result.None? ==> vectors == old(vectors) && checkpoints == old(checkpoints)
      ensures result.Some? ==>
        PersonalOutcome(live, extras, old(checkpoints), old(vectors), checkpoints, vectors, result.value)
      ensures result.Some? && old(vectors).FtsCovers() ==> vectors.Agrees()
      ensures AlwaysSeals(live, draws) && (forall i :: !readFails(i) && !writeFails(i)) ==> result.Some?
    {
      var n := |checkpoints|;
      var one := Scan(SealPlaintext, live, extras, checkpoints, draws, readFails);
      if one.None? { return None; }
      var two := Scan(SealPlaintext, live, extras, TurnContents(vectors), (i: nat) => draws(i + n), (i: nat) => readFails(i + n));
      if two.None? { return None; }
      var (sealed, locked) := one.value;
      var (rewritten, lockedTurns) := two.value;
      result := ApplyPersonalRekey(live, extras, sealed, rewritten, locked + lockedTurns, writeFails);
      if result.None? { return; }
      TurnPlanOutcome(live, extras, old(vectors), rewritten, Contents(vectors));
      QuietRekeyOutcome(SealPlaintext, live, extras, old(checkpoints), sealed, checkpoints);
      QuietRekeyOutcome(SealPlaintext, live, extras, TurnContents(old(vectors)), rewritten, TurnContents(vectors));
      if old(vectors).FtsCovers() { RekeyRestoresAgreement(old(vectors), vectors); }
    }
  }

  lemma UnmatchedVisit(ctx: Context, l: Ledger, id: string)
    requires id in l.events && !Matches(ctx.vectors, id, l.events[id])
    ensures var e := l.events[id]; var n := e.retries + 1;
      Visit(ctx, l, id) ==
        if n >= MAX_RETRIES then l.(events := l.events[id := e.(status := DeadLettered, retries := n)],
                                    deadLetters := l.deadLetters + [DeadLetter(id, n)])
        else l.(events := l.events[id := e.(retries := n)])
  {
  }

  /** Rewriting contents leaves keys and matching turns alone. */
  lemma ContentsKeepIndex(v: Vectors, contents: map<nat, string>, turns: set<string>, l: Ledger)
    requires v.Keyed() && TurnsMatch(turns, v, l) && contents.Keys == v.meta.Keys
    ensures var u := WithoutTurnFts(WithContents(v, contents));
      u.Keyed() && TurnsMatch(turns, u, l) && Contents(u) == contents
  {
    var u := WithoutTurnFts(WithContents(v, contents));
    forall n | n in v.meta ensures n in u.meta && u.meta[n] == v.meta[n].(content := contents[n]) {}
    assert Contents(u) == contents;
  }

  lemma BatchKeepsOrder(ctx: Context, l: Ledger, worker: string, size: nat)
    requires Sound(l) && Ordered(l)
    ensures Ordered(Process(ctx, l, worker, size).0)
  {
    BatchMovesEach(ctx, l, worker, size);
    var (m, c) := Process(ctx, l, worker, size);
    SameTimes(ctx, l, worker, size, m, c);
  }

  lemma SameTimes(ctx: Context, l: Ledger, worker: string, size: nat, m: Ledger, c: Counts)
    requires Ordered(l) && BatchOutcome(ctx, l, worker, size, m, c)
    ensures Ordered(m)
  {
    assert forall id :: id in l.events ==> m.events[id].timestamp == l.events[id].timestamp;
  }
}
