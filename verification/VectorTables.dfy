/** The three tables of the vector memory: metadata, dense index and full-text index
    (liva-native-core/src/db.rs 463-484, 1642-1793). */
module VectorTables {
  import opened Wrappers
  import opened Crypto

  const VECTOR_DIM := 384
  const MAX_EVENT_IDS := 50
  const CONVERSATION := "conversation_turn"

  type Embedding = seq<real>

  /** A row of `vectors_meta`; `eventIds` is `None` when the stored text is no list of strings. */
  datatype MetaRow = MetaRow(
    vecId: string, kind: string, content: string, domain: string, category: string,
    keywords: seq<string>, fileTarget: Option<string>, eventIds: Option<seq<string>>,
    createdAt: int, lastAccessedAt: int, accessCount: nat)

  /** The arguments of one upsert. */
  datatype Item = Item(
    vecId: string, kind: string, content: string, vector: Embedding,
    domain: Option<string>, category: Option<string>, keywords: Option<seq<string>>,
    fileTarget: Option<string>, eventIds: Option<seq<string>>)

  function OrElse<T>(o: Option<T>, default: T): T { if o.Some? then o.value else default }

  function Capped(ids: seq<string>): seq<string> { if |ids| > MAX_EVENT_IDS then ids[..MAX_EVENT_IDS] else ids }

  /** The columns both INSERT and UPDATE write; the rest is kept from `row`. */
  function Written(item: Item, stored: string, row: MetaRow): MetaRow {
    row.(vecId := item.vecId, kind := item.kind, content := stored,
         domain := OrElse(item.domain, "General"), category := OrElse(item.category, "Uncategorized"),
         keywords := OrElse(item.keywords, []), fileTarget := item.fileTarget,
         eventIds := Some(Capped(OrElse(item.eventIds, []))))
  }

  function FreshRow(item: Item, stored: string, now: int): MetaRow {
    Written(item, stored, MetaRow("", "", "", "", "", [], None, None, now, 0, 0))
  }

  function TouchedRow(item: Item, stored: string, now: int, row: MetaRow): MetaRow {
    Written(item, stored, row.(lastAccessedAt := now, accessCount := row.accessCount + 1))
  }

  /** `ids` is the UNIQUE index on vec_id; `idx` and `fts` are keyed by row id. */
  datatype Vectors = Vectors(ids: map<string, nat>, meta: map<nat, MetaRow>, idx: map<nat, Embedding>,
                             fts: map<nat, string>, nextId: nat)
  {
    /** Row ids and vec_ids are in bijection, and the dense index has exactly the metadata's rows. */
    ghost predicate Keyed() {
      && (forall n :: n in meta ==> n < nextId && meta[n].vecId in ids && ids[meta[n].vecId] == n)
      && (forall s :: s in ids ==> ids[s] in meta && meta[ids[s]].vecId == s)
      && idx.Keys == meta.Keys
    }

    predicate IsTurn(n: nat) { n in meta && meta[n].kind == CONVERSATION }

    /** Every row that is not a conversation turn is indexed under its own content. */
    ghost predicate FtsCovers() {
      && fts.Keys <= meta.Keys
      && forall n :: n in meta && !IsTurn(n) ==> n in fts && fts[n] == meta[n].content
    }

    /** ... and no conversation turn is. */
    ghost predicate FtsExact() {
      FtsCovers() && forall n :: n in fts ==> !IsTurn(n)
    }

    ghost predicate Agrees() { Keyed() && FtsExact() }

    predicate Has(vecId: string) { vecId in ids && ids[vecId] in meta }

    function Row(vecId: string): MetaRow
      requires Has(vecId)
    {
      meta[ids[vecId]]
    }

    /** What `upsert_vector` leaves behind when every statement succeeds. */
    function Upsert(item: Item, stored: string, now: int): Vectors {
      var known := Has(item.vecId);
      var n := if known then ids[item.vecId] else nextId;
      Vectors(ids[item.vecId := n],
              meta[n := if known then TouchedRow(item, stored, now, meta[n]) else FreshRow(item, stored, now)],
              idx[n := item.vector],
              if item.kind == CONVERSATION then map k | k in fts && k != n :: fts[k] else fts[n := item.content],
              if known then nextId else nextId + 1)
    }
  }

  const EMPTY := Vectors(map[], map[], map[], map[], 0)

  /** An upsert keeps the three tables in agreement, whatever type the row had before. */
  lemma UpsertKeepsAgreement(v: Vectors, item: Item, stored: string, now: int)
    requires v.Keyed() && (item.kind != CONVERSATION ==> stored == item.content)
    ensures v.Upsert(item, stored, now).Keyed()
    ensures v.FtsCovers() ==> v.Upsert(item, stored, now).FtsCovers()
    ensures v.FtsExact() ==> v.Upsert(item, stored, now).FtsExact()
  {
    UpsertKeepsKeys(v, item, stored, now);
    UpsertFts(v, item, stored, now);
    var u := v.Upsert(item, stored, now);
    FtsStays(v, u, u.ids[item.vecId]);
  }

  /** Tables that differ in one row, and there agree, stay as good as they were. */
  lemma FtsStays(v: Vectors, u: Vectors, n: nat)
    requires forall k :: k != n ==> (k in u.fts <==> k in v.fts) && (k in v.fts ==> u.fts[k] == v.fts[k])
    requires forall k :: k != n ==> (k in u.meta <==> k in v.meta) && (k in v.meta ==> u.meta[k] == v.meta[k])
    requires n in u.meta && (if u.IsTurn(n) then n !in u.fts else n in u.fts && u.fts[n] == u.meta[n].content)
    ensures v.FtsCovers() ==> u.FtsCovers()
    ensures v.FtsExact() ==> u.FtsExact()
  {
    assert forall k :: k != n ==> u.IsTurn(k) == v.IsTurn(k);
  }

  lemma UpsertKeepsKeys(v: Vectors, item: Item, stored: string, now: int)
    requires v.Keyed()
    ensures v.Upsert(item, stored, now).Keyed()
  {
    var u := v.Upsert(item, stored, now);
    assert u.meta[u.ids[item.vecId]].vecId == item.vecId;
  }

  lemma UpsertFts(v: Vectors, item: Item, stored: string, now: int)
    ensures var u := v.Upsert(item, stored, now); var n := u.ids[item.vecId];
      && (forall k :: k != n ==> (k in u.fts <==> k in v.fts) && (k in v.fts ==> u.fts[k] == v.fts[k]))
      && (if item.kind == CONVERSATION then n !in u.fts else n in u.fts && u.fts[n] == item.content)
      && n in u.meta && u.meta[n].kind == item.kind && u.meta[n].content == stored
      && (forall k :: k != n ==> (k in u.meta <==> k in v.meta) && (k in v.meta ==> u.meta[k] == v.meta[k]))
  {
  }

  /** Only the row of the upserted vec_id changes. */
  lemma UpsertTouchesOneRow(v: Vectors, item: Item, stored: string, now: int)
    requires v.Keyed()
    ensures var u := v.Upsert(item, stored, now);
      && u.Has(item.vecId)
      && u.idx[u.ids[item.vecId]] == item.vector
      && (forall s :: s != item.vecId ==> (u.Has(s) <==> v.Has(s)))
      && (forall s :: s != item.vecId && v.Has(s) ==>
            u.Row(s) == v.Row(s) && u.ids[s] == v.ids[s] && u.idx[u.ids[s]] == v.idx[v.ids[s]])
  {
  }

  // ---------------------------------------------------------------- any run of upserts

  datatype Write = Write(item: Item, salt: Bytes, iv: Bytes, now: int)

  /** Conversation turns are sealed, everything else is stored as given. */
  function StoredContent(engine: Engine, w: Write): Option<string> {
    if w.item.kind == CONVERSATION then engine.Encrypt(w.item.content, w.salt, w.iv) else Some(w.item.content)
  }

  predicate Accepted(engine: Engine, w: Write) {
    |w.item.vector| == VECTOR_DIM && StoredContent(engine, w).Some?
  }

  /** Only a vector of another dimension, or the cipher failing on a conversation turn, refuses a write. */
  ghost predicate Acceptable(engine: Engine, w: Write) {
    |w.item.vector| == 384 && (w.item.kind == "conversation_turn" ==> Seals(engine, w.item.content, w.salt, w.iv))
  }

  lemma AcceptedIff(engine: Engine, w: Write)
    requires engine.prim.Laws()
    ensures Accepted(engine, w) <==> Acceptable(engine, w)
  {
    EncryptSucceedsIff(engine, w.item.content, w.salt, w.iv);
  }

  function Store(v: Vectors, engine: Engine, w: Write): Vectors {
    if Accepted(engine, w) then v.Upsert(w.item, StoredContent(engine, w).value, w.now) else v
  }

  function StoreAll(v: Vectors, engine: Engine, ws: seq<Write>): Vectors {
    if ws == [] then v else Store(StoreAll(v, engine, ws[..|ws| - 1]), engine, ws[|ws| - 1])
  }

  predicate Writes(engine: Engine, w: Write, vecId: string) { Accepted(engine, w) && w.item.vecId == vecId }

  function LastWrite(engine: Engine, ws: seq<Write>, vecId: string): Option<Write> {
    if ws == [] then None
    else if Writes(engine, ws[|ws| - 1], vecId) then Some(ws[|ws| - 1])
    else LastWrite(engine, ws[..|ws| - 1], vecId)
  }

  function FirstWrite(engine: Engine, ws: seq<Write>, vecId: string): Option<Write> {
    if ws == [] then None
    else
      var earlier := FirstWrite(engine, ws[..|ws| - 1], vecId);
      if earlier.Some? then earlier
      else if Writes(engine, ws[|ws| - 1], vecId) then Some(ws[|ws| - 1])
      else None
  }

  function CountWrites(engine: Engine, ws: seq<Write>, vecId: string): nat {
    if ws == [] then 0
    else CountWrites(engine, ws[..|ws| - 1], vecId) + (if Writes(engine, ws[|ws| - 1], vecId) then 1 else 0)
  }

  /** What the reader of a row sees. */
  function Shown(engine: Engine, row: MetaRow): FactRead {
    if row.kind == CONVERSATION then engine.ReadFact(row.content) else Readable(row.content)
  }

  /** The row is what `w` wrote last: columns, shown content (sealed in a conversation row), lineage; it dates from `first`
      and counts the writes after it. */
  ghost predicate RowReflects(engine: Engine, row: MetaRow, w: Write, first: Write, times: nat) {
    && row.vecId == w.item.vecId && row.kind == w.item.kind
    && Shown(engine, row) == Readable(w.item.content)
    && (row.kind == CONVERSATION ==> engine.Protects(row.content))
    && row.domain == OrElse(w.item.domain, "General") && row.category == OrElse(w.item.category, "Uncategorized")
    && row.keywords == OrElse(w.item.keywords, []) && row.fileTarget == w.item.fileTarget
    && row.eventIds.Some? && row.eventIds.value <= OrElse(w.item.eventIds, [])
    && (|row.eventIds.value| == 50 || row.eventIds == Some(OrElse(w.item.eventIds, [])))
    && |row.eventIds.value| <= 50
    && row.accessCount + 1 == times
    && row.createdAt == first.now && row.lastAccessedAt == (if times == 1 then 0 else w.now)
  }

  /** A vec_id has a row exactly when some accepted upsert named it; that row reads back as the last
      one (content decrypted), counts the earlier ones and carries the last vector. */
  ghost predicate VecOutcome(engine: Engine, ws: seq<Write>, v: Vectors, s: string) {
    && (v.Has(s) <==> LastWrite(engine, ws, s).Some?)
    && (v.Has(s) ==>
          && FirstWrite(engine, ws, s).Some?
          && RowReflects(engine, v.Row(s), LastWrite(engine, ws, s).value, FirstWrite(engine, ws, s).value, CountWrites(engine, ws, s))
          && v.ids[s] in v.idx && v.idx[v.ids[s]] == LastWrite(engine, ws, s).value.item.vector)
  }

  ghost predicate RunOutcome(engine: Engine, ws: seq<Write>, v: Vectors) {
    v.Agrees() && forall s :: VecOutcome(engine, ws, v, s)
  }

  ghost predicate GoodWrites(ws: seq<Write>) {
    forall w :: w in ws ==> |w.salt| == SALT_LEN && |w.iv| == IV_LEN
  }

  lemma ShownAfterStore(engine: Engine, w: Write, row: MetaRow)
    requires engine.prim.Laws() && |w.salt| == SALT_LEN && |w.iv| == IV_LEN && Accepted(engine, w)
    requires row.kind == w.item.kind && row.content == StoredContent(engine, w).value
    ensures Shown(engine, row) == Readable(w.item.content)
    ensures row.kind == CONVERSATION ==> engine.Protects(row.content)
  {
    if w.item.kind == CONVERSATION {
      EncryptSucceedsIff(engine, w.item.content, w.salt, w.iv);
      EncryptRoundTrip(engine, w.item.content, w.salt, w.iv);
    }
  }

  lemma OneMoreWrite(engine: Engine, ws: seq<Write>, w: Write, s: string)
    ensures LastWrite(engine, ws + [w], s) == if Writes(engine, w, s) then Some(w) else LastWrite(engine, ws, s)
    ensures CountWrites(engine, ws + [w], s) == CountWrites(engine, ws, s) + if Writes(engine, w, s) then 1 else 0
    ensures FirstWrite(engine, ws + [w], s) ==
      if FirstWrite(engine, ws, s).None? && Writes(engine, w, s) then Some(w) else FirstWrite(engine, ws, s)
  {
    assert (ws + [w])[..|ws|] == ws;
  }

  lemma StoredVec(engine: Engine, ws: seq<Write>, v: Vectors, w: Write)
    requires engine.prim.Laws() && |w.salt| == SALT_LEN && |w.iv| == IV_LEN && Accepted(engine, w)
    requires v.Keyed() && VecOutcome(engine, ws, v, w.item.vecId)
    ensures VecOutcome(engine, ws + [w], Store(v, engine, w), w.item.vecId)
  {
    var u := Store(v, engine, w);
    OneMoreWrite(engine, ws, w, w.item.vecId);
    CountsMatch(engine, ws, w.item.vecId);
    UpsertTouchesOneRow(v, w.item, StoredContent(engine, w).value, w.now);
    ShownAfterStore(engine, w, u.Row(w.item.vecId));
  }

  lemma OtherVec(engine: Engine, ws: seq<Write>, v: Vectors, w: Write, s: string)
    requires v.Keyed() && VecOutcome(engine, ws, v, s) && !Writes(engine, w, s)
    ensures VecOutcome(engine, ws + [w], Store(v, engine, w), s)
  {
    OneMoreWrite(engine, ws, w, s);
    if Accepted(engine, w) {
      UpsertTouchesOneRow(v, w.item, StoredContent(engine, w).value, w.now);
      UpsertKeepsKeys(v, w.item, StoredContent(engine, w).value, w.now);
    }
  }

  lemma {:induction false} CountsMatch(engine: Engine, ws: seq<Write>, s: string)
    ensures CountWrites(engine, ws, s) == 0 <==> LastWrite(engine, ws, s).None?
    ensures FirstWrite(engine, ws, s).None? <==> LastWrite(engine, ws, s).None?
  {
    if ws != [] { CountsMatch(engine, ws[..|ws| - 1], s); }
  }

  /** Any run of upserts on empty tables, type changes of one vec_id included, keeps the three tables
      in agreement and reads back as the last accepted write of every vec_id. */
  lemma {:induction false} IndexAgreement(engine: Engine, ws: seq<Write>)
    requires engine.prim.Laws() && GoodWrites(ws)
    ensures RunOutcome(engine, ws, StoreAll(EMPTY, engine, ws))
  {
    if ws != [] {
      var n := |ws| - 1;
      var v, w := StoreAll(EMPTY, engine, ws[..n]), ws[n];
      IndexAgreement(engine, ws[..n]);
      assert ws == ws[..n] + [w];
      if Accepted(engine, w) {
        UpsertKeepsAgreement(v, w.item, StoredContent(engine, w).value, w.now);
        StoredVec(engine, ws[..n], v, w);
      }
      forall s | !Writes(engine, w, s) ensures VecOutcome(engine, ws, Store(v, engine, w), s) {
        OtherVec(engine, ws[..n], v, w, s);
      }
    }
  }
}
