/** Re-encryption of personal data: agent checkpoints and conversation rows
    (liva-native-core/src/db.rs 1416-1535). */
module PersonalData {
  import opened Wrappers
  import opened Crypto
  import opened Rekey
  import opened VectorTables

  datatype Report = Report(rekeyed: nat, locked: nat, ftsRemoved: nat)

  function Contents(v: Vectors): map<nat, string> { map n | n in v.meta :: v.meta[n].content }

  /** SELECT id, content FROM vectors_meta WHERE type = 'conversation_turn' */
  function TurnContents(v: Vectors): map<nat, string> { map n | n in v.meta && v.IsTurn(n) :: v.meta[n].content }

  function WithContents(v: Vectors, contents: map<nat, string>): Vectors
    requires contents.Keys == v.meta.Keys
  {
    v.(meta := map n | n in v.meta :: v.meta[n].(content := contents[n]))
  }

  function TurnsInFts(v: Vectors): set<nat> { set n | n in v.fts && v.IsTurn(n) }

  /** DELETE FROM vectors_fts WHERE rowid IN (the conversation rows) */
  function WithoutTurnFts(v: Vectors): Vectors {
    v.(fts := map n | n in v.fts && !v.IsTurn(n) :: v.fts[n])
  }

  /** Only the content of conversation rows and their FTS rows may differ. */
  ghost predicate OnlyTurnsChange(v: Vectors, u: Vectors) {
    && u.meta.Keys == v.meta.Keys && u.ids == v.ids && u.idx == v.idx && u.nextId == v.nextId
    && (forall n :: n in v.meta ==> u.meta[n] == v.meta[n].(content := u.meta[n].content))
    && (forall n :: n in v.meta && !v.IsTurn(n) ==> u.meta[n] == v.meta[n])
    && u.fts == WithoutTurnFts(v).fts
  }

  lemma TurnsStayTurns(v: Vectors, u: Vectors)
    requires OnlyTurnsChange(v, u)
    ensures forall n :: u.IsTurn(n) == v.IsTurn(n)
    ensures TurnContents(u).Keys == TurnContents(v).Keys
  {
    forall n ensures u.IsTurn(n) == v.IsTurn(n) {
      if n in v.meta { assert u.meta[n].kind == v.meta[n].kind; }
    }
  }

  /** A complete quiet run on both tables: every checkpoint and conversation row that needed it is now
      current ciphertext of what it meant (old plaintext included), everything else is untouched;
      no conversation row is left in FTS; the report is exact. */
  ghost predicate PersonalOutcome(live: Engine, extras: seq<Engine>, c: map<string, string>, v: Vectors,
                                  d: map<string, string>, u: Vectors, r: Report)
  {
    && OnlyTurnsChange(v, u) && TurnContents(u).Keys == TurnContents(v).Keys && d.Keys == c.Keys
    && RekeyOutcome(SealPlaintext, live, extras, c, d, |Changed(c, d)|, |LockedOut(SealPlaintext, live, extras, c)|)
    && RekeyOutcome(SealPlaintext, live, extras, TurnContents(v), TurnContents(u),
                    |Changed(TurnContents(v), TurnContents(u))|, |LockedOut(SealPlaintext, live, extras, TurnContents(v))|)
    && r.rekeyed == |Changed(c, d)| + |Changed(TurnContents(v), TurnContents(u))|
    && r.locked == |LockedOut(SealPlaintext, live, extras, c)| + |LockedOut(SealPlaintext, live, extras, TurnContents(v))|
    && r.ftsRemoved == |TurnsInFts(v)|
  }

  /** Never encrypted twice, and no old plaintext left: a row a finished run has left as `after` is
      current ciphertext of what it meant, or the untouched original, which then is ciphertext, or
      starts like it, and which no key opens. */
  lemma SealedOrLocked(live: Engine, extras: seq<Engine>, before: string, after: string)
    requires RowSafe(SealPlaintext, live, extras, Some(before), before, after)
    requires !NeedsRewrite(SealPlaintext, live, extras, after)
    ensures live.Protects(after) ==> Means(live, extras, before, live.TryDecrypt(after).value)
    ensures !live.Protects(after) ==> after == before && IsLockedOut(SealPlaintext, live, extras, before)
    ensures !LooksEncrypted(before) && !(V2_PREFIX <= before) ==>
      live.Protects(after) && live.TryDecrypt(after) == Success(before)
  {
    FormatDecidesOpening(live, extras, before);
    if live.Protects(before) { assert Means(live, extras, before, live.TryDecrypt(before).value); }
  }

  /** Finished with a text: it is as safe as a rekey leaves it, and needs no other. */
  ghost predicate Settled(live: Engine, extras: seq<Engine>, before: string, after: string) {
    RowSafe(SealPlaintext, live, extras, Some(before), before, after) && !NeedsRewrite(SealPlaintext, live, extras, after)
  }

  /** A complete run, row by row: every checkpoint is settled ... */
  lemma EveryCheckpointIsSettled(live: Engine, extras: seq<Engine>, c: map<string, string>, d: map<string, string>,
                                 changed: nat, locked: nat, k: string)
    requires RekeyOutcome(SealPlaintext, live, extras, c, d, changed, locked) && k in c
    ensures k in d && Settled(live, extras, c[k], d[k])
  {
  }

  /** ... and so is the content of every row of type "conversation_turn", which keeps its other columns and
      is in FTS no more ... */
  lemma EveryTurnIsSettled(live: Engine, extras: seq<Engine>, v: Vectors, u: Vectors, changed: nat, locked: nat, n: nat)
    requires OnlyTurnsChange(v, u) && TurnContents(u).Keys == TurnContents(v).Keys
    requires RekeyOutcome(SealPlaintext, live, extras, TurnContents(v), TurnContents(u), changed, locked)
    requires n in v.meta && v.meta[n].kind == "conversation_turn"
    ensures n in u.meta && n !in u.fts && u.meta[n] == v.meta[n].(content := u.meta[n].content)
    ensures Settled(live, extras, v.meta[n].content, u.meta[n].content)
  {
    assert v.IsTurn(n) && n in TurnContents(v) && n in TurnContents(u);
    assert TurnContents(v)[n] == v.meta[n].content && TurnContents(u)[n] == u.meta[n].content;
  }

  /** ... while rows of any other type keep content and FTS entry; the report counts the FTS rows removed. */
  lemma OtherRowsStay(v: Vectors, u: Vectors)
    requires OnlyTurnsChange(v, u)
    ensures u.meta.Keys == v.meta.Keys && u.idx == v.idx && u.ids == v.ids
    ensures forall n :: n in v.meta && v.meta[n].kind != "conversation_turn" ==>
      n in u.meta && u.meta[n] == v.meta[n] && (n in u.fts <==> n in v.fts) && (n in v.fts ==> u.fts[n] == v.fts[n])
    ensures TurnsInFts(v) == v.fts.Keys - u.fts.Keys
  {
  }

  /** A second run changes nothing and reports zero rekeyed. */
  lemma PersonalRekeyTwice(live: Engine, extras: seq<Engine>,
                           c: map<string, string>, v: Vectors, d: map<string, string>, u: Vectors,
                           e: map<string, string>, w: Vectors, first: Report, second: Report)
    requires PersonalOutcome(live, extras, c, v, d, u, first)
    requires PersonalOutcome(live, extras, d, u, e, w, second)
    ensures e == d && w == u && second == Report(0, first.locked, 0)
  {
    TableTwice(live, extras, c, d, e);
    TableTwice(live, extras, TurnContents(v), TurnContents(u), TurnContents(w));
    TurnsStayTurns(v, u);
    assert TurnsInFts(u) == {};
    SameTurns(u, w);
  }

  lemma TableTwice<K(!new)>(live: Engine, extras: seq<Engine>, a: map<K, string>, b: map<K, string>, c: map<K, string>)
    requires a.Keys == b.Keys == c.Keys
    requires RekeyOutcome(SealPlaintext, live, extras, a, b, |Changed(a, b)|, |LockedOut(SealPlaintext, live, extras, a)|)
    requires RekeyOutcome(SealPlaintext, live, extras, b, c, |Changed(b, c)|, |LockedOut(SealPlaintext, live, extras, b)|)
    ensures c == b && Changed(b, c) == {}
    ensures |LockedOut(SealPlaintext, live, extras, b)| == |LockedOut(SealPlaintext, live, extras, a)|
  {
    RekeyTwice(SealPlaintext, live, extras, a, b, c, |Changed(a, b)|, |LockedOut(SealPlaintext, live, extras, a)|,
               |Changed(b, c)|, |LockedOut(SealPlaintext, live, extras, b)|);
  }

  lemma SameTurns(u: Vectors, w: Vectors)
    requires OnlyTurnsChange(u, w) && TurnContents(w) == TurnContents(u) && TurnsInFts(u) == {}
    ensures w == u
  {
    forall n | n in u.meta ensures w.meta[n] == u.meta[n] {
      if u.IsTurn(n) {
        assert TurnContents(u)[n] == u.meta[n].content;
        assert n in TurnContents(w);
      }
    }
    assert w.meta == u.meta;
    assert forall n :: n in u.fts ==> !u.IsTurn(n) by {
      assert forall n :: n in u.fts && u.IsTurn(n) ==> n in TurnsInFts(u);
    }
    assert w.fts == u.fts;
  }

  /** A store from before conversation rows left the full-text index agrees again afterwards. */
  lemma RekeyRestoresAgreement(v: Vectors, u: Vectors)
    requires OnlyTurnsChange(v, u) && v.Keyed() && v.FtsCovers()
    ensures u.Agrees()
  {
    TurnsStayTurns(v, u);
    KeysSurvive(v, u);
  }

  lemma KeysSurvive(v: Vectors, u: Vectors)
    requires OnlyTurnsChange(v, u) && v.Keyed()
    ensures u.Keyed()
  {
    assert forall n :: n in v.meta ==> u.meta[n].vecId == v.meta[n].vecId;
  }

  /** From the plan on conversation rows to the outcome on the whole table. */
  lemma TurnPlanOutcome(live: Engine, extras: seq<Engine>, v: Vectors, plan: seq<Update<nat>>, contents: map<nat, string>)
    requires SoundPlan(live, extras, plan)
    requires Covers(SealPlaintext, live, extras, TurnContents(v), TurnContents(v).Keys, plan)
    requires TableAfter(plan, Contents(v), contents)
    ensures contents.Keys == v.meta.Keys
    ensures var u := WithoutTurnFts(WithContents(v, contents));
      && OnlyTurnsChange(v, u)
      && TurnContents(u).Keys == TurnContents(v).Keys
      && TableAfter(plan, TurnContents(v), TurnContents(u))
      && Changed(Contents(v), contents) == Changed(TurnContents(v), TurnContents(u))
  {
    var u := WithoutTurnFts(WithContents(v, contents));
    forall n | n in v.meta && !v.IsTurn(n) ensures contents[n] == v.meta[n].content {
      assert RowAfter(plan, n, Contents(v)[n], contents[n]);
      assert forall x :: x in plan ==> x.key != n;
    }
    RewriteTurns(v, contents);
    RestrictTable(plan, v, u, contents);
    ChangedTurns(v, u, contents);
  }

  lemma RewriteTurns(v: Vectors, contents: map<nat, string>)
    requires contents.Keys == v.meta.Keys
    requires forall n :: n in v.meta && !v.IsTurn(n) ==> contents[n] == v.meta[n].content
    ensures var u := WithoutTurnFts(WithContents(v, contents));
      && OnlyTurnsChange(v, u) && TurnContents(u).Keys == TurnContents(v).Keys
      && forall n :: n in v.meta ==> u.meta[n].content == contents[n]
  {
    var u := WithoutTurnFts(WithContents(v, contents));
    forall n | n in v.meta ensures u.meta[n] == v.meta[n].(content := contents[n]) {}
    forall n | n in v.meta && !v.IsTurn(n) ensures u.meta[n] == v.meta[n] {}
    assert forall k :: WithContents(v, contents).IsTurn(k) == v.IsTurn(k);
    assert u.fts == WithoutTurnFts(v).fts;
    TurnsStayTurns(v, u);
  }

  lemma RestrictTable(plan: seq<Update<nat>>, v: Vectors, u: Vectors, contents: map<nat, string>)
    requires TurnContents(u).Keys == TurnContents(v).Keys && u.meta.Keys == v.meta.Keys == contents.Keys
    requires TableAfter(plan, Contents(v), contents)
    requires forall n :: n in v.meta ==> u.meta[n].content == contents[n]
    ensures TableAfter(plan, TurnContents(v), TurnContents(u))
  {
    forall n | n in TurnContents(v) ensures RowAfter(plan, n, TurnContents(v)[n], TurnContents(u)[n]) {
      assert RowAfter(plan, n, Contents(v)[n], contents[n]);
    }
  }

  lemma ChangedTurns(v: Vectors, u: Vectors, contents: map<nat, string>)
    requires contents.Keys == v.meta.Keys && OnlyTurnsChange(v, u) && TurnContents(u).Keys == TurnContents(v).Keys
    requires forall n :: n in v.meta ==> u.meta[n].content == contents[n]
    ensures Changed(Contents(v), contents) == Changed(TurnContents(v), TurnContents(u))
  {
    forall n ensures n in Changed(Contents(v), contents) <==> n in Changed(TurnContents(v), TurnContents(u)) {
      if n in v.meta && v.IsTurn(n) {
        assert n in TurnContents(v) && TurnContents(u)[n] == u.meta[n].content;
      }
    }
  }
}
