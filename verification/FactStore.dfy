/** The encrypted fact table and its backup of locked ciphertext
    (liva-native-core/src/db.rs 1190-1393). */
module FactStore {
  import opened Wrappers
  import opened Crypto
  import opened Rekey

  /** Every column but `value`; `other` stands for the columns an upsert always overwrites. */
  datatype Columns = Columns(createdAt: string, other: string, strength: real, lastAccessedAt: int, accessCount: int)

  datatype Backup = Backup(key: string, value: string, backedUpAt: int)

  /** A value that was replaced, with the keys held by the call that replaced it. */
  datatype Overwrite = Overwrite(key: string, value: string, keys: seq<Engine>)

  /** ON CONFLICT(key) DO UPDATE: creation time stays, strength only moves to a deliberate value,
      access statistics never go back. */
  function Merged(kept: Option<Columns>, given: Columns): (r: Columns)
    ensures kept.Some? ==> r.lastAccessedAt >= kept.value.lastAccessedAt && r.accessCount >= kept.value.accessCount
    ensures r.lastAccessedAt >= given.lastAccessedAt && r.accessCount >= given.accessCount
    ensures kept.Some? ==> r.createdAt == kept.value.createdAt
    ensures kept.Some? && r.strength != kept.value.strength ==> r.strength == given.strength > 0.0
    ensures given.strength > 0.0 && given.strength != 1.0 ==> r.strength == given.strength
    ensures r.other == given.other
    ensures kept.None? ==> r == given
    ensures kept.Some? && !(given.strength > 0.0 && given.strength != 1.0) ==> r.strength == kept.value.strength
  {
    match kept
    case None => given
    case Some(o) =>
      Columns(o.createdAt, given.other,
              if given.strength > 0.0 && given.strength != 1.0 then given.strength else o.strength,
              if given.lastAccessedAt > o.lastAccessedAt then given.lastAccessedAt else o.lastAccessedAt,
              if given.accessCount > o.accessCount then given.accessCount else o.accessCount)
  }

  ghost predicate ReadableUnder(keys: seq<Engine>, value: string) {
    exists e :: e in keys && e.ReadFact(value).Readable?
  }

  ghost predicate BackedUp(backups: seq<Backup>, key: string, value: string) {
    exists b :: b in backups && b.key == key && b.value == value
  }

  ghost predicate Recorded(overwrites: seq<Overwrite>, key: string, value: string) {
    exists o :: o in overwrites && o.key == key && o.value == value
  }

  /** No ciphertext is lost: each value ever stored is still current or was overwritten, and each
      overwritten value could be read with a key of the overwriting call or is in the backups. */
  ghost predicate NothingLost(values: map<string, string>, backups: seq<Backup>,
                              stored: set<(string, string)>, overwrites: seq<Overwrite>)
  {
    && (forall k :: k in values ==> (k, values[k]) in stored)
    && (forall p :: p in stored ==> (p.0 in values && values[p.0] == p.1) || Recorded(overwrites, p.0, p.1))
    && (forall o :: o in overwrites ==> ReadableUnder(o.keys, o.value) || BackedUp(backups, o.key, o.value))
  }

  lemma BackupsGrow(values: map<string, string>, backups: seq<Backup>, stored: set<(string, string)>,
                    overwrites: seq<Overwrite>, b: Backup)
    requires NothingLost(values, backups, stored, overwrites)
    ensures NothingLost(values, backups + [b], stored, overwrites)
  {
    assert forall c :: c in backups ==> c in backups + [b];
  }

  /** Replacing one value by a call holding `keys` keeps the ledger complete when the old value is
      readable with them or has just been backed up. */
  lemma OverwriteKeepsLedger(values: map<string, string>, backups: seq<Backup>, stored: set<(string, string)>,
                             overwrites: seq<Overwrite>, key: string, encrypted: string, keys: seq<Engine>)
    requires NothingLost(values, backups, stored, overwrites)
    requires key in values ==> ReadableUnder(keys, values[key]) || BackedUp(backups, key, values[key])
    ensures NothingLost(values[key := encrypted], backups, stored + {(key, encrypted)},
              if key in values then overwrites + [Overwrite(key, values[key], keys)] else overwrites)
  {
    if key in values {
      var entry := Overwrite(key, values[key], keys);
      var longer := overwrites + [entry];
      assert forall o :: o in longer <==> o in overwrites || o == entry;
      forall p | p in stored && Recorded(overwrites, p.0, p.1) ensures Recorded(longer, p.0, p.1) {
        var o :| o in overwrites && o.key == p.0 && o.value == p.1;
        assert o in longer;
      }
      assert entry in longer;
    }
  }

  /** What a rekey adds to the ledger. */
  ghost function Replaced(plan: seq<Update<string>>, keys: seq<Engine>): seq<Overwrite> {
    seq(|plan|, i requires 0 <= i < |plan| => Overwrite(plan[i].key, plan[i].original, keys))
  }

  lemma RekeyKeepsLedger(values: map<string, string>, backups: seq<Backup>, stored: set<(string, string)>,
                         overwrites: seq<Overwrite>, live: Engine, extras: seq<Engine>,
                         plan: seq<Update<string>>, after: map<string, string>)
    requires NothingLost(values, backups, stored, overwrites)
    requires SoundPlan(live, extras, plan) && TableAfter(plan, values, after)
    ensures NothingLost(after, backups, stored + (set k | k in after :: (k, after[k])),
              overwrites + Replaced(plan, [live] + extras))
  {
    var added := Replaced(plan, [live] + extras);
    ReplacedWasReadable(live, extras, plan);
    assert forall o :: o in overwrites + added <==> o in overwrites || o in added;
    forall p | p in stored ensures (p.0 in after && after[p.0] == p.1) || Recorded(overwrites + added, p.0, p.1) {
      if Recorded(overwrites, p.0, p.1) {
        var o :| o in overwrites && o.key == p.0 && o.value == p.1;
        assert o in overwrites + added;
      } else if after[p.0] != p.1 {
        ReplacedIsRecorded(live, extras, plan, values, after, p.0);
        var o :| o in added && o.key == p.0 && o.value == p.1;
        assert o in overwrites + added;
      }
    }
  }

  lemma ReplacedWasReadable(live: Engine, extras: seq<Engine>, plan: seq<Update<string>>)
    requires SoundPlan(live, extras, plan)
    ensures forall o :: o in Replaced(plan, [live] + extras) ==> ReadableUnder(o.keys, o.value)
  {
    var added := Replaced(plan, [live] + extras);
    forall o | o in added ensures ReadableUnder(o.keys, o.value) {
      var i :| 0 <= i < |plan| && added[i] == o;
      assert plan[i] in plan;
      MeaningIsReadable(live, extras, plan[i].original, live.TryDecrypt(plan[i].replacement).value);
    }
  }

  lemma ReplacedIsRecorded(live: Engine, extras: seq<Engine>, plan: seq<Update<string>>,
                           values: map<string, string>, after: map<string, string>, key: string)
    requires TableAfter(plan, values, after) && key in values && after[key] != values[key]
    ensures Recorded(Replaced(plan, [live] + extras), key, values[key])
  {
    assert RowAfter(plan, key, values[key], after[key]);
    var u :| u in plan && u.key == key && u.original == values[key];
    var i :| 0 <= i < |plan| && plan[i] == u;
    var o := Replaced(plan, [live] + extras)[i];
    assert o in Replaced(plan, [live] + extras);
  }

  lemma MeaningIsReadable(live: Engine, extras: seq<Engine>, value: string, plain: string)
    requires Means(live, extras, value, plain)
    ensures ReadableUnder([live] + extras, value)
  {
    assert live in [live] + extras;
    if !LooksEncrypted(value) {
      ReadFactFailsClosed(live, value);
    } else {
      var e :| (e == live || e in extras) && e.TryDecrypt(value) == Success(plain);
      assert e in [live] + extras;
      assert e.ReadFact(value) == Readable(plain);
    }
  }

  class FactTable {
    var values: map<string, string>
    var columns: map<string, Columns>
    var backups: seq<Backup>

    /** Every value ever stored, and every replacement, in order. */
    ghost var stored: set<(string, string)>
    ghost var overwrites: seq<Overwrite>

    ghost predicate Valid()
      reads this
    {
      values.Keys == columns.Keys && NothingLost(values, backups, stored, overwrites)
    }

    constructor ()
      ensures Valid() && values == map[] && backups == [] && stored == {} && overwrites == []
    {
      values, columns, backups, stored, overwrites := map[], map[], [], {}, [];
    }

    /** The backup row `set_fact` owes for the value it is about to replace. */
    function BackupOwed(engine: Engine, key: string, now: int): seq<Backup>
      reads this
    {
      if key in values && engine.ReadFact(values[key]).Locked? then [Backup(key, values[key], now)] else []
    }

    function Upserted(key: string, given: Columns): map<string, Columns>
      reads this
    {
      columns[key := Merged(if key in columns then Some(columns[key]) else None, given)]
    }

    /** The part of `set_fact` that runs inside a transaction; a failed statement leaves the earlier
        ones in place for the owner of the transaction to roll back. */
    method SetFactInner(engine: Engine, key: string, encrypted: string, given: Columns, now: int, fails: nat -> bool)
      returns (ok: bool)
      requires Valid()
      modifies this
      ensures Valid() && old(stored) <= stored
      ensures ok ==> values == old(values)[key := encrypted]
      ensures ok ==> columns == old(Upserted(key, given))
      ensures ok ==> backups == old(backups) + old(BackupOwed(engine, key, now))
      ensures ok ==> (key, encrypted) in stored
      ensures !ok ==> values == old(values) && columns == old(columns)
      ensures (forall n :: !fails(n)) ==> ok
    {
      if fails(0) { return false; }
      var owed := BackupOwed(engine, key, now);
      if owed != [] {
        if fails(1) { return false; }
        BackupsGrow(values, backups, stored, overwrites, owed[0]);
        backups := backups + owed;
      }
      if fails(2) { return false; }
      ReadableOrBackedUp(engine, key, now);
      Replace(engine, key, encrypted, given);
      ok := true;
    }

    /** The backup row, once written, pays for the replacement of the value it holds. */
    lemma ReadableOrBackedUp(engine: Engine, key: string, now: int)
      requires BackupOwed(engine, key, now) == [] || BackupOwed(engine, key, now)[0] in backups
      ensures key in values ==> ReadableUnder([engine], values[key]) || BackedUp(backups, key, values[key])
    {
      assert engine in [engine];
    }

    /** INSERT ... ON CONFLICT(key) DO UPDATE. */
    method Replace(engine: Engine, key: string, encrypted: string, given: Columns)
      requires Valid()
      requires key in values ==> ReadableUnder([engine], values[key]) || BackedUp(backups, key, values[key])
      modifies this`values, this`columns, this`stored, this`overwrites
      ensures Valid() && stored == old(stored) + {(key, encrypted)}
      ensures values == old(values)[key := encrypted] && columns == old(Upserted(key, given))
    {
      OverwriteKeepsLedger(values, backups, stored, overwrites, key, encrypted, [engine]);
      if key in values { overwrites := overwrites + [Overwrite(key, values[key], [engine])]; }
      columns := Upserted(key, given);
      values := values[key := encrypted];
      stored := stored + {(key, encrypted)};
    }

    /** `set_fact`.  Outside a transaction it opens its own and a failure changes nothing. */
    method SetFact(engine: Engine, key: string, value: string, given: Columns, salt: Bytes, iv: Bytes,
                   autocommit: bool, now: int, fails: nat -> bool)
      returns (ok: bool)
      requires Valid() && engine.prim.Laws() && |salt| == SALT_LEN && |iv| == IV_LEN
      modifies this
      ensures Valid() && old(stored) <= stored
      ensures ok ==> key in values && engine.ReadFact(values[key]) == Readable(value) && engine.Protects(values[key])
      ensures ok ==> values == old(values)[key := values[key]]
      ensures ok ==> columns == old(columns)[key := Merged(if key in old(columns) then Some(old(columns)[key]) else None, given)]
      ensures ok && key in old(values) && engine.ReadFact(old(values)[key]).Locked? ==>
        backups == old(backups) + [Backup(key, old(values)[key], now)]
      ensures ok && !(key in old(values) && engine.ReadFact(old(values)[key]).Locked?) ==> backups == old(backups)
      ensures !ok ==> values == old(values) && columns == old(columns)
      ensures !ok && autocommit ==> backups == old(backups)
      ensures forall k :: k in old(columns) ==>
        && k in columns
        && columns[k].lastAccessedAt >= old(columns)[k].lastAccessedAt
        && columns[k].accessCount >= old(columns)[k].accessCount
      ensures Seals(engine, value, salt, iv) && (forall n :: !fails(n)) ==> ok
    {
      var sealed := engine.Encrypt(value, salt, iv);
      EncryptSucceedsIff(engine, value, salt, iv);
      if sealed.None? { return false; }
      EncryptRoundTrip(engine, value, salt, iv);
      ok := StoreSealed(engine, key, sealed.value, given, autocommit, now, fails);
    }

    /** The encrypted value, in its own transaction or the caller's. */
    method StoreSealed(engine: Engine, key: string, encrypted: string, given: Columns, autocommit: bool, now: int, fails: nat -> bool)
      returns (ok: bool)
      requires Valid()
      modifies this
      ensures Valid() && old(stored) <= stored
      ensures ok ==> values == old(values)[key := encrypted]
      ensures ok ==> columns == old(columns)[key := Merged(if key in old(columns) then Some(old(columns)[key]) else None, given)]
      ensures ok && key in old(values) && engine.ReadFact(old(values)[key]).Locked? ==>
        backups == old(backups) + [Backup(key, old(values)[key], now)]
      ensures ok && !(key in old(values) && engine.ReadFact(old(values)[key]).Locked?) ==> backups == old(backups)
      ensures !ok ==> values == old(values) && columns == old(columns)
      ensures !ok && autocommit ==> backups == old(backups)
      ensures (forall n :: !fails(n)) ==> ok
    {
      if autocommit {
        ok := SetFactInTransaction(engine, key, encrypted, given, now, fails);
      } else {
        ok := SetFactInner(engine, key, encrypted, given, now, fails);
      }
    }

    /** BEGIN, the statements, COMMIT; a failure anywhere restores every table. */
    method SetFactInTransaction(engine: Engine, key: string, encrypted: string, given: Columns, now: int, fails: nat -> bool)
      returns (ok: bool)
      requires Valid()
      modifies this
      ensures Valid() && old(stored) <= stored
      ensures ok ==> values == old(values)[key := encrypted]
      ensures ok ==> columns == old(Upserted(key, given))
      ensures ok ==> backups == old(backups) + old(BackupOwed(engine, key, now))
      ensures !ok ==> values == old(values) && columns == old(columns) && backups == old(backups)
      ensures (forall n :: !fails(n)) ==> ok
    {
      if fails(3) { return false; }
      var savedValues, savedColumns, savedBackups := values, columns, backups;
      ghost var savedStored, savedOverwrites := stored, overwrites;
      ok := SetFactInner(engine, key, encrypted, given, now, fails);
      if !ok || fails(4) {
        values, columns, backups := savedValues, savedColumns, savedBackups;
        stored, overwrites := savedStored, savedOverwrites;
        ok := false;
      }
    }

    /** The second phase of a rekey, on whatever the table holds by then: other calls may have run
        since the scan.  `plan` is the scan's result; the answer counts the rows changed. */
    method ApplyRekey(live: Engine, extras: seq<Engine>, plan: seq<Update<string>>, fails: nat -> bool)
      returns (changed: Option<nat>)
      requires Valid() && SoundPlan(live, extras, plan)
      modifies this
      ensures Valid() && old(stored) <= stored
      ensures columns == old(columns) && backups == old(backups)
      ensures changed.None? ==> values == old(values)
      ensures changed.Some? ==> TableAfter(plan, old(values), values)
      ensures changed.Some? ==> changed.value == |Changed(old(values), values)|
      ensures (forall n :: !fails(n)) ==> changed.Some?
    {
      changed := Some(0);
      if plan != [] {
        SoundPlanChanges(live, extras, plan);
        var outcome := ApplyConditionally(values, plan, 2, fails);
        if fails(0) || outcome.None? || fails(1) {
          changed := None;
        } else {
          CommitRekey(live, extras, plan, outcome.value.0);
          changed := Some(outcome.value.1);
        }
      } else {
        assert TableAfter(plan, values, values);
        assert Changed(values, values) == {};
      }
    }

    method CommitRekey(live: Engine, extras: seq<Engine>, plan: seq<Update<string>>, after: map<string, string>)
      requires Valid() && SoundPlan(live, extras, plan) && TableAfter(plan, values, after)
      modifies this`values, this`stored, this`overwrites
      ensures Valid() && old(stored) <= stored && values == after
    {
      RekeyKeepsLedger(values, backups, stored, overwrites, live, extras, plan, after);
      stored := stored + set k | k in after :: (k, after[k]);
      overwrites := overwrites + Replaced(plan, [live] + extras);
      values := after;
    }

    /** `rekey_facts_encryption` with nobody writing in between: scan, then update. */
    method RekeyFacts(live: Engine, extras: seq<Engine>, draws: Draws, readFails: nat -> bool, writeFails: nat -> bool)
      returns (result: Option<(nat, nat)>)
      requires Valid() && live.prim.Laws() && GoodDraws(draws)
      modifies this
      ensures Valid() && old(stored) <= stored
      ensures columns == old(columns) && backups == old(backups)
      ensures result.None? ==> values == old(values)
      ensures result.Some? ==> RekeyOutcome(LeavePlaintext, live, extras, old(values), values, result.value.0, result.value.1)
      ensures AlwaysSeals(live, draws) && (forall n :: !readFails(n) && !writeFails(n)) ==> result.Some?
    {
      var scan := Scan(LeavePlaintext, live, extras, values, draws, readFails);
      if scan.None? { return None; }
      var (plan, locked) := scan.value;
      var changed := ApplyRekey(live, extras, plan, writeFails);
      if changed.None? { return None; }
      result := Some((changed.value, locked));
      QuietRekeyOutcome(LeavePlaintext, live, extras, old(values), plan, values);
    }
  }
}
