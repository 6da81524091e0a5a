/** The two-phase re-encryption used at boot (liva-native-core/src/db.rs 1309-1393, 1416-1535):
    a scan that only decides, then conditional updates that touch a row only while it still
    holds the value the scan saw. */
module Rekey {
  import opened Wrappers
  import opened Crypto

  /** Facts keep old plaintext as it is; personal data encrypts it. */
  datatype Policy = LeavePlaintext | SealPlaintext

  datatype Decision = Keep | Rewrite(plain: string) | GiveUp

  datatype Update<K> = Update(key: K, original: string, replacement: string)

  /** The first of `keys` that opens `value`. */
  function FindOpener(keys: seq<Engine>, value: string): Option<string> {
    if keys == [] then None
    else if keys[0].TryDecrypt(value).Success? then Some(keys[0].TryDecrypt(value).value)
    else FindOpener(keys[1..], value)
  }

  function Rescue(extras: seq<Engine>, value: string): Decision {
    match FindOpener(extras, value)
    case Some(plain) => Rewrite(plain)
    case None => GiveUp
  }

  function Decide(policy: Policy, live: Engine, extras: seq<Engine>, value: string): Decision {
    match live.TryDecrypt(value)
    case Success(plain) => if V2_PREFIX <= value then Keep else Rewrite(plain)
    case Failure(NotEncrypted) => if policy.SealPlaintext? then Rewrite(value) else Keep
    case Failure(BadFormat) =>
      if policy.SealPlaintext? && !(V2_PREFIX <= value) then Rewrite(value) else Rescue(extras, value)
    case Failure(_) => Rescue(extras, value)
  }

  lemma {:induction false} FindOpenerFinds(keys: seq<Engine>, value: string)
    ensures FindOpener(keys, value).Some? <==> exists e :: e in keys && e.TryDecrypt(value).Success?
    ensures FindOpener(keys, value).Some? ==>
              exists e :: e in keys && e.TryDecrypt(value) == Success(FindOpener(keys, value).value)
  {
    if keys != [] && keys[0].TryDecrypt(value).Failure? {
      FindOpenerFinds(keys[1..], value);
      assert forall e :: e in keys <==> e == keys[0] || e in keys[1..];
    } else if keys != [] {
      assert keys[0] in keys;
    }
  }

  /** ... and it is the first of them in order. */
  lemma {:induction false} FindOpenerIsFirst(keys: seq<Engine>, value: string)
    ensures FindOpener(keys, value).Some? ==>
      exists i :: 0 <= i < |keys| && keys[i].TryDecrypt(value) == Success(FindOpener(keys, value).value)
                  && forall j :: 0 <= j < i ==> keys[j].TryDecrypt(value).Failure?
  {
    if keys != [] && keys[0].TryDecrypt(value).Failure? && FindOpener(keys, value).Some? {
      FindOpenerIsFirst(keys[1..], value);
      var rest := keys[1..];
      var i :| 0 <= i < |rest| && rest[i].TryDecrypt(value) == Success(FindOpener(keys, value).value)
        && forall j :: 0 <= j < i ==> rest[j].TryDecrypt(value).Failure?;
      forall j | 0 <= j < i + 1 ensures keys[j].TryDecrypt(value).Failure? {
        if j > 0 { assert rest[j - 1] == keys[j]; }
      }
      assert keys[i + 1].TryDecrypt(value) == Success(FindOpener(keys, value).value);
    }
  }

  /** What a stored value means to the holder of `live` and `extras`: the plaintext some key
      authenticates, or the text itself when it is not ciphertext at all. */
  ghost predicate Means(live: Engine, extras: seq<Engine>, value: string, plain: string) {
    || (exists e :: (e == live || e in extras) && e.TryDecrypt(value) == Success(plain))
    || (!LooksEncrypted(value) && plain == value)
  }

  /** Some key of the call opens the value. */
  ghost predicate Opens(live: Engine, extras: seq<Engine>, value: string) {
    exists e :: (e == live || e in extras) && e.TryDecrypt(value).Success?
  }

  /** What a rekey promises to rewrite: whatever a key opens and live does not already protect; under
      `SealPlaintext` also every text that is no ciphertext at all. */
  ghost predicate NeedsRewrite(policy: Policy, live: Engine, extras: seq<Engine>, value: string) {
    && !live.Protects(value)
    && (Opens(live, extras, value)
        || (policy.SealPlaintext? && !LooksEncrypted(value) && !(V2_PREFIX <= value)))
  }

  /** What it may only leave and count: values no key opens that are ciphertext, or start like it;
      for facts also any other text of three ':'-separated parts. */
  ghost predicate IsLockedOut(policy: Policy, live: Engine, extras: seq<Engine>, value: string) {
    && !Opens(live, extras, value)
    && (V2_PREFIX <= value || (if policy.SealPlaintext? then LooksEncrypted(value) else |Split(value)| == 3))
  }

  /** The code's decision is exactly that, under both policies. */
  lemma DecisionIff(policy: Policy, live: Engine, extras: seq<Engine>, value: string)
    ensures Decide(policy, live, extras, value).Rewrite? <==> NeedsRewrite(policy, live, extras, value)
    ensures Decide(policy, live, extras, value).GiveUp? <==> IsLockedOut(policy, live, extras, value)
  {
    FindOpenerFinds(extras, value);
    FormatDecidesOpening(live, extras, value);
  }

  /** Where live reports a format error no key opens; where it reports another error, the text is
      ciphertext; and ciphertext without the prefix has three parts. */
  lemma FormatDecidesOpening(live: Engine, extras: seq<Engine>, value: string)
    ensures live.TryDecrypt(value) in {Failure(NotEncrypted), Failure(BadFormat)} <==> !LooksEncrypted(value)
    ensures !LooksEncrypted(value) ==> !Opens(live, extras, value)
    ensures LooksEncrypted(value) && !(V2_PREFIX <= value) ==> |Split(value)| == 3
  {
    FormatErrorsAreShapeErrors(live, value);
    if Opens(live, extras, value) {
      var e :| (e == live || e in extras) && e.TryDecrypt(value).Success?;
      FormatErrorsIgnoreTheKey(e, live, value);
    }
    if LooksEncrypted(value) && !(V2_PREFIX <= value) { V1HasThreeParts(value); }
  }

  lemma V1HasThreeParts(value: string)
    requires LooksEncrypted(value) && !(V2_PREFIX <= value)
    ensures |Split(value)| == 3
  {
    if salt, iv, tag, cipher :| IsV2Text(value, salt, iv, tag, cipher) {
      V2HasPrefix(value, salt, iv, tag, cipher);
      assert false;
    } else {
      var iv, tag, cipher :| IsV1Text(value, iv, tag, cipher);
      HexHasNoColon(iv); HexHasNoColon(tag); HexHasNoColon(cipher);
      Join3(iv, tag, cipher);
      JoinSplit([iv, tag, cipher]);
    }
  }

  /** A rewrite carries the meaning of the old value, so ciphertext is never encrypted a second time. */
  lemma DecisionMeaning(policy: Policy, live: Engine, extras: seq<Engine>, value: string)
    requires Decide(policy, live, extras, value).Rewrite?
    ensures Means(live, extras, value, Decide(policy, live, extras, value).plain)
  {
    FormatErrorsAreShapeErrors(live, value);
    FindOpenerFinds(extras, value);
  }

  /** Facts of three ':'-separated parts are counted as locked although they are plain text; like
      every value given up they are left as they are. */
  lemma TimeOfDayCountsAsLocked(live: Engine)
    ensures IsLockedOut(LeavePlaintext, live, [], "12:34:56") && !LooksEncrypted("12:34:56")
    ensures live.ReadFact("12:34:56") == Readable("12:34:56")
  {
    var text := "12:34:56";
    TimeOfDayParses(live);
    assert live.TryDecrypt(text) == Failure(BadFormat);
    FormatErrorsAreShapeErrors(live, text);
    DecisionIff(LeavePlaintext, live, [], text);
  }

  lemma TimeOfDayParses(live: Engine)
    ensures Split("12:34:56") == ["12", "34", "56"]
    ensures live.DecryptV1("12:34:56") == Failure(BadFormat)
  {
    assert ColonFree(["12", "34", "56"]);
    Join3("12", "34", "56");
    JoinSplit(["12", "34", "56"]);
    assert "12:34:56" == "12" + ":" + "34" + ":" + "56";
    HexDecodes("12");
  }

  // ---------------------------------------------------------------- phase 1: scan

  /** The random salt and nonce drawn by the n-th encryption. */
  type Draws = nat -> (Bytes, Bytes)

  ghost predicate GoodDraws(draws: Draws) {
    forall n :: |draws(n).0| == SALT_LEN && |draws(n).1| == IV_LEN
  }

  /** The cipher itself never fails. */
  ghost predicate AlwaysSeals(live: Engine, draws: Draws) {
    forall n, text :: Seals(live, text, draws(n).0, draws(n).1)
  }

  ghost predicate DistinctKeys<K(!new)>(plan: seq<Update<K>>) {
    forall i, j :: 0 <= i < j < |plan| ==> plan[i].key != plan[j].key
  }

  /** `replacement` is current ciphertext of what `original` means. */
  ghost predicate SoundUpdate(live: Engine, extras: seq<Engine>, original: string, replacement: string) {
    && live.Protects(replacement) && !live.Protects(original)
    && Means(live, extras, original, live.TryDecrypt(replacement).value)
  }

  ghost predicate SoundPlan<K(!new)>(live: Engine, extras: seq<Engine>, plan: seq<Update<K>>) {
    DistinctKeys(plan) && forall u :: u in plan ==> SoundUpdate(live, extras, u.original, u.replacement)
  }

  /** The rows in `scope` are planned exactly when they need it. */
  ghost predicate Covers<K(!new)>(policy: Policy, live: Engine, extras: seq<Engine>,
                                  table: map<K, string>, scope: set<K>, plan: seq<Update<K>>) {
    && (forall u :: u in plan ==> u.key in scope && u.key in table && table[u.key] == u.original
                                  && NeedsRewrite(policy, live, extras, u.original))
    && (forall k :: k in scope && k in table && NeedsRewrite(policy, live, extras, table[k]) ==>
          exists u :: u in plan && u.key == k)
  }

  ghost function LockedOut<K(!new)>(policy: Policy, live: Engine, extras: seq<Engine>, table: map<K, string>): set<K> {
    set k | k in table && IsLockedOut(policy, live, extras, table[k])
  }

  datatype RowPlan = Leave | Count | Replace(replacement: string) | Abort

  ghost predicate RowPlanned(policy: Policy, live: Engine, extras: seq<Engine>, value: string, row: RowPlan) {
    match row
    case Leave => !NeedsRewrite(policy, live, extras, value) && !IsLockedOut(policy, live, extras, value)
    case Count => IsLockedOut(policy, live, extras, value)
    case Replace(text) => NeedsRewrite(policy, live, extras, value) && SoundUpdate(live, extras, value, text)
    case Abort => true
  }

  /** One iteration of the scan's loop. */
  method PlanRow(policy: Policy, live: Engine, extras: seq<Engine>, value: string, draw: (Bytes, Bytes))
    returns (row: RowPlan)
    requires live.prim.Laws() && |draw.0| == SALT_LEN && |draw.1| == IV_LEN
    ensures RowPlanned(policy, live, extras, value, row)
    ensures (forall text :: Seals(live, text, draw.0, draw.1)) ==> !row.Abort?
  {
    DecisionIff(policy, live, extras, value);
    match Decide(policy, live, extras, value) {
      case Keep => row := Leave;
      case GiveUp => row := Count;
      case Rewrite(plain) =>
        var sealed := live.Encrypt(plain, draw.0, draw.1);
        EncryptSucceedsIff(live, plain, draw.0, draw.1);
        if sealed.None? { return Abort; }
        EncryptRoundTrip(live, plain, draw.0, draw.1);
        DecisionMeaning(policy, live, extras, value);
        row := Replace(sealed.value);
    }
  }

  lemma PlanGrows<K(!new)>(policy: Policy, live: Engine, extras: seq<Engine>, table: map<K, string>,
                           scope: set<K>, plan: seq<Update<K>>, u: Update<K>)
    requires SoundPlan(live, extras, plan) && Covers(policy, live, extras, table, scope, plan)
    requires u.key !in scope && u.key in table && table[u.key] == u.original
    requires SoundUpdate(live, extras, u.original, u.replacement) && NeedsRewrite(policy, live, extras, u.original)
    ensures SoundPlan(live, extras, plan + [u])
    ensures Covers(policy, live, extras, table, scope + {u.key}, plan + [u])
  {
    var longer := plan + [u];
    assert forall v :: v in longer <==> v in plan || v == u;
    forall k | k in scope + {u.key} && k in table && NeedsRewrite(policy, live, extras, table[k])
      ensures exists v :: v in longer && v.key == k
    {
      if k == u.key {
        assert u in longer;
      } else {
        var v :| v in plan && v.key == k;
        assert v in longer;
      }
    }
  }

  lemma SoundPlanChanges<K(!new)>(live: Engine, extras: seq<Engine>, plan: seq<Update<K>>)
    requires SoundPlan(live, extras, plan)
    ensures DistinctKeys(plan) && forall u :: u in plan ==> u.original != u.replacement
  {
    forall u | u in plan ensures u.original != u.replacement { assert SoundUpdate(live, extras, u.original, u.replacement); }
  }

  ghost function LockedIn<K(!new)>(policy: Policy, live: Engine, extras: seq<Engine>, table: map<K, string>, seen: set<K>): set<K> {
    set k | k in seen && k in table && IsLockedOut(policy, live, extras, table[k])
  }

  /** What the scan knows when the rows of `seen` have been read. */
  ghost predicate ScannedSoFar<K(!new)>(policy: Policy, live: Engine, extras: seq<Engine>, table: map<K, string>,
                                        seen: set<K>, plan: seq<Update<K>>, locked: nat)
  {
    && SoundPlan(live, extras, plan)
    && Covers(policy, live, extras, table, seen, plan)
    && locked == |LockedIn(policy, live, extras, table, seen)|
  }

  lemma LockedInGrows<K(!new)>(policy: Policy, live: Engine, extras: seq<Engine>, table: map<K, string>, seen: set<K>, k: K)
    requires k in table && k !in seen
    ensures LockedIn(policy, live, extras, table, seen + {k})
         == LockedIn(policy, live, extras, table, seen) + (if IsLockedOut(policy, live, extras, table[k]) then {k} else {})
    ensures |LockedIn(policy, live, extras, table, seen + {k})|
         == |LockedIn(policy, live, extras, table, seen)| + (if IsLockedOut(policy, live, extras, table[k]) then 1 else 0)
  {
  }

  lemma CoversMore<K(!new)>(policy: Policy, live: Engine, extras: seq<Engine>, table: map<K, string>,
                            seen: set<K>, plan: seq<Update<K>>, k: K)
    requires Covers(policy, live, extras, table, seen, plan)
    requires k in table && !NeedsRewrite(policy, live, extras, table[k])
    ensures Covers(policy, live, extras, table, seen + {k}, plan)
  {
  }

  lemma ScanRow<K(!new)>(policy: Policy, live: Engine, extras: seq<Engine>, table: map<K, string>,
                         seen: set<K>, plan: seq<Update<K>>, locked: nat, k: K, row: RowPlan)
    requires ScannedSoFar(policy, live, extras, table, seen, plan, locked)
    requires k in table && k !in seen && RowPlanned(policy, live, extras, table[k], row) && !row.Abort?
    ensures ScannedSoFar(policy, live, extras, table, seen + {k},
              if row.Replace? then plan + [Update(k, table[k], row.replacement)] else plan,
              if row.Count? then locked + 1 else locked)
  {
    LockedInGrows(policy, live, extras, table, seen, k);
    if row.Replace? {
      PlanGrows(policy, live, extras, table, seen, plan, Update(k, table[k], row.replacement));
    } else {
      CoversMore(policy, live, extras, table, seen, plan, k);
    }
  }

  /** Reads every row, decides, and prepares the replacements; `None` is an encryption or SQL error. */
  method Scan<K(==, !new)>(policy: Policy, live: Engine, extras: seq<Engine>, table: map<K, string>,
                           draws: Draws, readFails: nat -> bool)
    returns (result: Option<(seq<Update<K>>, nat)>)
    requires live.prim.Laws() && GoodDraws(draws)
    ensures result.Some? ==>
      && SoundPlan(live, extras, result.value.0)
      && Covers(policy, live, extras, table, table.Keys, result.value.0)
      && result.value.1 == |LockedOut(policy, live, extras, table)|
    ensures (forall n :: !readFails(n)) && AlwaysSeals(live, draws) ==> result.Some?
  {
    var plan: seq<Update<K>> := [];
    var locked: nat, step: nat := 0, 0;
    var todo := table.Keys;
    ghost var seen: set<K> := {};
    ScanStart(policy, live, extras, table);
    while todo != {}
      invariant seen !! todo && seen + todo == table.Keys
      invariant ScannedSoFar(policy, live, extras, table, seen, plan, locked)
    {
      if readFails(step) { return None; }
      var k :| k in todo;
      var row := PlanRow(policy, live, extras, table[k], draws(step));
      if row.Abort? { return None; }
      step := step + 1;
      ScanRow(policy, live, extras, table, seen, plan, locked, k, row);
      todo, seen := todo - {k}, seen + {k};
      locked := if row.Count? then locked + 1 else locked;
      plan := if row.Replace? then plan + [Update(k, table[k], row.replacement)] else plan;
    }
    ScanEnd(policy, live, extras, table, seen, plan, locked);
    result := Some((plan, locked));
  }

  lemma ScanStart<K(!new)>(policy: Policy, live: Engine, extras: seq<Engine>, table: map<K, string>)
    ensures ScannedSoFar(policy, live, extras, table, {}, [], 0)
  {
  }

  lemma ScanEnd<K(!new)>(policy: Policy, live: Engine, extras: seq<Engine>, table: map<K, string>,
                         seen: set<K>, plan: seq<Update<K>>, locked: nat)
    requires ScannedSoFar(policy, live, extras, table, seen, plan, locked) && seen == table.Keys
    ensures SoundPlan(live, extras, plan) && Covers(policy, live, extras, table, table.Keys, plan)
    ensures locked == |LockedOut(policy, live, extras, table)|
  {
    assert LockedIn(policy, live, extras, table, seen) == LockedOut(policy, live, extras, table);
  }

  // ---------------------------------------------------------------- phase 2: conditional updates

  /** The effect on one row: replaced only while it still holds the scanned original. */
  ghost predicate RowAfter<K(!new)>(plan: seq<Update<K>>, k: K, before: string, after: string) {
    && (forall u :: u in plan && u.key == k && u.original == before ==> after == u.replacement)
    && ((forall u :: u in plan && u.key == k ==> u.original != before) ==> after == before)
  }

  ghost predicate TableAfter<K(!new)>(plan: seq<Update<K>>, before: map<K, string>, after: map<K, string>) {
    after.Keys == before.Keys && forall k :: k in before ==> RowAfter(plan, k, before[k], after[k])
  }

  ghost function Changed<K(!new)>(before: map<K, string>, after: map<K, string>): set<K>
    requires before.Keys == after.Keys
  {
    set k | k in before && before[k] != after[k]
  }

  /** UPDATE ... SET value = replacement WHERE key = ... AND value = original, one by one.
      `None` is a failed statement: the caller's transaction is rolled back. */
  method ApplyConditionally<K(==, !new)>(table: map<K, string>, plan: seq<Update<K>>, first: nat, fails: nat -> bool)
    returns (result: Option<(map<K, string>, nat)>)
    requires DistinctKeys(plan)
    requires forall u :: u in plan ==> u.original != u.replacement
    ensures result.Some? ==>
      TableAfter(plan, table, result.value.0) && result.value.1 == |Changed(table, result.value.0)|
    ensures (forall n :: !fails(n)) ==> result.Some?
  {
    var current, changed := table, 0;
    for i := 0 to |plan|
      invariant current.Keys == table.Keys
      invariant forall j :: 0 <= j < i && plan[j].key in table ==>
                  current[plan[j].key] == if table[plan[j].key] == plan[j].original then plan[j].replacement
                                          else table[plan[j].key]
      invariant forall k :: k in table && (forall j :: 0 <= j < i ==> plan[j].key != k) ==> current[k] == table[k]
      invariant changed == |Changed(table, current)|
    {
      if fails(first + i) { return None; }
      var u := plan[i];
      ghost var previous := current;
      if u.key in current && current[u.key] == u.original {
        current := current[u.key := u.replacement];
        changed := changed + 1;
        assert Changed(table, current) == Changed(table, previous) + {u.key};
      }
    }
    forall k | k in table ensures RowAfter(plan, k, table[k], current[k]) {
      if j :| 0 <= j < |plan| && plan[j].key == k {
        assert plan[j] in plan;
        forall u | u in plan && u.key == k ensures u == plan[j] {
          var i :| 0 <= i < |plan| && plan[i] == u;
        }
      }
    }
    result := Some((current, changed));
  }

  // ---------------------------------------------------------------- what a rekey leaves behind

  /** The outcome for one row that the scan saw as `scanned` and the update found as `found`. */
  ghost predicate RowSafe(policy: Policy, live: Engine, extras: seq<Engine>, scanned: Option<string>, found: string, after: string) {
    || after == found
    || (scanned == Some(found) && live.Protects(after) && Means(live, extras, found, live.TryDecrypt(after).value))
  }

  /** Rekey loses nothing, whatever another writer did between scan and update: a row changes only if
      it still held what the scan saw, and then live opens the new text to what the old one meant;
      every row that needed it and was left alone by others is changed, all others are identical. */
  lemma RekeyLosesNothing<K(!new)>(policy: Policy, live: Engine, extras: seq<Engine>,
                                   scanned: map<K, string>, plan: seq<Update<K>>,
                                   found: map<K, string>, after: map<K, string>)
    requires SoundPlan(live, extras, plan) && Covers(policy, live, extras, scanned, scanned.Keys, plan)
    requires TableAfter(plan, found, after)
    ensures forall k :: k in found ==>
      RowSafe(policy, live, extras, if k in scanned then Some(scanned[k]) else None, found[k], after[k])
    ensures forall k :: k in found ==>
      (after[k] != found[k] <==>
         k in scanned && scanned[k] == found[k] && NeedsRewrite(policy, live, extras, found[k]))
  {
    forall k | k in found
      ensures RowSafe(policy, live, extras, if k in scanned then Some(scanned[k]) else None, found[k], after[k])
      ensures after[k] != found[k] <==>
        k in scanned && scanned[k] == found[k] && NeedsRewrite(policy, live, extras, found[k])
    {
      assert RowAfter(plan, k, found[k], after[k]);
      if k in scanned && scanned[k] == found[k] && NeedsRewrite(policy, live, extras, found[k]) {
        var u :| u in plan && u.key == k;
        assert after[k] == u.replacement;
      } else {
        assert forall u :: u in plan && u.key == k ==> u.original != found[k];
      }
    }
  }

  /** The rescue, row by row: a value live or any extra key opens ends as current ciphertext that live
      opens to a plaintext one of them saw; a fact no key opens ends exactly as it was. */
  lemma OpenableEndsCurrent(policy: Policy, live: Engine, extras: seq<Engine>, before: string, after: string)
    requires RowSafe(policy, live, extras, Some(before), before, after)
    requires after != before <==> NeedsRewrite(policy, live, extras, before)
    ensures Opens(live, extras, before) ==>
      live.Protects(after)
      && exists e :: (e == live || e in extras) && e.TryDecrypt(before) == live.TryDecrypt(after)
    ensures policy.LeavePlaintext? && !Opens(live, extras, before) ==> after == before
  {
    FormatDecidesOpening(live, extras, before);
    if Opens(live, extras, before) && after != before {
      var plain := live.TryDecrypt(after).value;
      var e :| (e == live || e in extras) && e.TryDecrypt(before) == Success(plain);
      assert e.TryDecrypt(before) == live.TryDecrypt(after);
    }
  }

  /** Rekeyed rows are settled: a later scan rewrites none of them and gives up on the same ones. */
  lemma RekeySettles<K(!new)>(policy: Policy, live: Engine, extras: seq<Engine>,
                              scanned: map<K, string>, plan: seq<Update<K>>, after: map<K, string>)
    requires SoundPlan(live, extras, plan) && Covers(policy, live, extras, scanned, scanned.Keys, plan)
    requires TableAfter(plan, scanned, after)
    ensures forall k :: k in scanned ==>
      && !NeedsRewrite(policy, live, extras, after[k])
      && (IsLockedOut(policy, live, extras, after[k]) <==> IsLockedOut(policy, live, extras, scanned[k]))
  {
    RekeyLosesNothing(policy, live, extras, scanned, plan, scanned, after);
    forall k | k in scanned
      ensures !NeedsRewrite(policy, live, extras, after[k])
      ensures IsLockedOut(policy, live, extras, after[k]) <==> IsLockedOut(policy, live, extras, scanned[k])
    {
    }
  }

  /** A complete quiet rekey: exactly the rows that needed it are rewritten, to current ciphertext
      of what they meant; both counters are exact; nothing is left to rewrite. */
  ghost predicate RekeyOutcome<K(!new)>(policy: Policy, live: Engine, extras: seq<Engine>,
                                        before: map<K, string>, after: map<K, string>, changed: nat, locked: nat)
  {
    && after.Keys == before.Keys
    && (forall k :: k in before ==>
          && RowSafe(policy, live, extras, Some(before[k]), before[k], after[k])
          && (after[k] != before[k] <==> NeedsRewrite(policy, live, extras, before[k]))
          && !NeedsRewrite(policy, live, extras, after[k]))
    && changed == |Changed(before, after)|
    && locked == |LockedOut(policy, live, extras, before)| == |LockedOut(policy, live, extras, after)|
  }

  lemma QuietRekeyOutcome<K(!new)>(policy: Policy, live: Engine, extras: seq<Engine>,
                                   before: map<K, string>, plan: seq<Update<K>>, after: map<K, string>)
    requires SoundPlan(live, extras, plan) && Covers(policy, live, extras, before, before.Keys, plan)
    requires TableAfter(plan, before, after)
    ensures RekeyOutcome(policy, live, extras, before, after, |Changed(before, after)|,
                         |LockedOut(policy, live, extras, before)|)
  {
    RekeyLosesNothing(policy, live, extras, before, plan, before, after);
    RekeySettles(policy, live, extras, before, plan, after);
    assert LockedOut(policy, live, extras, before) == LockedOut(policy, live, extras, after);
  }

  /** A quiet rekey after a quiet rekey changes no row and reports none. */
  lemma RekeyTwice<K(!new)>(policy: Policy, live: Engine, extras: seq<Engine>,
                            first: map<K, string>, second: map<K, string>, third: map<K, string>,
                            c1: nat, l1: nat, c2: nat, l2: nat)
    requires RekeyOutcome(policy, live, extras, first, second, c1, l1)
    requires RekeyOutcome(policy, live, extras, second, third, c2, l2)
    ensures third == second && c2 == 0 && l2 == l1
  {
    assert Changed(second, third) == {};
  }
}
