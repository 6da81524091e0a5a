/** Backup and offline restore of the database file (liva-native-core/src/persistence_backup.rs 94-328):
    every rename may fail, compensating renames undo partial work, guards remove temporary files. */
module BackupRestore {
  import opened Wrappers

  // ---------------------------------------------------------------- files

  datatype Database = Database(schemaVersion: int, sound: bool, rows: string)

  datatype Metadata = Metadata(version: nat, createdAt: int, bytes: nat, digest: string, schemaVersion: int, keyId: string)

  /** Copying a database page by page keeps the database, not the bytes: hence `layout`. */
  datatype Content = Image(db: Database, layout: string) | Manifest(meta: Metadata) | Other(text: string)

  type Files = map<string, Content>

  const MANIFEST_VERSION := 2

  function ManifestPath(backup: string): string { backup + ".manifest.json" }

  function Renamed(f: Files, from: string, to: string): Files
    requires from in f
  {
    (f - {from})[to := f[from]]
  }

  // ---------------------------------------------------------------- moved aside, moved back

  type Pair = (string, string)

  /** The database and its sidecars, each with the name it is kept under. */
  function Pairs(target: string, rollback: string): seq<Pair> {
    [(target, rollback), (target + "-wal", rollback + "-wal"), (target + "-shm", rollback + "-shm")]
  }

  /** Three files and three unused names. */
  ghost predicate Names(f: Files, pairs: seq<Pair>) {
    && |pairs| == 3
    && (forall i, j :: 0 <= i < 3 && 0 <= j < 3 ==> pairs[i].0 != pairs[j].1)
    && (forall i, j :: 0 <= i < 3 && 0 <= j < 3 && i != j ==> pairs[i].0 != pairs[j].0 && pairs[i].1 != pairs[j].1)
    && (forall i :: 0 <= i < 3 ==> pairs[i].1 !in f)
  }

  /** One file, either in its place as it was, or intact under its other name. */
  ghost predicate InPlace(f0: Files, f: Files, pair: Pair, moved: bool) {
    if moved then pair.0 in f0 && pair.0 !in f && pair.1 in f && f[pair.1] == f0[pair.0]
    else Same(f0, f, pair.0) && pair.1 !in f
  }

  ghost predicate Same(f0: Files, f: Files, p: string) {
    (p in f <==> p in f0) && (p in f0 ==> f[p] == f0[p])
  }

  predicate Named(pairs: seq<Pair>, p: string) {
    exists i :: 0 <= i < |pairs| && (p == pairs[i].0 || p == pairs[i].1)
  }

  /** Exactly the pairs in `moved` are under their other name; nothing else differs. */
  ghost predicate Placed(f0: Files, f: Files, pairs: seq<Pair>, moved: set<nat>) {
    && Names(f0, pairs)
    && (forall i: nat :: i < 3 ==> InPlace(f0, f, pairs[i], i in moved))
    && (forall p :: !Named(pairs, p) ==> Same(f0, f, p))
  }

  lemma MoveAside(f0: Files, f: Files, pairs: seq<Pair>, moved: set<nat>, i: nat)
    requires Placed(f0, f, pairs, moved) && i < 3 && i !in moved && pairs[i].0 in f
    ensures Placed(f0, Renamed(f, pairs[i].0, pairs[i].1), pairs, moved + {i})
  {
    var g := Renamed(f, pairs[i].0, pairs[i].1);
    forall j: nat | j < 3 ensures InPlace(f0, g, pairs[j], j in moved + {i}) {
      assert InPlace(f0, f, pairs[j], j in moved);
      assert InPlace(f0, f, pairs[i], i in moved);
    }
    forall p | !Named(pairs, p) ensures Same(f0, g, p) {
      assert p != pairs[i].0 && p != pairs[i].1;
      assert Same(f0, f, p);
    }
  }

  lemma MoveBack(f0: Files, f: Files, pairs: seq<Pair>, moved: set<nat>, i: nat)
    requires Placed(f0, f, pairs, moved) && i < 3 && i in moved
    ensures pairs[i].1 in f && Placed(f0, Renamed(f, pairs[i].1, pairs[i].0), pairs, moved - {i})
  {
    assert InPlace(f0, f, pairs[i], i in moved);
    var g := Renamed(f, pairs[i].1, pairs[i].0);
    forall j: nat | j < 3 ensures InPlace(f0, g, pairs[j], j in moved - {i}) {
      assert InPlace(f0, f, pairs[j], j in moved);
    }
    forall p | !Named(pairs, p) ensures Same(f0, g, p) {
      assert p != pairs[i].0 && p != pairs[i].1;
      assert Same(f0, f, p);
    }
  }

  /** With nothing moved the files are exactly as before. */
  lemma AllInPlace(f0: Files, f: Files, pairs: seq<Pair>)
    requires Placed(f0, f, pairs, {})
    ensures f == f0
  {
    forall p ensures Same(f0, f, p) {
      if Named(pairs, p) {
        var i: nat :| i < 3 && (p == pairs[i].0 || p == pairs[i].1);
        assert InPlace(f0, f, pairs[i], false);
      }
    }
    assert forall p :: p in f <==> p in f0 by {
      forall p ensures p in f <==> p in f0 { assert Same(f0, f, p); }
    }
    assert forall p :: p in f0 ==> f[p] == f0[p] by {
      forall p | p in f0 ensures f[p] == f0[p] { assert Same(f0, f, p); }
    }
  }

  /** No content is ever lost, even when compensating renames fail: every file is where it was, or
      under the other name of its pair. */
  lemma NothingIsLost(f0: Files, f: Files, pairs: seq<Pair>, moved: set<nat>)
    requires Placed(f0, f, pairs, moved)
    ensures forall p :: p in f0 ==>
      || (p in f && f[p] == f0[p])
      || exists pair :: pair in pairs && pair.0 == p && pair.1 in f && f[pair.1] == f0[p]
  {
    forall p | p in f0 && !(p in f && f[p] == f0[p])
      ensures exists pair :: pair in pairs && pair.0 == p && pair.1 in f && f[pair.1] == f0[p]
    {
      assert !Same(f0, f, p);
      var i: nat :| i < 3 && (p == pairs[i].0 || p == pairs[i].1);
      assert InPlace(f0, f, pairs[i], i in moved);
      assert pairs[i] in pairs;
    }
  }

  /** The random names of a restore are unused and collide with nothing. */
  ghost predicate FreshNames(f: Files, target: string, temporary: string, rollback: string) {
    var pairs := Pairs(target, rollback);
    && temporary !in f && !Named(pairs, temporary)
    && (forall i :: 0 <= i < 3 ==> pairs[i].1 !in f)
    && (forall i, j :: 0 <= i < 3 && 0 <= j < 3 ==> pairs[i].0 != pairs[j].1)
  }

  lemma NamesOfFresh(f: Files, target: string, temporary: string, rollback: string, content: Content)
    requires FreshNames(f, target, temporary, rollback)
    ensures var pairs := Pairs(target, rollback);
      Names(f, pairs) && Names(f[temporary := content], pairs) && Placed(f[temporary := content], f[temporary := content], pairs, {})
  {
    SuffixDiffers(target);
    SuffixDiffers(rollback);
    var pairs := Pairs(target, rollback);
    forall i | 0 <= i < 3 ensures pairs[i].1 !in f[temporary := content] {
      assert pairs[i].1 != temporary;
    }
  }

  lemma SuffixDiffers(name: string)
    ensures name != name + "-wal" && name != name + "-shm" && name + "-wal" != name + "-shm"
  {
    assert (name + "-wal")[|name| + 1] == 'w' && (name + "-shm")[|name| + 1] == 's';
    assert |name + "-wal"| == |name| + 4 && |name + "-shm"| == |name| + 4;
  }

  // ---------------------------------------------------------------- key ids

  predicate IsHexDigit(c: char) { '0' <= c <= '9' || 'a' <= c <= 'f' || 'A' <= c <= 'F' }

  function LowerChar(c: char): char { if 'A' <= c <= 'Z' then (c as int + 32) as char else c }

  function Lower(s: string): (r: string)
    ensures |r| == |s| && forall i :: 0 <= i < |s| ==> r[i] == LowerChar(s[i])
  {
    seq(|s|, i requires 0 <= i < |s| => LowerChar(s[i]))
  }

  /** `eq_ignore_ascii_case` */
  predicate SameKey(a: string, b: string) { Lower(a) == Lower(b) }

  predicate ValidKeyId(s: string) { |s| == 32 && forall c :: c in s ==> IsHexDigit(c) }

  ghost predicate SameLetter(a: char, b: char) {
    a == b || (exists i :: 0 <= i < 26 && {a, b} == {"abcdefghijklmnopqrstuvwxyz"[i], "ABCDEFGHIJKLMNOPQRSTUVWXYZ"[i]})
  }

  lemma SameLetterIff(a: char, b: char)
    ensures LowerChar(a) == LowerChar(b) <==> SameLetter(a, b)
  {
    var low, up := "abcdefghijklmnopqrstuvwxyz", "ABCDEFGHIJKLMNOPQRSTUVWXYZ";
    forall i | 0 <= i < 26 ensures low[i] == 'a' + i as char && up[i] == 'A' + i as char {}
    if 'a' <= LowerChar(a) <= 'z' && LowerChar(a) == LowerChar(b) && a != b {
      var i := LowerChar(a) as int - 'a' as int;
      assert low[i] == LowerChar(a) && up[i] as int == LowerChar(a) as int - 32;
      assert {a, b} == {low[i], up[i]};
    }
    if i :| 0 <= i < 26 && {a, b} == {low[i], up[i]} {
      assert a in {low[i], up[i]} && b in {low[i], up[i]};
    }
  }

  /** Two key ids are the same when they differ in the case of ASCII letters only. */
  lemma SameKeyIff(a: string, b: string)
    ensures SameKey(a, b) <==> |a| == |b| && forall i :: 0 <= i < |a| ==> SameLetter(a[i], b[i])
  {
    forall i | 0 <= i < |a| && i < |b| ensures LowerChar(a[i]) == LowerChar(b[i]) <==> SameLetter(a[i], b[i]) {
      SameLetterIff(a[i], b[i]);
    }
    if SameKey(a, b) {
      assert |a| == |Lower(a)| == |Lower(b)| == |b|;
      forall i | 0 <= i < |a| ensures SameLetter(a[i], b[i]) { assert Lower(a)[i] == Lower(b)[i]; }
    }
  }

  lemma ValidKeyIdIff(s: string)
    ensures ValidKeyId(s) <==> |s| == 32 && forall i :: 0 <= i < |s| ==> s[i] in "0123456789abcdefABCDEF"
  {
    forall i | 0 <= i < |s| ensures IsHexDigit(s[i]) <==> s[i] in "0123456789abcdefABCDEF" { HexDigitIff(s[i]); }
    if ValidKeyId(s) { assert forall i :: 0 <= i < |s| ==> s[i] in s; }
  }

  lemma HexDigitIff(c: char)
    ensures IsHexDigit(c) <==> c in "0123456789abcdefABCDEF"
  {
    var digits := "0123456789abcdefABCDEF";
    if '0' <= c <= '9' { assert digits[c as int - '0' as int] == c; }
    if 'a' <= c <= 'f' { assert digits[c as int - 'a' as int + 10] == c; }
    if 'A' <= c <= 'F' { assert digits[c as int - 'A' as int + 16] == c; }
  }

  lemma LowerTwice(s: string)
    ensures Lower(Lower(s)) == Lower(s)
  {
    forall i | 0 <= i < |s| ensures Lower(Lower(s))[i] == Lower(s)[i] { assert Lower(s)[i] == LowerChar(s[i]); }
  }

  // ---------------------------------------------------------------- what restore checks and does

  /** Size and SHA-256 of a file. */
  datatype Env = Env(size: Content -> nat, digest: Content -> string)

  predicate Restorable(env: Env, f: Files, backup: string, keyId: string) {
    && ManifestPath(backup) in f && f[ManifestPath(backup)].Manifest?
    && backup in f && f[backup].Image? && f[backup].db.sound
    && var m := f[ManifestPath(backup)].meta;
       m.version == MANIFEST_VERSION && SameKey(m.keyId, keyId)
       && env.size(f[backup]) == m.bytes && env.digest(f[backup]) == m.digest
       && f[backup].db.schemaVersion == m.schemaVersion
  }

  /** What restore has compared: the image against its manifest, the key id against the caller's. */
  ghost predicate Compared(env: Env, f: Files, backup: string, keyId: string) {
    && backup in f && f[backup].Image? && f[backup].db.sound
    && backup + ".manifest.json" in f && f[backup + ".manifest.json"].Manifest?
    && var m := f[backup + ".manifest.json"].meta;
       m.version == 2 && Lower(m.keyId) == Lower(keyId) && m.bytes == env.size(f[backup])
       && m.digest == env.digest(f[backup]) && m.schemaVersion == f[backup].db.schemaVersion
  }

  /** Which of the three files a restore moves aside: all that exist, but only if the target does. */
  function ToMove(f: Files, pairs: seq<Pair>): set<nat>
    requires |pairs| == 3
  {
    set i: nat | 0 <= i < 3 && pairs[0].0 in f && pairs[i].0 in f
  }

  /** After a successful restore: the target holds the backup's database; the old files, if there was
      an old target, sit intact under the rollback name; everything else is as before. */
  ghost predicate Restored(f0: Files, f: Files, pairs: seq<Pair>, db: Database) {
    && |pairs| == 3 && pairs[0].0 in f && f[pairs[0].0].Image? && f[pairs[0].0].db == db
    && Placed(f0, f - {pairs[0].0}, pairs, ToMove(f0, pairs))
  }

  /** The sidecar claim, read off: with an old target all three old files are preserved under the
      rollback name and no stale sidecar stays beside the new database; without one, stale sidecars
      stay exactly where they were. */
  lemma SidecarsFollowTarget(f0: Files, f: Files, pairs: seq<Pair>, db: Database)
    requires Restored(f0, f, pairs, db)
    ensures pairs[0].0 in f0 ==> pairs[0].1 in f && f[pairs[0].1] == f0[pairs[0].0]
    ensures forall i: nat :: 1 <= i < 3 ==>
      && (pairs[0].0 in f0 && pairs[i].0 in f0 ==> pairs[i].1 in f && f[pairs[i].1] == f0[pairs[i].0])
      && (pairs[i].0 in f <==> pairs[0].0 !in f0 && pairs[i].0 in f0)
      && (pairs[i].0 in f ==> f[pairs[i].0] == f0[pairs[i].0])
  {
    var aside := f - {pairs[0].0};
    assert InPlace(f0, aside, pairs[0], 0 in ToMove(f0, pairs));
    forall i: nat | 1 <= i < 3
      ensures pairs[0].0 in f0 && pairs[i].0 in f0 ==> pairs[i].1 in f && f[pairs[i].1] == f0[pairs[i].0]
      ensures pairs[i].0 in f <==> pairs[0].0 !in f0 && pairs[i].0 in f0
      ensures pairs[i].0 in f ==> f[pairs[i].0] == f0[pairs[i].0]
    {
      assert InPlace(f0, aside, pairs[i], i in ToMove(f0, pairs));
    }
  }

  /** With the names spelled out: target, `-wal` and `-shm`, each kept under the rollback name with the
      same ending. */
  lemma RestoredFiles(f0: Files, f: Files, target: string, rollback: string, db: Database)
    requires Restored(f0, f, Pairs(target, rollback), db)
    ensures target in f && f[target].Image? && f[target].db == db
    ensures target in f0 ==> rollback in f && f[rollback] == f0[target]
    ensures target in f0 && target + "-wal" in f0 ==>
      target + "-wal" !in f && rollback + "-wal" in f && f[rollback + "-wal"] == f0[target + "-wal"]
    ensures target in f0 && target + "-shm" in f0 ==>
      target + "-shm" !in f && rollback + "-shm" in f && f[rollback + "-shm"] == f0[target + "-shm"]
    ensures forall p :: p !in {target, target + "-wal", target + "-shm", rollback, rollback + "-wal", rollback + "-shm"} ==>
      Same(f0, f, p)
  {
    var pairs := Pairs(target, rollback);
    SidecarsFollowTarget(f0, f, pairs, db);
    assert pairs[1] == (target + "-wal", rollback + "-wal") && pairs[2] == (target + "-shm", rollback + "-shm");
    forall p | p !in {target, target + "-wal", target + "-shm", rollback, rollback + "-wal", rollback + "-shm"}
      ensures Same(f0, f, p)
    {
      assert !Named(pairs, p);
      assert Same(f0, f - {target}, p);
    }
  }

  datatype Outcome = Outcome(restoredBytes: nat, rollbackPath: Option<string>)

  /** What `backup_database` leaves behind when it succeeds. */
  ghost predicate BackedUp(env: Env, f0: Files, f: Files, destination: string, db: Database, keyId: string, meta: Metadata) {
    && db.sound && ValidKeyId(keyId)
    && destination !in f0 && destination + ".manifest.json" !in f0
    && destination in f && f[destination].Image? && f[destination].db == db
    && meta.version == 2 && meta.keyId == Lower(keyId) && meta.schemaVersion == db.schemaVersion
    && meta.bytes == env.size(f[destination]) && meta.digest == env.digest(f[destination])
    && f == f0[destination := f[destination]][destination + ".manifest.json" := Manifest(meta)]
  }

  /** Restoring a backup gives back the database it was taken from: a finished backup passes every
      check of restore under the same key id in any letter case, and under no other. */
  lemma BackupIsRestorable(env: Env, f0: Files, f: Files, destination: string, db: Database, keyId: string,
                           meta: Metadata, given: string)
    requires BackedUp(env, f0, f, destination, db, keyId, meta)
    ensures Restorable(env, f, destination, given) <==> SameKey(keyId, given)
  {
    SuffixManifest(destination);
    LowerTwice(keyId);
  }

  /** A backup that has been altered is refused.  Beside its own manifest, whatever lies at the backup's
      place is restorable if and only if it is a sound image of the size, digest and schema version that
      were backed up, and the key id is the same. */
  lemma RestorableIffUnaltered(env: Env, f0: Files, f: Files, destination: string, db: Database, keyId: string,
                               meta: Metadata, g: Files, given: string)
    requires BackedUp(env, f0, f, destination, db, keyId, meta)
    requires destination + ".manifest.json" in g && g[destination + ".manifest.json"] == Manifest(meta)
    ensures Restorable(env, g, destination, given) <==>
      && SameKey(keyId, given) && destination in g && g[destination].Image? && g[destination].db.sound
      && env.size(g[destination]) == env.size(f[destination]) && env.digest(g[destination]) == env.digest(f[destination])
      && g[destination].db.schemaVersion == db.schemaVersion
  {
    LowerTwice(keyId);
  }

  /** Without a manifest of version 2 beside it nothing is restored. */
  lemma NoManifestNoRestore(env: Env, f: Files, backup: string, given: string)
    ensures Restorable(env, f, backup, given) ==>
      && backup + ".manifest.json" in f && f[backup + ".manifest.json"].Manifest?
      && f[backup + ".manifest.json"].meta.version == 2
  {
  }

  lemma SuffixManifest(name: string)
    ensures ManifestPath(name) != name
  {
    assert |ManifestPath(name)| == |name| + 14;
  }

  // ---------------------------------------------------------------- the disk

  class Disk {
    const env: Env
    /** Whether the n-th operation fails; compensating renames and removals have their own. */
    const fails: nat -> bool
    const undoFails: nat -> bool

    var files: Files
    var tick: nat

    constructor (env: Env, files: Files, fails: nat -> bool, undoFails: nat -> bool)
      ensures this.env == env && this.files == files && this.fails == fails && this.undoFails == undoFails
    {
      this.env, this.files, this.fails, this.undoFails := env, files, fails, undoFails;
      tick := 0;
    }

    ghost predicate NothingFails() { forall n :: !fails(n) }
    ghost predicate UndoWorks() { forall n :: !undoFails(n) }

    method Works() returns (ok: bool)
      modifies this`tick
      ensures ok == !fails(old(tick)) && tick == old(tick) + 1
    {
      tick := tick + 1;
      ok := !fails(tick - 1);
    }

    method Rename(from: string, to: string) returns (ok: bool)
      modifies this
      ensures ok ==> from in old(files) && files == Renamed(old(files), from, to)
      ensures !ok ==> files == old(files)
      ensures NothingFails() && from in old(files) ==> ok
    {
      ok := Works();
      ok := ok && from in files;
      if ok { files := Renamed(files, from, to); }
    }

    /** `let _ = rename(..)` */
    method RenameBack(from: string, to: string) returns (ghost ok: bool)
      requires from in files
      modifies this
      ensures files == if ok then Renamed(old(files), from, to) else old(files)
      ensures UndoWorks() ==> ok
    {
      tick := tick + 1;
      ok := !undoFails(tick - 1);
      if !undoFails(tick - 1) { files := Renamed(files, from, to); }
    }

    /** A guard going out of scope: `let _ = remove_file(..)` */
    method Discard(path: string)
      modifies this
      ensures files == old(files) || files == old(files) - {path}
      ensures UndoWorks() ==> files == old(files) - {path}
    {
      tick := tick + 1;
      if !undoFails(tick - 1) { files := files - {path}; }
    }

    method UndoOne(pairs: seq<Pair>, k: nat, ghost f0: Files, ghost moved: set<nat>) returns (ghost stuck: set<nat>)
      requires Placed(f0, files, pairs, moved) && k < 3 && k in moved
      modifies this
      ensures Placed(f0, files, pairs, stuck)
      ensures (stuck == moved || stuck == moved - {k}) && (UndoWorks() ==> stuck == moved - {k})
    {
      MoveBack(f0, files, pairs, moved, k);
      ghost var done := RenameBack(pairs[k].1, pairs[k].0);
      stuck := if done then moved - {k} else moved;
    }

    /** The compensating renames, latest first. */
    method Undo(pairs: seq<Pair>, moves: seq<nat>, ghost f0: Files) returns (ghost stuck: set<nat>)
      requires Listed(moves) && Placed(f0, files, pairs, Elements(moves))
      modifies this
      ensures Placed(f0, files, pairs, stuck)
      ensures UndoWorks() ==> stuck == {}
    {
      stuck := Elements(moves);
      var n := |moves|;
      assert moves[..n] == moves;
      while n > 0
        invariant 0 <= n <= |moves|
        invariant Placed(f0, files, pairs, stuck) && Elements(moves[..n]) <= stuck
        invariant UndoWorks() ==> stuck == Elements(moves[..n])
      {
        n := n - 1;
        LastMove(moves, n);
        stuck := UndoOne(pairs, moves[n], f0, stuck);
      }
    }

    /** Moves one of the three files aside if it exists. */
    method MoveOne(pairs: seq<Pair>, k: nat, ghost f0: Files, ghost moved: set<nat>) returns (existed: bool, ok: bool)
      requires Placed(f0, files, pairs, moved) && k < 3 && k !in moved
      modifies this
      ensures existed <==> pairs[k].0 in f0
      ensures Placed(f0, files, pairs, if ok && existed then moved + {k} else moved)
      ensures NothingFails() || !existed ==> ok
    {
      assert InPlace(f0, files, pairs[k], k in moved);
      existed, ok := pairs[k].0 in files, true;
      if existed {
        MoveAside(f0, files, pairs, moved, k);
        ok := Rename(pairs[k].0, pairs[k].1);
      }
    }

    /** The target first, then each sidecar that exists; a failing sidecar undoes the others. */
    method MoveAsideAll(pairs: seq<Pair>, ghost f0: Files) returns (moves: seq<nat>, ok: bool, ghost stuck: set<nat>)
      requires Placed(f0, files, pairs, {})
      modifies this
      ensures Placed(f0, files, pairs, stuck)
      ensures ok ==> Listed(moves) && stuck == Elements(moves) == ToMove(f0, pairs)
      ensures !ok && UndoWorks() ==> stuck == {}
      ensures NothingFails() ==> ok
    {
      var existed;
      moves, stuck := [], {};
      existed, ok := MoveOne(pairs, 0, f0, {});
      if !ok || !existed { return; }
      moves, stuck := [0], {0};
      for k := 1 to 3
        invariant Placed(f0, files, pairs, stuck) && Listed(moves) && stuck == Elements(moves)
        invariant stuck == set i: nat | 0 <= i < k && pairs[i].0 in f0
        invariant ok
      {
        existed, ok := MoveOne(pairs, k, f0, stuck);
        if !ok {
          stuck := Undo(pairs, moves, f0);
          return;
        }
        if existed {
          OneMoreMove(moves, k);
          moves, stuck := moves + [k], stuck + {k};
        }
      }
    }

    // -------------------------------------------------------------- restore_database

    /** The copy under the temporary name; a failing copy may leave anything there. */
    method CopyImage(db: Database, layout: string, temporary: string, leaves: Option<Content>) returns (ok: bool)
      requires temporary !in files
      modifies this
      ensures ok ==> files == old(files)[temporary := Image(db, layout)] && db.sound
      ensures !ok ==> files - {temporary} == old(files)
      ensures NothingFails() && db.sound ==> ok
    {
      ok := Works();
      if !ok {
        if leaves.Some? { files := files[temporary := leaves.value]; }
        return;
      }
      files := files[temporary := Image(db, layout)];
      ok := Works();
      if !ok || !db.sound { return false; }
      ok := Works();
    }

    /** From the finished copy on: move the old files aside, put the copy in place, or undo. */
    method SwapIn(pairs: seq<Pair>, temporary: string, ghost f0: Files) returns (ok: bool, ghost stuck: set<nat>)
      requires f0 == files && Placed(f0, f0, pairs, {}) && temporary in files && !Named(pairs, temporary)
      modifies this
      ensures ok ==> Placed(f0 - {temporary}, files - {pairs[0].0}, pairs, ToMove(f0 - {temporary}, pairs))
      ensures ok ==> pairs[0].0 in files && files[pairs[0].0] == f0[temporary]
      ensures !ok ==> Placed(f0, files, pairs, stuck)
      ensures !ok && UndoWorks() ==> files == f0
      ensures NothingFails() ==> ok
    {
      var moves;
      moves, ok, stuck := MoveAsideAll(pairs, f0);
      if ok {
        TargetIsFree(f0, files, pairs, temporary);
        SwapDone(f0, files, pairs, temporary, stuck);
        ok := Rename(temporary, pairs[0].0);
        if !ok { stuck := Undo(pairs, moves, f0); }
      }
      if !ok && stuck == {} { AllInPlace(f0, files, pairs); }
    }

    method RestoreDatabase(backup: string, target: string, keyId: string, temporary: string, rollback: string,
                           layout: string, leaves: Option<Content>)
      returns (result: Result<Outcome, string>, ghost stuck: set<nat>)
      requires FreshNames(files, target, temporary, rollback)
      modifies this
      ensures result.Success? ==>
        && Restorable(env, old(files), backup, keyId)
        && Compared(env, old(files), backup, keyId)
        && Restored(old(files), files, Pairs(target, rollback), old(files)[backup].db)
        && result.value == Outcome(env.size(old(files)[backup]), if target in old(files) then Some(rollback) else None)
      ensures result.Failure? ==> Placed(old(files), files - {temporary}, Pairs(target, rollback), stuck)
      ensures result.Failure? && UndoWorks() ==> files == old(files)
      ensures NothingFails() && Restorable(env, old(files), backup, keyId) ==> result.Success?
    {
      stuck := {};
      var pairs := Pairs(target, rollback);
      NamesOfFresh(files, target, temporary, rollback, Other(""));
      NothingMoved(files, pairs);
      assert files - {temporary} == files;
      var ok := Works();
      if !ok || !Restorable(env, files, backup, keyId) { return Failure("manifest, key, digest or schema"), stuck; }
      var db, size, existed := files[backup].db, env.size(files[backup]), target in files;
      ok := CopyImage(db, layout, temporary, leaves);
      if ok {
        NamesOfFresh(old(files), target, temporary, rollback, Image(db, layout));
        assert files - {temporary} == old(files);
        ok, stuck := SwapIn(pairs, temporary, files);
        if ok { return Success(Outcome(size, if existed then Some(rollback) else None)), stuck; }
        DropTemporary(old(files)[temporary := Image(db, layout)], files, pairs, temporary, stuck);
      }
      Discard(temporary);
      result := Failure("restore");
    }

    // -------------------------------------------------------------- backup_database

    /** Puts image and manifest under their final names, or neither. */
    method Publish(destination: string, tempDb: string, tempManifest: string) returns (ok: bool)
      requires tempDb in files && tempManifest in files && tempDb != tempManifest
      requires destination !in files && ManifestPath(destination) !in files
      modifies this
      ensures ok ==> files == (old(files) - {tempDb, tempManifest})[destination := old(files)[tempDb]]
                                                                   [ManifestPath(destination) := old(files)[tempManifest]]
      ensures !ok ==> files - {tempDb, tempManifest, destination} == old(files) - {tempDb, tempManifest}
      ensures !ok && UndoWorks() ==> destination !in files
      ensures NothingFails() ==> ok
    {
      SuffixManifest(destination);
      ok := Rename(tempDb, destination);
      if !ok { return; }
      ok := Rename(tempManifest, ManifestPath(destination));
      if !ok { Discard(destination); }
    }

    /** Copy, validate, write the manifest, publish; what a failure leaves is up to the guards. */
    method BuildBackup(destination: string, db: Database, layout: string, meta: Metadata,
                       tempDb: string, tempManifest: string, leaves: Option<Content>) returns (ok: bool)
      requires {tempDb, tempManifest} !! files.Keys && tempDb != tempManifest
      requires {tempDb, tempManifest} !! {destination, ManifestPath(destination)}
      requires destination !in files && ManifestPath(destination) !in files
      modifies this
      ensures ok ==> db.sound && files == old(files)[destination := Image(db, layout)][ManifestPath(destination) := Manifest(meta)]
      ensures !ok ==> files - {tempDb, tempManifest, destination} == old(files)
      ensures !ok && UndoWorks() ==> destination !in files
      ensures NothingFails() && db.sound ==> ok
    {
      ok := CopyImage(db, layout, tempDb, leaves);
      if !ok {
        Leftover(old(files), files, tempDb, tempManifest, destination);
        return;
      }
      ok := Works();
      if !ok {
        if leaves.Some? { files := files[tempManifest := leaves.value]; }
        return;
      }
      files := files[tempManifest := Manifest(meta)];
      assert files - {tempDb, tempManifest} == old(files);
      ok := Publish(destination, tempDb, tempManifest);
    }

    method BackupDatabase(destination: string, keyId: string, db: Database, layout: string, now: int,
                          tempDb: string, tempManifest: string, leaves: Option<Content>)
      returns (result: Result<Metadata, string>)
      requires {tempDb, tempManifest} !! files.Keys && tempDb != tempManifest
      requires {tempDb, tempManifest} !! {destination, ManifestPath(destination)}
      modifies this
      ensures result.Success? ==> BackedUp(env, old(files), files, destination, db, keyId, result.value)
      ensures result.Failure? ==> files == old(files) || files - {tempDb, tempManifest, destination} == old(files)
      ensures result.Failure? && UndoWorks() ==> files == old(files)
      ensures result.Success? || !NothingFails() || !ValidKeyId(keyId) || !db.sound
              || destination in old(files) || ManifestPath(destination) in old(files)
    {
      if !ValidKeyId(keyId) { return Failure("key id"); }
      if destination in files || ManifestPath(destination) in files { return Failure("already exists"); }
      var image := Image(db, layout);
      var meta := Metadata(MANIFEST_VERSION, now, env.size(image), env.digest(image), db.schemaVersion, Lower(keyId));
      SuffixManifest(destination);
      var ok := BuildBackup(destination, db, layout, meta, tempDb, tempManifest, leaves);
      if ok { return Success(meta); }
      Cleaned(old(files), files, tempDb, tempManifest, destination);
      Discard(tempManifest);
      Discard(tempDb);
      result := Failure("backup");
    }
  }

  lemma Leftover(f0: Files, f: Files, tempDb: string, tempManifest: string, destination: string)
    requires f - {tempDb} == f0 && {tempDb, tempManifest, destination} !! f0.Keys && tempDb != tempManifest && tempDb != destination
    ensures f - {tempDb, tempManifest, destination} == f0 && destination !in f
  {
    assert destination in f ==> destination in f - {tempDb};
    assert f - {tempDb, tempManifest, destination} == f0 - {tempManifest, destination};
  }

  /** Whatever the guards manage to remove, only the three new names can be left over. */
  lemma Cleaned(f0: Files, f: Files, tempDb: string, tempManifest: string, destination: string)
    requires f - {tempDb, tempManifest, destination} == f0
    ensures (f - {tempManifest}) - {tempDb, tempManifest, destination} == f0
    ensures (f - {tempDb}) - {tempDb, tempManifest, destination} == f0
    ensures ((f - {tempManifest}) - {tempDb}) - {tempDb, tempManifest, destination} == f0
    ensures destination !in f ==> (f - {tempManifest}) - {tempDb} == f0
  {
  }

  lemma NothingMoved(f: Files, pairs: seq<Pair>)
    requires Names(f, pairs)
    ensures Placed(f, f, pairs, {})
  {
  }

  lemma DropTemporary(f0: Files, f: Files, pairs: seq<Pair>, temporary: string, moved: set<nat>)
    requires Placed(f0, f, pairs, moved) && !Named(pairs, temporary)
    ensures Placed(f0 - {temporary}, f - {temporary}, pairs, moved)
  {
    forall i: nat | i < 3
      ensures InPlace(f0 - {temporary}, f - {temporary}, pairs[i], i in moved)
    {
      assert pairs[i].0 != temporary && pairs[i].1 != temporary;
      assert InPlace(f0, f, pairs[i], i in moved);
    }
    forall p | !Named(pairs, p) ensures Same(f0 - {temporary}, f - {temporary}, p) { assert Same(f0, f, p); }
  }

  lemma TargetIsFree(f0: Files, f: Files, pairs: seq<Pair>, temporary: string)
    requires |pairs| == 3 && Placed(f0, f, pairs, ToMove(f0, pairs)) && temporary in f0 && !Named(pairs, temporary)
    ensures pairs[0].0 !in f && temporary in f && f[temporary] == f0[temporary]
    ensures ToMove(f0 - {temporary}, pairs) == ToMove(f0, pairs)
  {
    assert InPlace(f0, f, pairs[0], 0 in ToMove(f0, pairs));
    assert Same(f0, f, temporary);
    forall i: nat | i < 3 ensures i in ToMove(f0 - {temporary}, pairs) <==> i in ToMove(f0, pairs) {
      assert pairs[i].0 != temporary && pairs[0].0 != temporary;
    }
  }

  lemma SwapDone(f0: Files, f: Files, pairs: seq<Pair>, temporary: string, moved: set<nat>)
    requires Placed(f0, f, pairs, moved) && !Named(pairs, temporary) && temporary in f && pairs[0].0 !in f
    ensures var g := Renamed(f, temporary, pairs[0].0);
      g - {pairs[0].0} == f - {temporary} && Placed(f0 - {temporary}, g - {pairs[0].0}, pairs, moved)
  {
    DropTemporary(f0, f, pairs, temporary, moved);
    assert temporary != pairs[0].0;
    assert Renamed(f, temporary, pairs[0].0) - {pairs[0].0} == f - {temporary};
  }

  ghost function Elements(moves: seq<nat>): set<nat> { set i | i in moves }

  ghost predicate Listed(moves: seq<nat>) {
    && (forall i :: 0 <= i < |moves| ==> moves[i] < 3)
    && (forall i, j :: 0 <= i < j < |moves| ==> moves[i] != moves[j])
  }

  lemma OneMoreMove(moves: seq<nat>, k: nat)
    requires Listed(moves) && k < 3 && k !in Elements(moves)
    ensures Listed(moves + [k]) && Elements(moves + [k]) == Elements(moves) + {k}
  {
    forall i | 0 <= i < |moves| ensures moves[i] != k { assert moves[i] in Elements(moves); }
  }

  lemma LastMove(moves: seq<nat>, n: nat)
    requires Listed(moves) && n < |moves|
    ensures moves[n] in Elements(moves[..n + 1]) && Elements(moves[..n]) == Elements(moves[..n + 1]) - {moves[n]}
  {
    assert moves[..n + 1] == moves[..n] + [moves[n]];
    assert moves[n] !in moves[..n];
  }
}
