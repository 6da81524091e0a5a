/** Deep JSON patches of the configuration file (liva-native-core/src/paths.rs 183-197, 241-307). */
module JsonPatch {
  import opened Wrappers

  /** `Leaf` is any value a patch can only replace as a whole. */
  datatype Json = Null | Leaf(text: string) | Object(fields: map<string, Json>)

  function Get(m: map<string, Json>, k: string): Json { if k in m then m[k] else Null }

  /** `merge_json`, as a function. */
  function Merge(base: Json, patch: Json): Json
    decreases patch
  {
    if base.Object? && patch.Object? then
      Object(map k | k in base.fields.Keys + patch.fields.Keys ::
        if k in patch.fields then Merge(Get(base.fields, k), patch.fields[k]) else base.fields[k])
    else patch
  }

  /** The program's loop: merge every entry of the patch into the base in place. */
  method MergeJson(base: Json, patch: Json) returns (merged: Json)
    ensures merged == Merge(base, patch)
    decreases patch
  {
    if !(base.Object? && patch.Object?) { return patch; }
    var fields := base.fields;
    var todo := patch.fields.Keys;
    while todo != {}
      invariant todo <= patch.fields.Keys
      invariant fields.Keys == base.fields.Keys + (patch.fields.Keys - todo)
      invariant forall k :: k in fields ==>
        fields[k] == if k in patch.fields && k !in todo then Merge(Get(base.fields, k), patch.fields[k]) else base.fields[k]
    {
      var key :| key in todo;
      var slot := MergeJson(Get(fields, key), patch.fields[key]);
      fields := fields[key := slot];
      todo := todo - {key};
    }
    merged := Object(fields);
    assert merged == Merge(base, patch);
  }

  // ---------------------------------------------------------------- one patch

  /** Applying a patch again changes nothing. */
  lemma {:induction false} MergeIdempotent(base: Json, patch: Json)
    ensures Merge(Merge(base, patch), patch) == Merge(base, patch)
    decreases patch
  {
    if patch.Object? {
      forall k | k in patch.fields
        ensures base.Object? ==> Merge(Merge(Get(base.fields, k), patch.fields[k]), patch.fields[k]) == Merge(Get(base.fields, k), patch.fields[k])
        ensures Merge(patch.fields[k], patch.fields[k]) == patch.fields[k]
      {
        if base.Object? { MergeIdempotent(Get(base.fields, k), patch.fields[k]); }
        MergeIdempotent(Null, patch.fields[k]);
      }
    }
  }

  function Lookup(j: Json, path: seq<string>): Option<Json>
    decreases |path|
  {
    if path == [] then Some(j)
    else if j.Object? && path[0] in j.fields then Lookup(j.fields[path[0]], path[1..])
    else None
  }

  /** The patch decides this path: every key on the way is in it, or it replaces something above. */
  predicate Reaches(patch: Json, path: seq<string>)
    decreases |path|
  {
    path == [] || !patch.Object? || (path[0] in patch.fields && Reaches(patch.fields[path[0]], path[1..]))
  }

  /** Every path of the base the patch does not reach is kept, none appears. */
  lemma {:induction false} MergeKeepsUnreached(base: Json, patch: Json, path: seq<string>)
    requires !Reaches(patch, path)
    ensures Lookup(Merge(base, patch), path) == Lookup(base, path)
    decreases |path|
  {
    if path[0] in patch.fields {
      MergeKeepsUnreached(if base.Object? then Get(base.fields, path[0]) else Null, patch.fields[path[0]], path[1..]);
      if !base.Object? || path[0] !in base.fields { NoPathInNull(path[1..], patch.fields[path[0]]); }
    }
  }

  lemma NoPathInNull(path: seq<string>, patch: Json)
    requires !Reaches(patch, path)
    ensures Lookup(Null, path) == None && Merge(Null, patch) == patch
  {
  }

  /** Every leaf of the patch is in the result. */
  lemma {:induction false} MergeSetsLeaves(base: Json, patch: Json, path: seq<string>)
    requires Lookup(patch, path).Some? && !Lookup(patch, path).value.Object?
    ensures Lookup(Merge(base, patch), path) == Lookup(patch, path)
    decreases |path|
  {
    if path != [] && base.Object? {
      MergeSetsLeaves(Get(base.fields, path[0]), patch.fields[path[0]], path[1..]);
    }
  }

  /** Where the patch has an object the result has one, whatever the base had there. */
  lemma {:induction false} MergeSetsObjects(base: Json, patch: Json, path: seq<string>)
    requires Lookup(patch, path).Some? && Lookup(patch, path).value.Object?
    ensures Lookup(Merge(base, patch), path).Some? && Lookup(Merge(base, patch), path).value.Object?
    decreases |path|
  {
    if path != [] && base.Object? {
      MergeSetsObjects(Get(base.fields, path[0]), patch.fields[path[0]], path[1..]);
    }
  }

  /** A base that is no object, and an empty one, give the patch itself. */
  lemma MergeIntoNothing(base: Json, patch: Json)
    requires !base.Object? || (base.fields == map[] && patch.Object?)
    ensures Merge(base, patch) == patch
  {
    if base.Object? {
      assert Merge(base, patch).fields.Keys == patch.fields.Keys;
      forall k | k in patch.fields ensures Merge(base, patch).fields[k] == patch.fields[k] {
        assert Merge(Null, patch.fields[k]) == patch.fields[k];
      }
      assert Merge(base, patch).fields == patch.fields;
    }
  }

  // ---------------------------------------------------------------- two patches

  /** Two patches agree wherever they overlap. */
  predicate Agree(p: Json, q: Json)
    decreases p
  {
    if p.Object? && q.Object? then forall k :: k in p.fields && k in q.fields ==> Agree(p.fields[k], q.fields[k])
    else p == q
  }

  function MergeBoth(base: Json, p: Json, q: Json): Json { Merge(Merge(base, p), q) }

  lemma BothOfObject(base: Json, p: Json, q: Json)
    requires p.Object? && q.Object?
    ensures var m := if base.Object? then base.fields else map[];
      var both := MergeBoth(base, p, q);
      && both.Object? && both.fields.Keys == m.Keys + p.fields.Keys + q.fields.Keys
      && forall k :: k in both.fields ==>
           both.fields[k] ==
             if k in p.fields && k in q.fields then MergeBoth(Get(m, k), p.fields[k], q.fields[k])
             else if k in p.fields then Merge(Get(m, k), p.fields[k])
             else if k in q.fields then Merge(Get(m, k), q.fields[k])
             else m[k]
  {
    var m := if base.Object? then base.fields else map[];
    var one := Merge(base, p);
    assert one.fields.Keys == m.Keys + p.fields.Keys;
    forall k | k in one.fields ensures one.fields[k] == if k in p.fields then Merge(Get(m, k), p.fields[k]) else m[k] {
      if !base.Object? { assert Merge(Null, p.fields[k]) == p.fields[k]; }
    }
  }

  /** Agreeing patches commute on every base. */
  lemma {:induction false} AgreeingPatchesCommute(base: Json, p: Json, q: Json)
    requires Agree(p, q)
    ensures MergeBoth(base, p, q) == MergeBoth(base, q, p)
    decreases p
  {
    if p.Object? && q.Object? {
      var m := if base.Object? then base.fields else map[];
      forall k | k in p.fields && k in q.fields
        ensures MergeBoth(Get(m, k), p.fields[k], q.fields[k]) == MergeBoth(Get(m, k), q.fields[k], p.fields[k])
      {
        AgreeingPatchesCommute(Get(m, k), p.fields[k], q.fields[k]);
      }
      BothOfObject(base, p, q);
      BothOfObject(base, q, p);
      assert MergeBoth(base, p, q).fields == MergeBoth(base, q, p).fields;
    }
  }

  /** ... and no others do, not even on an empty base. */
  lemma {:induction false} CommuteOnlyIfAgree(p: Json, q: Json)
    requires MergeBoth(Null, p, q) == MergeBoth(Null, q, p)
    ensures Agree(p, q)
    decreases p
  {
    if p.Object? && q.Object? {
      BothOfObject(Null, p, q);
      BothOfObject(Null, q, p);
      forall k | k in p.fields && k in q.fields ensures Agree(p.fields[k], q.fields[k]) {
        assert k in MergeBoth(Null, p, q).fields;
        CommuteOnlyIfAgree(p.fields[k], q.fields[k]);
      }
    }
  }

  /** Two patches commute on every base if and only if they agree wherever they overlap. */
  lemma CommuteIffAgree(p: Json, q: Json)
    ensures (forall base :: MergeBoth(base, p, q) == MergeBoth(base, q, p)) <==> Agree(p, q)
  {
    if Agree(p, q) {
      forall base ensures MergeBoth(base, p, q) == MergeBoth(base, q, p) { AgreeingPatchesCommute(base, p, q); }
    }
    if MergeBoth(Null, p, q) == MergeBoth(Null, q, p) { CommuteOnlyIfAgree(p, q); }
  }

  // ---------------------------------------------------------------- any serialization

  function MergeAll(base: Json, patches: seq<Json>): Json
    decreases |patches|
  {
    if patches == [] then base else MergeAll(Merge(base, patches[0]), patches[1..])
  }

  ghost predicate AllAgree(patches: seq<Json>) {
    forall i, j :: 0 <= i < |patches| && 0 <= j < |patches| && i != j ==> Agree(patches[i], patches[j])
  }

  lemma {:induction false} MoveToEnd(base: Json, patches: seq<Json>, i: nat)
    requires i < |patches| && AllAgree(patches)
    ensures MergeAll(base, patches) == Merge(MergeAll(base, patches[..i] + patches[i + 1..]), patches[i])
    decreases |patches| + (|patches| - i)
  {
    var p, rest := patches[0], patches[1..];
    if i > 0 {
      assert patches[..i] + patches[i + 1..] == [p] + (rest[..i - 1] + rest[i..]);
      MoveToEnd(Merge(base, p), rest, i - 1);
    } else if rest == [] {
      assert patches[..0] + patches[1..] == [];
    } else {
      var q := rest[0];
      AgreeingPatchesCommute(base, p, q);
      var swapped := [p] + rest[1..];
      assert forall j :: 0 < j < |swapped| ==> swapped[j] == patches[j + 1];
      assert MergeAll(base, patches) == MergeAll(MergeBoth(base, p, q), rest[1..]);
      assert MergeAll(Merge(base, q), swapped) == MergeAll(MergeBoth(base, q, p), rest[1..]);
      MoveToEnd(Merge(base, q), swapped, 0);
      assert swapped[..0] + swapped[1..] == rest[1..] && patches[..0] + patches[1..] == rest;
    }
  }

  /** Whatever order the lock serializes agreeing patches in, every one of them is in the result. */
  lemma EveryPatchIsContained(base: Json, patches: seq<Json>, i: nat)
    requires i < |patches| && AllAgree(patches)
    ensures Merge(MergeAll(base, patches), patches[i]) == MergeAll(base, patches)
  {
    MoveToEnd(base, patches, i);
    MergeIdempotent(MergeAll(base, patches[..i] + patches[i + 1..]), patches[i]);
  }

  /** ... and every order gives the same file. */
  lemma {:induction false} OrderDoesNotMatter(base: Json, patches: seq<Json>, others: seq<Json>)
    requires AllAgree(patches) && multiset(patches) == multiset(others)
    ensures MergeAll(base, patches) == MergeAll(base, others)
    decreases |patches|
  {
    if others == [] {
      assert |patches| == |multiset(patches)| == 0;
    } else {
      var n := |others| - 1;
      var last := others[n];
      assert last in multiset(patches);
      var i :| 0 <= i < |patches| && patches[i] == last;
      var rest := patches[..i] + patches[i + 1..];
      MoveToEnd(base, patches, i);
      SameRest(patches, others, i);
      WithoutAgree(patches, i);
      OrderDoesNotMatter(base, rest, others[..n]);
      MergeLast(base, others);
    }
  }

  lemma SameRest(patches: seq<Json>, others: seq<Json>, i: nat)
    requires i < |patches| && others != [] && patches[i] == others[|others| - 1] && multiset(patches) == multiset(others)
    ensures multiset(patches[..i] + patches[i + 1..]) == multiset(others[..|others| - 1])
  {
    var rest, init, x := patches[..i] + patches[i + 1..], others[..|others| - 1], patches[i];
    assert patches == patches[..i] + [x] + patches[i + 1..];
    assert others == init + [x];
    CancelOne(multiset(rest), multiset(init), x);
  }

  lemma CancelOne(a: multiset<Json>, b: multiset<Json>, x: Json)
    requires a + multiset{x} == b + multiset{x}
    ensures a == b
  {
    assert a == (a + multiset{x}) - multiset{x} && b == (b + multiset{x}) - multiset{x};
  }

  lemma WithoutAgree(patches: seq<Json>, i: nat)
    requires i < |patches| && AllAgree(patches)
    ensures AllAgree(patches[..i] + patches[i + 1..])
  {
    var rest := patches[..i] + patches[i + 1..];
    assert forall j :: 0 <= j < |rest| ==> rest[j] == patches[if j < i then j else j + 1];
  }

  lemma {:induction false} MergeLast(base: Json, patches: seq<Json>)
    requires patches != []
    ensures MergeAll(base, patches) == Merge(MergeAll(base, patches[..|patches| - 1]), patches[|patches| - 1])
    decreases |patches|
  {
    if |patches| > 1 {
      MergeLast(Merge(base, patches[0]), patches[1..]);
      assert patches[1..][..|patches| - 2] == patches[..|patches| - 1][1..];
    }
  }

  // ---------------------------------------------------------------- update_config_file_at

  datatype ConfigError = BadPatch | Poisoned | Unreadable | BadConfig | NotWritten

  /** JSON text: what is printed parses back. */
  datatype Text = Text(print_: Json -> string, parse: string -> Option<Json>)

  ghost predicate Prints(t: Text) { forall j :: t.parse(t.print_(j)) == Some(j) }

  class ConfigFile {
    const text: Text
    var content: Option<string>
    var temporary: Option<string>

    constructor (text: Text, content: Option<string>)
      ensures this.text == text && this.content == content && temporary == None
    {
      this.text, this.content, temporary := text, content, None;
    }

    /** The configuration an update starts from. */
    function Current(): Option<Json>
      reads this
    {
      if content.None? then Some(Object(map[])) else text.parse(content.value)
    }

    /** Writes aside and replaces the file in one step; readers never see a half-written file. */
    method ReplaceAtomically(serialized: string, createFails: bool, partial: Option<string>, replaceFails: bool, removeFails: bool)
      returns (ok: bool)
      requires temporary.None?
      modifies this
      ensures ok ==> content == Some(serialized) && temporary == None
      ensures !ok ==> content == old(content) && (!removeFails ==> temporary == None)
      ensures !createFails && partial.None? && !replaceFails ==> ok
    {
      if createFails { return false; }
      temporary := if partial.Some? then partial else Some(serialized);
      ok := partial.None? && !replaceFails;
      if ok {
        content, temporary := temporary, None;
      } else if !removeFails {
        temporary := None;
      }
    }

    /** One update under the lock: the merged configuration, or no change at all. */
    method Update(payload: Json, poisoned: bool, readFails: bool, createFails: bool, partial: Option<string>,
                  replaceFails: bool, removeFails: bool)
      returns (result: Result<Json, ConfigError>)
      requires Prints(text) && temporary.None?
      modifies this
      ensures result.Success? ==>
        old(Current()).Some? && Current() == Some(result.value) && result.value == Merge(old(Current()).value, payload)
      ensures result.Success? && old(content).None? ==> result.value == payload
      ensures result.Success? && old(content).Some? ==>
        text.parse(old(content).value).Some? && result.value == Merge(text.parse(old(content).value).value, payload)
      ensures result.Success? ==> content.Some? && text.parse(content.value) == Some(result.value)
      ensures result.Failure? ==> content == old(content)
      ensures result.Success? || !removeFails ==> temporary == None
      ensures result.Success? || poisoned || readFails || createFails || partial.Some? || replaceFails
              || !payload.Object?
              || (old(content).Some? && (text.parse(old(content).value).None? || !text.parse(old(content).value).value.Object?))
    {
      if !payload.Object? { return Failure(BadPatch); }
      if poisoned { return Failure(Poisoned); }
      if content.Some? && readFails { return Failure(Unreadable); }
      var current := Current();
      if current.None? { return Failure(Unreadable); }
      if !current.value.Object? { return Failure(BadConfig); }
      var merged := MergeJson(current.value, payload);
      if content.None? { MergeIntoNothing(current.value, payload); }
      var ok := ReplaceAtomically(text.print_(merged), createFails, partial, replaceFails, removeFails);
      result := if ok then Success(merged) else Failure(NotWritten);
    }
  }
}
