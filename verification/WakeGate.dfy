/** The wake gate: the pruned phrase search over the opening words of a transcript, and the window
    during which the gate stays open (liva-native-core/src/wake.rs 316-391). */
module WakeGate {
  import opened Wrappers

  type Words = seq<string>

  function Concat(words: Words): string {
    if words == [] then "" else Concat(words[..|words| - 1]) + words[|words| - 1]
  }

  function Opening(words: Words): Words { if |words| > 8 then words[..8] else words }

  /** A phrase, or a phrase drawn out with a final "o". */
  predicate IsPhrase(phrases: seq<string>, s: string) {
    exists p :: p in phrases && (s == p || s == p + "o")
  }

  predicate CanStillMatch(phrases: seq<string>, s: string) {
    exists p :: p in phrases && (s <= p || s <= p + "o")
  }

  /** The simple form: some words from the first on, at least one, read together give a phrase. */
  ghost predicate AcceptsFrom(phrases: seq<string>, words: Words) {
    exists k :: 1 <= k <= |words| && IsPhrase(phrases, Concat(words[..k]))
  }

  /** ... among the first eight words, after an optional leading "hey". */
  ghost predicate Accepts(phrases: seq<string>, words: Words) {
    var w := Opening(words);
    AcceptsFrom(phrases, w) || (w != [] && w[0] == "hey" && AcceptsFrom(phrases, w[1..]))
  }

  /** The same with every bound spelled out: up to eight words from the first, or up to seven behind a
      leading "hey". */
  lemma AcceptsIff(phrases: seq<string>, words: Words)
    ensures Accepts(phrases, words) <==>
      exists start: nat, n: nat, p :: Reads(words, start, n, phrases, p)
  {
    var w := Opening(words);
    if AcceptsFrom(phrases, w) {
      var k :| 1 <= k <= |w| && IsPhrase(phrases, Concat(w[..k]));
      var p :| p in phrases && (Concat(w[..k]) == p || Concat(w[..k]) == p + "o");
      assert w[..k] == words[0..k];
      assert Reads(words, 0, k, phrases, p);
    }
    if w != [] && w[0] == "hey" && AcceptsFrom(phrases, w[1..]) {
      var k :| 1 <= k <= |w[1..]| && IsPhrase(phrases, Concat(w[1..][..k]));
      var p :| p in phrases && (Concat(w[1..][..k]) == p || Concat(w[1..][..k]) == p + "o");
      assert w[1..][..k] == words[1..k + 1];
      assert Reads(words, 1, k + 1, phrases, p);
    }
    if start: nat, n: nat, p :| Reads(words, start, n, phrases, p) {
      if start == 0 {
        assert w[..n] == words[0..n];
        assert IsPhrase(phrases, Concat(w[..n]));
      } else {
        assert w[1..][..n - 1] == words[1..n];
        assert IsPhrase(phrases, Concat(w[1..][..n - 1]));
      }
    }
  }

  ghost predicate Reads(words: Words, start: nat, n: nat, phrases: seq<string>, p: string) {
    && start < n <= 8 && n <= |words| && (start == 0 || (start == 1 && words[0] == "hey"))
    && p in phrases && (Concat(words[start..n]) == p || Concat(words[start..n]) == p + "o")
  }

  /** Reading words together is the first word followed by the rest. */
  lemma {:induction false} ConcatFirst(words: Words)
    requires words != []
    ensures Concat(words) == words[0] + Concat(words[1..])
    decreases |words|
  {
    if |words| > 1 {
      var n := |words| - 1;
      ConcatFirst(words[..n]);
      assert words[1..][..n - 1] == words[..n][1..];
      assert words[1..][n - 1] == words[n];
    } else {
      assert words[1..] == [] && words[..0] == [];
    }
  }

  lemma {:induction false} ConcatGrows(words: Words, i: nat, k: nat)
    requires i <= k <= |words|
    ensures Concat(words[..i]) <= Concat(words[..k])
    decreases k - i
  {
    if i < k {
      ConcatGrows(words, i, k - 1);
      assert words[..k][..k - 1] == words[..k - 1];
    }
  }

  /** Why stopping early is safe: a reading that gives a phrase could still match at every earlier
      word, so once no phrase starts with the words read so far, no longer reading is a phrase. */
  lemma EarlierPrefixCouldMatch(phrases: seq<string>, words: Words, i: nat, k: nat)
    requires i <= k <= |words| && IsPhrase(phrases, Concat(words[..k]))
    ensures CanStillMatch(phrases, Concat(words[..i]))
  {
    ConcatGrows(words, i, k);
    var p :| p in phrases && (Concat(words[..k]) == p || Concat(words[..k]) == p + "o");
    assert Concat(words[..i]) <= p || Concat(words[..i]) <= p + "o";
  }

  datatype Mode = Off | AsrPrefix | TrainedModel | Hybrid

  class Gate {
    const mode: Mode
    const phrases: seq<string>
    const window: nat
    var awakeUntil: Option<int>

    constructor (mode: Mode, phrases: seq<string>, window: nat)
      ensures this.mode == mode && this.phrases == phrases && this.window == window && awakeUntil == None
    {
      this.mode, this.phrases, this.window, awakeUntil := mode, phrases, window, None;
    }

    /** The inner loop: grows the prefix word by word, gives up when no phrase can match any more. */
    method MatchesFrom(words: Words) returns (hit: bool)
      ensures hit <==> AcceptsFrom(phrases, words)
    {
      var prefix := "";
      for i := 0 to |words|
        invariant prefix == Concat(words[..i])
        invariant forall k :: 1 <= k <= i ==> !IsPhrase(phrases, Concat(words[..k]))
      {
        assert words[..i + 1][..i] == words[..i];
        prefix := prefix + words[i];
        if IsPhrase(phrases, prefix) { return true; }
        if !CanStillMatch(phrases, prefix) {
          forall k | 1 <= k <= |words| ensures !IsPhrase(phrases, Concat(words[..k])) {
            if k > i && IsPhrase(phrases, Concat(words[..k])) { EarlierPrefixCouldMatch(phrases, words, i + 1, k); }
          }
          return false;
        }
      }
      hit := false;
    }

    method MatchesPhrase(words: Words) returns (hit: bool)
      ensures hit <==> Accepts(phrases, words)
    {
      var w := Opening(words);
      var starts := [0, if w != [] && w[0] == "hey" then 1 else 0];
      assert w[0..] == w;
      for n := 0 to 2
        invariant forall m :: 0 <= m < n ==> !AcceptsFrom(phrases, w[starts[m]..])
      {
        hit := MatchesFrom(w[starts[n]..]);
        if hit { return true; }
      }
      assert !AcceptsFrom(phrases, w[starts[0]..]) && !AcceptsFrom(phrases, w[starts[1]..]);
      hit := false;
    }

    predicate IsAwake(now: int)
      reads this
    {
      mode.Off? || (awakeUntil.Some? && now < awakeUntil.value)
    }

    method NoteActivity(now: int)
      modifies this
      ensures awakeUntil == Step(mode, phrases, window, old(awakeUntil), Activity(now))
      ensures mode != Off ==> forall t :: IsAwake(t) <==> t < now + window
      ensures mode == Off ==> awakeUntil == old(awakeUntil) && forall t :: IsAwake(t)
    {
      if mode != Off { awakeUntil := Some(now + window); }
    }

    method Sleep()
      modifies this
      ensures awakeUntil == Step(mode, phrases, window, old(awakeUntil), Slept)
      ensures mode != Off ==> forall t :: !IsAwake(t)
    {
      awakeUntil := None;
    }

    method TryWake(words: Words, now: int) returns (hit: bool)
      modifies this
      ensures hit <==> Accepts(phrases, words)
      ensures awakeUntil == Step(mode, phrases, window, old(awakeUntil), Heard(words, now))
      ensures hit && mode != Off ==> forall t :: IsAwake(t) <==> t < now + window
      ensures !hit ==> awakeUntil == old(awakeUntil)
      ensures hit && window > 0 ==> IsAwake(now)
    {
      hit := MatchesPhrase(words);
      if hit { NoteActivity(now); }
    }
  }

  datatype Event = Heard(words: Words, now: int) | Activity(now: int) | Slept

  ghost predicate Opens(phrases: seq<string>, e: Event) {
    e.Activity? || (e.Heard? && Accepts(phrases, e.words))
  }

  /** A window after the last opening, unless a sleep came later. */
  ghost function Deadline(phrases: seq<string>, window: nat, events: seq<Event>): Option<int> {
    if events == [] || events[|events| - 1].Slept? then None
    else if Opens(phrases, events[|events| - 1]) then Some(events[|events| - 1].now + window)
    else Deadline(phrases, window, events[..|events| - 1])
  }

  /** What one call does to the awake window. */
  ghost function Step(mode: Mode, phrases: seq<string>, window: nat, at: Option<int>, e: Event): Option<int> {
    if e.Slept? then None
    else if Opens(phrases, e) && mode != Off then Some(e.now + window)
    else at
  }

  ghost function Run(mode: Mode, phrases: seq<string>, window: nat, at: Option<int>, events: seq<Event>): Option<int>
    decreases |events|
  {
    if events == [] then at else Run(mode, phrases, window, Step(mode, phrases, window, at, events[0]), events[1..])
  }

  /** Any run of calls on a fresh, enabled gate leaves it open exactly until a window after the last
      opening since the last sleep. */
  lemma GateFollowsLastOpening(mode: Mode, phrases: seq<string>, window: nat, events: seq<Event>)
    requires mode != Off
    ensures Run(mode, phrases, window, None, events) == Deadline(phrases, window, events)
  {
    RunEnds(mode, phrases, window, events, |events|);
    assert events[..|events|] == events;
  }

  lemma {:induction false} RunEnds(mode: Mode, phrases: seq<string>, window: nat, events: seq<Event>, n: nat)
    requires mode != Off && n <= |events|
    ensures Run(mode, phrases, window, None, events[..n]) == Deadline(phrases, window, events[..n])
  {
    if n > 0 {
      RunEnds(mode, phrases, window, events, n - 1);
      assert events[..n] == events[..n - 1] + [events[n - 1]];
      RunLast(mode, phrases, window, None, events[..n - 1], events[n - 1]);
      assert events[..n][..n - 1] == events[..n - 1];
    }
  }

  lemma {:induction false} RunLast(mode: Mode, phrases: seq<string>, window: nat, at: Option<int>, events: seq<Event>, e: Event)
    ensures Run(mode, phrases, window, at, events + [e])
         == Step(mode, phrases, window, Run(mode, phrases, window, at, events), e)
    decreases |events|
  {
    if events == [] {
      assert ([] + [e])[1..] == [];
    } else {
      assert (events + [e])[1..] == events[1..] + [e];
      RunLast(mode, phrases, window, Step(mode, phrases, window, at, events[0]), events[1..], e);
    }
  }
}
