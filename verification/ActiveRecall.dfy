/** The active-recall turn machine (liva-native-core/src/active_recall.rs 262-422, 430-622): a turn is either
    the answer to a pending question, or may itself be turned into one. */
module ActiveRecall {
  import opened Wrappers

  const TTL := 600

  datatype Fact = Fact(encValue: string, strength: real, lastAccessedAt: int, accessCount: int)

  datatype Pending = Pending(factKey: string, expected: string, askedAt: int)

  /** Text functions, trie lookup and decryption: `search` lists candidate keys for a text, `mentions`
      says whether a text names a key, `answer` is the readable, non-blank value of a ciphertext. */
  datatype Env = Env(clean: string -> string, strip: string -> string, byteLen: string -> nat,
                     search: (string, map<string, Fact>) -> seq<string>,
                     mentions: (string, string) -> bool, answer: string -> Option<string>)

  datatype State = State(pending: map<string, Pending>, facts: map<string, Fact>, initialized: bool, version: nat)

  /** One user turn: what the clock, the configuration and the database say at that moment. */
  datatype Turn = Turn(session: string, text: string, now: int, minInterval: Option<int>,
                       dbVersion: nat, dbFacts: Option<map<string, Fact>>, dbStrength: real)

  datatype Reply = Silent | Question(key: string) | Verdict(key: string, expected: string, correct: bool)

  // ---------------------------------------------------------------- judging an answer

  predicate Contains(s: string, part: string) {
    exists i :: 0 <= i <= |s| && part <= s[i..]
  }

  const GIVE_UP := ["quen", "khong nho", "k nho", "chiu", "khong biet", "k biet", "chua nho", "chiu roi", "quen roi",
                    "chiu thua", "chiu a"]

  predicate GaveUp(env: Env, text: string) {
    exists m :: m in GIVE_UP && Contains(env.strip(env.clean(text)), m)
  }

  predicate IsCorrect(env: Env, text: string, expected: string) {
    var user, want := env.clean(text), env.clean(expected);
    var userStripped, wantStripped := env.strip(user), env.strip(want);
    !GaveUp(env, text) && want != "" &&
    (Contains(user, want) || Contains(userStripped, wantStripped)
     || (Contains(want, user) && env.byteLen(user) >= 3)
     || (Contains(wantStripped, userStripped) && env.byteLen(userStripped) >= 3))
  }

  /** Naming the expected answer anywhere in the reply is judged correct if and only if that answer is
      not blank and the reply does not sound like giving up; repeating it word for word is one case. */
  lemma NamedAnswerIsCorrect(env: Env, text: string, expected: string, before: string, after: string)
    requires env.clean(text) == before + env.clean(expected) + after
    ensures IsCorrect(env, text, expected) <==> env.clean(expected) != "" && !GaveUp(env, text)
  {
    var want := env.clean(expected);
    assert (before + want + after)[|before|..] == want + after;
    assert want <= env.clean(text)[|before|..];
  }

  /** A fragment of the expected answer is judged correct as well, from three bytes on. */
  lemma FragmentIsCorrect(env: Env, text: string, expected: string, before: string, after: string)
    requires env.clean(expected) == before + env.clean(text) + after && env.byteLen(env.clean(text)) >= 3
    ensures IsCorrect(env, text, expected) <==> env.clean(expected) != "" && !GaveUp(env, text)
  {
    var user := env.clean(text);
    assert (before + user + after)[|before|..] == user + after;
    assert user <= env.clean(expected)[|before|..];
  }

  /** The part occurs in the text, so that the text is something, the part, something. */
  ghost predicate Occurs(text: string, part: string) { exists a, b :: text == a + part + b }

  lemma OccursIff(text: string, part: string)
    ensures Contains(text, part) <==> Occurs(text, part)
  {
    if Contains(text, part) {
      var i :| 0 <= i <= |text| && part <= text[i..];
      assert text == text[..i] + part + text[i + |part|..];
    }
    if Occurs(text, part) {
      var a, b :| text == a + part + b;
      assert text[|a|..] == part + b;
    }
  }

  /** A reply is wrong if it gives up, and if neither it nor its form without diacritics shares anything
      with the answer: the answer does not occur in it, nor it (three bytes or longer) in the answer. */
  lemma UnrelatedIsWrong(env: Env, text: string, expected: string)
    requires var user, want := env.clean(text), env.clean(expected);
      || GaveUp(env, text)
      || (!Occurs(user, want) && !Occurs(env.strip(user), env.strip(want))
          && (env.byteLen(user) < 3 || !Occurs(want, user))
          && (env.byteLen(env.strip(user)) < 3 || !Occurs(env.strip(want), env.strip(user))))
    ensures !IsCorrect(env, text, expected)
  {
    var user, want := env.clean(text), env.clean(expected);
    OccursIff(user, want);
    OccursIff(env.strip(user), env.strip(want));
    OccursIff(want, user);
    OccursIff(env.strip(want), env.strip(user));
  }

  /** The same without diacritics, in both directions. */
  lemma StrippedIsCorrect(env: Env, text: string, expected: string)
    requires var user, want := env.strip(env.clean(text)), env.strip(env.clean(expected));
      Occurs(user, want) || (Occurs(want, user) && env.byteLen(user) >= 3)
    ensures IsCorrect(env, text, expected) <==> env.clean(expected) != "" && !GaveUp(env, text)
  {
    OccursIff(env.strip(env.clean(text)), env.strip(env.clean(expected)));
    OccursIff(env.strip(env.clean(expected)), env.strip(env.clean(text)));
  }

  /** Giving up is saying one of eleven phrases anywhere in the reply. */
  lemma GaveUpIff(env: Env, text: string)
    ensures GaveUp(env, text) <==>
      exists m :: m in {"quen", "khong nho", "k nho", "chiu", "khong biet", "k biet", "chua nho", "chiu roi", "quen roi",
                        "chiu thua", "chiu a"} && Occurs(env.strip(env.clean(text)), m)
  {
    var user := env.strip(env.clean(text));
    forall m ensures Contains(user, m) <==> Occurs(user, m) { OccursIff(user, m); }
    assert forall m :: m in GIVE_UP <==>
      m in {"quen", "khong nho", "k nho", "chiu", "khong biet", "k biet", "chua nho", "chiu roi", "quen roi", "chiu thua", "chiu a"};
  }

  function NewStrength(current: real, correct: bool): real {
    if correct then (if current * 1.5 < 10.0 then current * 1.5 else 10.0)
    else (if current * 0.8 > 1.0 then current * 0.8 else 1.0)
  }

  predicate InRange(strength: real) { 1.0 <= strength <= 10.0 }

  /** From which strengths a verdict leads into [1, 10]: not only from within it. */
  lemma VerdictInRangeIff(current: real, correct: bool)
    ensures InRange(NewStrength(current, correct)) <==> if correct then current * 1.5 >= 1.0 else current * 0.8 <= 10.0
    ensures InRange(current) ==> InRange(NewStrength(current, correct))
  {
  }

  /** On a strength within [1, 10] a correct answer gains a half, up to 10, a wrong one loses a fifth, down
      to 1. */
  lemma VerdictEffect(current: real)
    requires InRange(current)
    ensures var s := NewStrength(current, true); current <= s <= 10.0 && (s < 10.0 ==> 2.0 * s == 3.0 * current)
    ensures var s := NewStrength(current, false); 1.0 <= s <= current && (s > 1.0 ==> 5.0 * s == 4.0 * current)
  {
  }

  // ---------------------------------------------------------------- one turn

  function Live(pending: map<string, Pending>, now: int): map<string, Pending> {
    map s | s in pending && now - pending[s].askedAt < TTL :: pending[s]
  }

  function Evaluate(env: Env, st: State, t: Turn, p: Pending): (State, Reply) {
    var correct := IsCorrect(env, t.text, p.expected);
    var current := if p.factKey in st.facts then st.facts[p.factKey].strength else t.dbStrength;
    var facts :=
      if p.factKey !in st.facts then st.facts
      else
        var f := st.facts[p.factKey];
        st.facts[p.factKey := f.(strength := NewStrength(current, correct), lastAccessedAt := t.now, accessCount := f.accessCount + 1)];
    (st.(facts := facts), Verdict(p.factKey, p.expected, correct))
  }

  function Refresh(st: State, t: Turn): State {
    if t.dbFacts.None? then st else st.(facts := t.dbFacts.value, initialized := true, version := t.dbVersion)
  }

  function Truncated(r: real): int { if r >= 0.0 then r.Floor else -((-r).Floor) }

  /** A candidate is asked about when its interval has passed, the text names it and it is readable. */
  predicate Askable(env: Env, facts: map<string, Fact>, t: Turn, key: string) {
    && t.minInterval.Some? && key in facts
    && t.now - facts[key].lastAccessedAt >= Truncated(t.minInterval.value as real * facts[key].strength)
    && env.mentions(t.text, key) && env.answer(facts[key].encValue).Some?
  }

  function FirstAskable(env: Env, facts: map<string, Fact>, t: Turn, keys: seq<string>): (r: Option<string>)
    ensures r.Some? ==> r.value in keys && Askable(env, facts, t, r.value)
    ensures r.None? ==> forall k :: k in keys ==> !Askable(env, facts, t, k)
  {
    if keys == [] then None
    else if Askable(env, facts, t, keys[0]) then Some(keys[0])
    else FirstAskable(env, facts, t, keys[1..])
  }

  /** The cache a question is looked up in: loaded on first use, reloaded when nothing matches and the
      facts have changed since. */
  function Loaded(env: Env, st: State, t: Turn): State {
    var first := if st.initialized then st else Refresh(st, t);
    if env.search(t.text, first.facts) == [] && t.dbVersion != first.version then Refresh(first, t) else first
  }

  function Challenge(env: Env, st: State, t: Turn): (State, Reply) {
    if env.clean(t.text) == "" then (st, Silent)
    else
      var ready := Loaded(env, st, t);
      match FirstAskable(env, ready.facts, t, env.search(t.text, ready.facts))
      case None => (ready, Silent)
      case Some(key) =>
        var f := ready.facts[key];
        (ready.(facts := ready.facts[key := f.(lastAccessedAt := t.now, accessCount := f.accessCount + 1)],
                pending := Live(ready.pending, t.now)[t.session := Pending(key, env.answer(f.encValue).value, t.now)]),
         Question(key))
  }

  /** `try_intercept_turn`. */
  function Intercept(env: Env, st: State, t: Turn): (State, Reply) {
    if t.minInterval.None? then (st, Silent)
    else
      var live := Live(st.pending, t.now);
      if t.session in live then Evaluate(env, st.(pending := live - {t.session}), t, live[t.session])
      else Challenge(env, st.(pending := live), t)
  }

  class Manager {
    const env: Env
    var pending: map<string, Pending>
    var facts: map<string, Fact>
    var initialized: bool
    var version: nat

    constructor (env: Env)
      ensures this.env == env && Now() == State(map[], map[], false, 0)
    {
      this.env, pending, facts, initialized, version := env, map[], map[], false, 0;
    }

    function Now(): State
      reads this
    {
      State(pending, facts, initialized, version)
    }

    /** `sweep_expired`: drops the stale challenges and says how many. */
    method SweepExpired(now: int) returns (dropped: nat)
      modifies this`pending
      ensures pending == Live(old(pending), now) && dropped == |old(pending)| - |pending|
    {
      var before := |pending|;
      ghost var was := pending;
      pending := Live(pending, now);
      assert pending.Keys <= was.Keys;
      FewerKeys(pending.Keys, was.Keys);
      assert |pending| == |pending.Keys| && |was| == |was.Keys|;
      dropped := before - |pending|;
    }

    method RefreshFromDb(t: Turn)
      modifies this`facts, this`initialized, this`version
      ensures Now() == Refresh(old(Now()), t)
    {
      if t.dbFacts.Some? { facts, initialized, version := t.dbFacts.value, true, t.dbVersion; }
    }

    method EvaluateAnswer(t: Turn, p: Pending) returns (reply: Reply)
      modifies this`facts
      ensures (Now(), reply) == Evaluate(env, old(Now()), t, p)
    {
      var correct := IsCorrect(env, t.text, p.expected);
      var current := if p.factKey in facts then facts[p.factKey].strength else t.dbStrength;
      if p.factKey in facts {
        var f := facts[p.factKey];
        facts := facts[p.factKey := f.(strength := NewStrength(current, correct), lastAccessedAt := t.now, accessCount := f.accessCount + 1)];
      }
      reply := Verdict(p.factKey, p.expected, correct);
    }

    /** The loop over candidate keys. */
    method FindAskable(t: Turn, keys: seq<string>) returns (found: Option<string>)
      ensures found == FirstAskable(env, facts, t, keys)
    {
      assert keys[0..] == keys;
      for i := 0 to |keys|
        invariant FirstAskable(env, facts, t, keys) == FirstAskable(env, facts, t, keys[i..])
      {
        assert keys[i..][0] == keys[i] && keys[i..][1..] == keys[i + 1..];
        if Askable(env, facts, t, keys[i]) { return Some(keys[i]); }
      }
      found := None;
    }

    method CheckAndCreateChallenge(t: Turn) returns (reply: Reply)
      modifies this
      ensures (Now(), reply) == Challenge(env, old(Now()), t)
    {
      if env.clean(t.text) == "" { return Silent; }
      if !initialized { RefreshFromDb(t); }
      if env.search(t.text, facts) == [] && t.dbVersion != version { RefreshFromDb(t); }
      var found := FindAskable(t, env.search(t.text, facts));
      if found.None? { return Silent; }
      var f := facts[found.value];
      facts := facts[found.value := f.(lastAccessedAt := t.now, accessCount := f.accessCount + 1)];
      pending := Live(pending, t.now)[t.session := Pending(found.value, env.answer(f.encValue).value, t.now)];
      reply := Question(found.value);
    }

    method TryInterceptTurn(t: Turn) returns (reply: Reply)
      modifies this
      ensures (Now(), reply) == Intercept(env, old(Now()), t)
    {
      if t.minInterval.None? { return Silent; }
      pending := Live(pending, t.now);
      if t.session in pending {
        var p := pending[t.session];
        pending := pending - {t.session};
        reply := EvaluateAnswer(t, p);
      } else {
        reply := CheckAndCreateChallenge(t);
      }
    }
  }

  lemma FewerKeys<T>(a: set<T>, b: set<T>)
    requires a <= b
    ensures |a| <= |b|
  {
    assert b == a + (b - a);
  }

  // ---------------------------------------------------------------- any run of turns

  datatype Event = Said(turn: Turn) | Swept(now: int)

  /** What happened: when, in which session, to what text, with what reply; for a question also the
      readable value of the fact it asks about, as cached when it was asked. */
  datatype Entry = Entry(session: string, now: int, text: string, reply: Reply, value: string)

  function ReadableValue(env: Env, facts: map<string, Fact>, key: string): string {
    if key in facts && env.answer(facts[key].encValue).Some? then env.answer(facts[key].encValue).value else ""
  }

  function Heard(env: Env, t: Turn, facts: map<string, Fact>, reply: Reply): Entry {
    Entry(t.session, t.now, t.text, reply, if reply.Question? then ReadableValue(env, facts, reply.key) else "")
  }

  function Step(env: Env, st: State, e: Event): (State, seq<Entry>) {
    match e
    case Swept(now) => (st.(pending := Live(st.pending, now)), [])
    case Said(t) =>
      var (next, reply) := Intercept(env, st, t);
      (next, if reply.Silent? then [] else [Heard(env, t, next.facts, reply)])
  }

  function Run(env: Env, st: State, events: seq<Event>): (State, seq<Entry>) {
    if events == [] then (st, [])
    else
      var (before, log) := Run(env, st, events[..|events| - 1]);
      var (after, added) := Step(env, before, events[|events| - 1]);
      (after, log + added)
  }

  function Of(log: seq<Entry>, session: string): seq<Entry> {
    if log == [] then []
    else Of(log[..|log| - 1], session) + (if log[|log| - 1].session == session then [log[|log| - 1]] else [])
  }

  function Time(e: Event): int { if e.Said? then e.turn.now else e.now }

  /** How one reply of a session may follow the one before it. */
  ghost predicate Follows(env: Env, previous: Option<Entry>, e: Entry) {
    match e.reply
    case Silent => false
    case Verdict(key, expected, correct) =>
      && previous.Some? && previous.value.reply == Question(key) && e.now - previous.value.now < 600
      && expected == previous.value.value && correct == IsCorrect(env, e.text, previous.value.value)
    case Question(_) => previous.Some? && previous.value.reply.Question? ==> e.now - previous.value.now >= 600
  }

  function Last(h: seq<Entry>): Option<Entry> { if h == [] then None else Some(h[|h| - 1]) }

  /** A session's history: a verdict directly follows the question it answers, asked less than 600 s
      before, about the same fact, judged against the answer that fact had then; a question follows
      another only if that one had gone stale. */
  ghost predicate Alternates(env: Env, h: seq<Entry>) {
    forall i :: 0 <= i < |h| ==> Follows(env, Last(h[..i]), h[i])
  }

  /** The pending challenge is exactly the unanswered last question, until it has gone stale. */
  ghost predicate Awaits(pending: map<string, Pending>, last: Option<Entry>, now: int, session: string) {
    if session in pending then
      last.Some? && last.value.reply == Question(pending[session].factKey) && last.value.now == pending[session].askedAt
      && last.value.value == pending[session].expected
    else last.Some? && last.value.reply.Question? ==> now - last.value.now >= TTL
  }

  ghost predicate Monotone(events: seq<Event>) {
    forall i, j :: 0 <= i < j < |events| ==> Time(events[i]) <= Time(events[j])
  }

  lemma OfOne(log: seq<Entry>, e: Entry, session: string)
    ensures Of(log + [e], session) == Of(log, session) + if e.session == session then [e] else []
  {
    assert (log + [e])[..|log|] == log;
  }

  lemma AlternatesMore(env: Env, h: seq<Entry>, e: Entry)
    requires Alternates(env, h) && Follows(env, Last(h), e)
    ensures Alternates(env, h + [e])
  {
    var longer := h + [e];
    forall i | 0 <= i < |longer| ensures Follows(env, Last(longer[..i]), longer[i]) {
      assert longer[..i] == h[..i];
      if i < |h| { assert longer[i] == h[i]; } else { assert h[..i] == h; }
    }
  }

  lemma LiveAwaits(pending: map<string, Pending>, last: Option<Entry>, before: int, now: int, session: string)
    requires before <= now && Awaits(pending, last, before, session)
    ensures Awaits(pending, last, now, session) && Awaits(Live(pending, now), last, now, session)
  {
  }

  /** A spoken reply, seen from any session. */
  lemma SpokenAwaits(env: Env, st: State, t: Turn, last: Option<Entry>, before: int, session: string)
    requires before <= t.now && Awaits(st.pending, last, before, session) && !Intercept(env, st, t).1.Silent?
    ensures var (after, reply) := Intercept(env, st, t); var e := Heard(env, t, after.facts, reply);
      if t.session == session then Follows(env, last, e) && Awaits(after.pending, Some(e), t.now, session)
      else Awaits(after.pending, last, t.now, session)
  {
    SpokenStep(env, st, t);
    LiveAwaits(st.pending, last, before, t.now, session);
    var live, after := Live(st.pending, t.now), Intercept(env, st, t).0.pending;
    if t.session != session {
      assert session in after <==> session in after - {t.session};
      assert session in live <==> session in live - {t.session};
    }
  }

  /** One event, for one session. */
  lemma StepAlternates(env: Env, st: State, log: seq<Entry>, before: int, e: Event, session: string)
    requires before <= Time(e)
    requires Alternates(env, Of(log, session)) && Awaits(st.pending, Last(Of(log, session)), before, session)
    ensures var (after, added) := Step(env, st, e);
      Alternates(env, Of(log + added, session)) && Awaits(after.pending, Last(Of(log + added, session)), Time(e), session)
  {
    var (after, added) := Step(env, st, e);
    var h := Of(log, session);
    if added == [] {
      assert log + added == log;
      SilentStep(env, st, e);
      LiveAwaits(st.pending, Last(h), before, Time(e), session);
    } else {
      OfOne(log, added[0], session);
      SpokenAwaits(env, st, e.turn, Last(h), before, session);
      if added[0].session == session {
        AlternatesMore(env, h, added[0]);
      } else {
        assert h + [] == h;
      }
    }
  }

  lemma SilentStep(env: Env, st: State, e: Event)
    requires Step(env, st, e).1 == []
    ensures Step(env, st, e).0.pending == Live(st.pending, Time(e)) || Step(env, st, e).0.pending == st.pending
  {
  }

  lemma SpokenStep(env: Env, st: State, t: Turn)
    requires !Intercept(env, st, t).1.Silent?
    ensures var (after, reply) := Intercept(env, st, t); var live := Live(st.pending, t.now);
      if t.session in live then
        && after.pending == live - {t.session}
        && reply == Verdict(live[t.session].factKey, live[t.session].expected, IsCorrect(env, t.text, live[t.session].expected))
      else reply.Question? && t.session in after.pending && after.pending - {t.session} == live - {t.session}
           && after.pending[t.session] == Pending(reply.key, ReadableValue(env, after.facts, reply.key), t.now)
  {
    var live := Live(st.pending, t.now);
    if t.session !in live {
      assert Live(live, t.now) == live;
    }
  }

  function LastTime(events: seq<Event>, start: int): int { if events == [] then start else Time(events[|events| - 1]) }

  lemma {:induction false} RunAwaits(env: Env, facts: map<string, Fact>, events: seq<Event>, start: int, session: string)
    requires Monotone(events) && (events != [] ==> start <= Time(events[0]))
    ensures var (st, log) := Run(env, State(map[], facts, false, 0), events);
      Alternates(env, Of(log, session)) && Awaits(st.pending, Last(Of(log, session)), LastTime(events, start), session)
  {
    if events != [] {
      var n := |events| - 1;
      RunAwaits(env, facts, events[..n], start, session);
      var (st, log) := Run(env, State(map[], facts, false, 0), events[..n]);
      StepAlternates(env, st, log, LastTime(events[..n], start), events[n], session);
    }
  }

  /** In every run with a clock that does not go back, every session alternates. */
  lemma RunAlternates(env: Env, facts: map<string, Fact>, events: seq<Event>, session: string)
    requires Monotone(events)
    ensures Alternates(env, Of(Run(env, State(map[], facts, false, 0), events).1, session))
  {
    RunAwaits(env, facts, events, if events == [] then 0 else Time(events[0]), session);
  }

  // ---------------------------------------------------------------- strengths

  ghost predicate SameStrengths(a: map<string, Fact>, b: map<string, Fact>) {
    a.Keys == b.Keys && forall k :: k in a ==> a[k].strength == b[k].strength && a[k].encValue == b[k].encValue
  }

  /** A turn changes a cached strength only by a verdict on that fact, given on a challenge of its own
      session less than 600 s old; any other turn leaves the cache, or the copy just reloaded from the
      database, with the strengths and values it had. */
  lemma StrengthChangesOnlyByVerdict(env: Env, st: State, t: Turn)
    ensures var (after, reply) := Intercept(env, st, t);
      if reply.Verdict? then
        && t.session in st.pending && t.now - st.pending[t.session].askedAt < 600 && st.pending[t.session].factKey == reply.key
        && after.facts.Keys == st.facts.Keys
        && (forall k :: k in st.facts ==> after.facts[k].encValue == st.facts[k].encValue)
        && (forall k :: k in st.facts && k != reply.key ==> after.facts[k].strength == st.facts[k].strength)
        && (reply.key in st.facts ==>
              after.facts[reply.key].strength == NewStrength(st.facts[reply.key].strength, reply.correct))
      else
        SameStrengths(after.facts, st.facts) || (t.dbFacts.Some? && SameStrengths(after.facts, t.dbFacts.value))
  {
    var live := Live(st.pending, t.now);
    if t.minInterval.Some? && t.session !in live { ChallengeKeepsStrengths(env, st.(pending := live), t); }
  }

  lemma ChallengeKeepsStrengths(env: Env, st: State, t: Turn)
    ensures var (after, reply) := Challenge(env, st, t);
      && !reply.Verdict?
      && (SameStrengths(after.facts, st.facts) || (t.dbFacts.Some? && SameStrengths(after.facts, t.dbFacts.value)))
  {
    if env.clean(t.text) == "" { return; }
    var ready := Loaded(env, st, t);
    assert ready.facts == st.facts || (t.dbFacts.Some? && ready.facts == t.dbFacts.value);
    assert SameStrengths(Challenge(env, st, t).0.facts, ready.facts);
  }

  ghost predicate AllInRange(facts: map<string, Fact>) { forall k :: k in facts ==> InRange(facts[k].strength) }

  /** Cached strengths that start in [1, 10], and are reloaded in [1, 10], stay there in every run. */
  lemma {:induction false} StrengthsStayInRange(env: Env, st: State, events: seq<Event>)
    requires AllInRange(st.facts)
    requires forall e :: e in events && e.Said? && e.turn.dbFacts.Some? ==> AllInRange(e.turn.dbFacts.value)
    ensures AllInRange(Run(env, st, events).0.facts)
  {
    if events != [] {
      var n := |events| - 1;
      assert events[n] in events && forall e :: e in events[..n] ==> e in events;
      StrengthsStayInRange(env, st, events[..n]);
      if events[n].Said? { TurnKeepsRange(env, Run(env, st, events[..n]).0, events[n].turn); }
    }
  }

  lemma TurnKeepsRange(env: Env, st: State, t: Turn)
    requires AllInRange(st.facts) && (t.dbFacts.Some? ==> AllInRange(t.dbFacts.value))
    ensures AllInRange(Intercept(env, st, t).0.facts)
  {
    StrengthChangesOnlyByVerdict(env, st, t);
  }

  // ---------------------------------------------------------------- when a turn asks

  lemma TruncatedIs(r: real)
    ensures r >= 0.0 ==> Truncated(r) as real <= r < Truncated(r) as real + 1.0
    ensures r < 0.0 ==> Truncated(r) as real - 1.0 < r <= Truncated(r) as real
  {
  }

  /** The cache a question is looked up in: the database's facts if the cache was never loaded, or if it is
      out of date and nothing in it matches; otherwise the cache as it is.  A failed load changes nothing. */
  lemma CacheUsed(env: Env, st: State, t: Turn)
    ensures var cache := Loaded(env, st, t).facts;
      && (t.dbFacts.None? ==> cache == st.facts)
      && (t.dbFacts.Some? && !st.initialized ==> cache == t.dbFacts.value)
      && (t.dbFacts.Some? && st.initialized ==>
            cache == if t.dbVersion != st.version && env.search(t.text, st.facts) == [] then t.dbFacts.value else st.facts)
    ensures var ready := Loaded(env, st, t);
      || (ready.facts, ready.initialized, ready.version) == (st.facts, st.initialized, st.version)
      || (t.dbFacts.Some? && ready.facts == t.dbFacts.value && ready.initialized && ready.version == t.dbVersion)
    ensures Loaded(env, st, t).pending == st.pending
  {
  }

  ghost predicate Due(env: Env, cache: map<string, Fact>, t: Turn, key: string) {
    && t.minInterval.Some? && key in cache && env.mentions(t.text, key) && env.answer(cache[key].encValue).Some?
    && t.now - cache[key].lastAccessedAt >= Truncated(t.minInterval.value as real * cache[key].strength)
  }

  /** The first of the found keys that is due. */
  ghost predicate FirstDue(env: Env, cache: map<string, Fact>, t: Turn, found: seq<string>, key: string) {
    exists i :: 0 <= i < |found| && found[i] == key && Due(env, cache, t, key) && forall j :: 0 <= j < i ==> !Due(env, cache, t, found[j])
  }

  function Touched(cache: map<string, Fact>, key: string, now: int): map<string, Fact>
    requires key in cache
  {
    cache[key := Fact(cache[key].encValue, cache[key].strength, now, cache[key].accessCount + 1)]
  }

  lemma {:induction false} FirstAskableIsFirst(env: Env, cache: map<string, Fact>, t: Turn, found: seq<string>)
    ensures var r := FirstAskable(env, cache, t, found); r.Some? ==> FirstDue(env, cache, t, found, r.value)
  {
    if found != [] {
      if Askable(env, cache, t, found[0]) {
        assert found[0] == FirstAskable(env, cache, t, found).value;
      } else {
        FirstAskableIsFirst(env, cache, t, found[1..]);
        var r := FirstAskable(env, cache, t, found[1..]);
        if r.Some? {
          var i :| 0 <= i < |found[1..]| && found[1..][i] == r.value && Due(env, cache, t, r.value)
            && forall j :: 0 <= j < i ==> !Due(env, cache, t, found[1..][j]);
          forall j | 0 <= j < i + 1 ensures !Due(env, cache, t, found[j]) {
            if j > 0 { assert found[1..][j - 1] == found[j]; }
          }
          assert found[i + 1] == r.value;
        }
      }
    }
  }

  /** With nothing pending, a turn asks about the first found key that is due, named in the text and
      readable, and touches that fact only; it stays silent only when no found key is. */
  lemma AsksWhatIsDue(env: Env, st: State, t: Turn)
    requires t.minInterval.Some? && t.session !in Live(st.pending, t.now)
    ensures var (after, reply) := Intercept(env, st, t); var cache := Loaded(env, st, t).facts; var found := env.search(t.text, cache);
      && (env.clean(t.text) == "" ==> reply.Silent? && after.facts == st.facts)
      && (env.clean(t.text) != "" ==>
            (reply.Silent? <==> forall k :: k in found ==> !Due(env, cache, t, k))
            && (reply.Silent? ==> after.facts == cache))
      && (!reply.Silent? ==> reply.Question? && FirstDue(env, cache, t, found, reply.key))
      && (!reply.Silent? ==> after.facts == Touched(cache, reply.key, t.now))
  {
    var live := Live(st.pending, t.now);
    var ready := Loaded(env, st.(pending := live), t);
    assert ready.facts == Loaded(env, st, t).facts;
    forall k ensures Askable(env, ready.facts, t, k) <==> Due(env, ready.facts, t, k) {}
    FirstAskableIsFirst(env, ready.facts, t, env.search(t.text, ready.facts));
  }

  /** A verdict touches the fact it judges, and no other. */
  lemma VerdictTouchesItsFact(env: Env, st: State, t: Turn)
    requires t.minInterval.Some? && t.session in Live(st.pending, t.now)
    ensures var (after, reply) := Intercept(env, st, t); var p := st.pending[t.session];
      && reply == Verdict(p.factKey, p.expected, IsCorrect(env, t.text, p.expected))
      && (p.factKey !in st.facts ==> after.facts == st.facts)
      && (p.factKey in st.facts ==>
            after.facts == st.facts[p.factKey := Fact(st.facts[p.factKey].encValue, NewStrength(st.facts[p.factKey].strength, reply.correct),
                                                      t.now, st.facts[p.factKey].accessCount + 1)])
  {
  }

  /** Switched off, a turn says nothing and changes nothing. */
  lemma DisabledIsInert(env: Env, st: State, t: Turn)
    requires t.minInterval.None?
    ensures Intercept(env, st, t) == (st, Silent)
  {
  }
}
