/** What the single commands of the writer mean: who waits for an answer, what each command does to the
    tables, how a group and a job end, and how a round is cut into groups
    (liva-native-core/src/db_actor.rs 148-262, 264-620, 749-796, 842-883). */
module WriterCommands {
  import opened Wrappers
  import opened GraphTables
  import opened WriterSpec
  import opened WriterProofs

  // ---------------------------------------------------------------- who waits for an answer

  /** Read off the command's own fields: `ReinforceMemories` has no reply channel; a second, blocking
      channel exists on `Flush`, `InsertL3Node` and `InsertL3Edge` only. */
  ghost predicate WaitsOn(c: Command, ch: Channel) {
    || (c.reply == Some(ch) && !c.op.ReinforceMemories?)
    || (c.sync == Some(ch) && (c.op.Flush? || c.op.InsertL3Node? || c.op.InsertL3Edge?))
  }

  lemma ChannelsAreThose(c: Command, ch: Channel)
    ensures ch in Channels(c) <==> WaitsOn(c, ch)
  {
  }

  lemma {:induction false} ChannelInAll(cmds: seq<Command>, ch: Channel)
    ensures ch in AllChannels(cmds) <==> exists c :: c in cmds && WaitsOn(c, ch)
  {
    if cmds != [] {
      ChannelInAll(cmds[1..], ch);
      ChannelsAreThose(cmds[0], ch);
      assert forall c :: c in cmds <==> c == cmds[0] || c in cmds[1..];
    }
  }

  ghost predicate Answered(log: seq<Answer>, ch: Channel) {
    exists x :: x in log && x.channel == ch
  }

  lemma AnsweredIff(log: seq<Answer>, ch: Channel)
    ensures Answered(log, ch) <==> ch in multiset(ChannelsOf(log))
  {
    if Answered(log, ch) {
      var i :| 0 <= i < |log| && log[i].channel == ch;
      assert ChannelsOf(log)[i] == ch;
    }
    if ch in ChannelsOf(log) {
      var i :| 0 <= i < |ChannelsOf(log)| && ChannelsOf(log)[i] == ch;
      assert log[i] in log;
    }
  }

  /** In every run, whatever fails: whoever waits on a command the actor has taken is answered, and
      nobody else is. */
  lemma EveryWaiterIsAnswered(env: Env, db: Db, connected: bool, steps: seq<Step>, ch: Channel)
    requires EnvOk(env) && db.graph.ForeignKeys()
    ensures var w := Run(env, Start(env, db, connected), steps);
      Answered(w.log, ch) <==> exists c :: c in Processed(w.journal) && WaitsOn(c, ch)
  {
    var w := Run(env, Start(env, db, connected), steps);
    EveryChannelAnsweredOnce(env, db, connected, steps);
    AnsweredIff(w.log, ch);
    ChannelInAll(Processed(w.journal), ch);
    assert ch in multiset(AllChannels(Processed(w.journal))) <==> ch in AllChannels(Processed(w.journal));
  }

  lemma {:induction false} EntryInLog(journal: seq<Entry>, e: Entry, x: Answer)
    requires e in journal && x in e.answers
    ensures x in FlatAnswers(journal)
  {
    var n := |journal| - 1;
    if e != journal[n] { EntryInLog(journal[..n], e, x); }
  }

  lemma {:induction false} WaiterIsEarlyOrLate(cmds: seq<Command>, c: Command, ch: Channel)
    requires c in cmds && WaitsOn(c, ch)
    ensures if c.op.AppendSessionEvent? then ch in EarlyChannels(cmds) else ch in LateChannels(cmds)
  {
    ChannelsAreThose(cmds[0], ch);
    if c != cmds[0] { WaiterIsEarlyOrLate(cmds[1..], c, ch); }
  }

  /** The answer tells the outcome: a waiter of a committed entry has been sent Ok; a waiter of one
      that failed has been sent Err, unless a session event answers on the same channel. */
  lemma AnswerTellsOutcome(env: Env, db: Db, connected: bool, steps: seq<Step>, e: Entry, c: Command, ch: Channel)
    requires EnvOk(env) && db.graph.ForeignKeys()
    requires e in Run(env, Start(env, db, connected), steps).journal && c in e.cmds && WaitsOn(c, ch)
    ensures var log := Run(env, Start(env, db, connected), steps).log;
      && (e.committed ==> Answer(ch, true) in log)
      && (!e.committed && ch !in EarlyChannels(e.cmds) ==> Answer(ch, false) in log)
  {
    EveryRunRefines(env, db, connected, steps);
    var w := Run(env, Start(env, db, connected), steps);
    var x := AnswerOfEntry(e, c, ch);
    EntryInLog(w.journal, e, x);
    assert x == Answer(ch, x.ok);
  }

  lemma AnswerOfEntry(e: Entry, c: Command, ch: Channel) returns (x: Answer)
    requires EntryAnswered(e) && c in e.cmds && WaitsOn(c, ch)
    ensures x in e.answers && x.channel == ch
    ensures e.committed ==> x.ok
    ensures !e.committed && ch !in EarlyChannels(e.cmds) ==> !x.ok
  {
    if e.committed {
      x := Answer(ch, true);
      WaiterIsEarlyOrLate(e.cmds, c, ch);
      InAnswers(EarlyChannels(e.cmds), true);
      InAnswers(LateChannels(e.cmds), true);
    } else {
      ChannelInAll(e.cmds, ch);
      AnsweredIff(e.answers, ch);
      assert ch in multiset(AllChannels(e.cmds));
      x :| x in e.answers && x.channel == ch;
    }
  }

  /** At the barrier itself whoever waits on the `Flush` is told Ok, after everybody in front of it has
      been answered. */
  lemma FlushAnswersItsWaiters(env: Env, db: Db, connected: bool, steps: seq<Step>,
                               i: nat, a: seq<Command>, f: Command, b: seq<Command>)
    returns (n: nat)
    requires EnvOk(env) && db.graph.ForeignKeys()
    requires FlushEntry(Run(env, Start(env, db, connected), steps), i, a, f, b)
    ensures var w := Run(env, Start(env, db, connected), steps);
      && BarrierAt(w, i, a, f, n)
      && (forall ch :: WaitsOn(f, ch) ==> Answer(ch, true) in w.log[n..n + |Channels(f)|])
      && (forall c, ch :: c in Processed(w.journal[..i]) + a && WaitsOn(c, ch) ==> Answered(w.log[..n], ch))
  {
    n := FlushIsBarrier(env, db, connected, steps, i, a, f, b);
    var w := Run(env, Start(env, db, connected), steps);
    InAnswers(Channels(f), true);
    forall ch | WaitsOn(f, ch) ensures Answer(ch, true) in w.log[n..n + |Channels(f)|] { ChannelsAreThose(f, ch); }
    forall c, ch | c in Processed(w.journal[..i]) + a && WaitsOn(c, ch) ensures Answered(w.log[..n], ch) {
      ChannelInAll(Processed(w.journal[..i]) + a, ch);
      InSubset(AllChannels(Processed(w.journal[..i]) + a), ChannelsOf(w.log[..n]), ch);
      AnsweredIff(w.log[..n], ch);
    }
  }

  lemma InSubset(a: seq<Channel>, b: seq<Channel>, ch: Channel)
    requires multiset(a) <= multiset(b) && ch in a
    ensures ch in multiset(b)
  {
    assert ch in multiset(a);
  }

  // ---------------------------------------------------------------- what the commands do to the rows

  lemma ApplyOne(db: Db, s: Stmt)
    ensures ApplyAll(db, [s]) == Apply(db, s)
  {
    assert [s][1..] == [];
    if Apply(db, s).Some? { assert ApplyAll(Apply(db, s).value, []) == Apply(db, s); }
  }

  /** Graph and session log untouched. */
  ghost predicate OnlyRows(db: Db, after: Db) {
    after.graph == db.graph && after.sessionEvents == db.sessionEvents
  }

  ghost predicate FreshIds(db: Db, turns: seq<(string, string)>) {
    && (forall i :: 0 <= i < |turns| ==> ("events", turns[i].0) !in db.rows)
    && (forall i, j :: 0 <= i < j < |turns| ==> turns[i].0 != turns[j].0)
  }

  ghost predicate InTurns(turns: seq<(string, string)>, id: string) { exists t :: t in turns && t.0 == id }

  /** A batch of turns is stored if and only if its ids are new and distinct; then every turn has a
      pending event and its content, and no other row changes. */
  ghost predicate TurnsStored(db: Db, turns: seq<(string, string)>, after: Db) {
    && OnlyRows(db, after)
    && (forall t :: t in turns ==>
          && ("events", t.0) in after.rows && after.rows[("events", t.0)] == Row("pending", 0)
          && ("vectors_meta", t.0) in after.rows && after.rows[("vectors_meta", t.0)] == Row(t.1, 0))
    && (forall k: (string, string) :: !(k.0 in {"events", "vectors_meta"} && InTurns(turns, k.1)) ==>
          (k in after.rows <==> k in db.rows) && (k in db.rows ==> after.rows[k] == db.rows[k]))
  }

  lemma OneTurn(db: Db, t: (string, string), rest: seq<Stmt>)
    ensures ApplyAll(db, [Insert("events", t.0, "pending"), Replace("vectors_meta", t.0, t.1)] + rest)
         == if ("events", t.0) in db.rows then None
            else ApplyAll(db.(rows := db.rows[("events", t.0) := Row("pending", 0)][("vectors_meta", t.0) := Row(t.1, 0)]), rest)
  {
    var ss := [Insert("events", t.0, "pending"), Replace("vectors_meta", t.0, t.1)] + rest;
    assert ss[0] == Insert("events", t.0, "pending") && ss[1..][0] == Replace("vectors_meta", t.0, t.1) && ss[1..][1..] == rest;
    if ("events", t.0) !in db.rows {
      var mid := db.(rows := db.rows[("events", t.0) := Row("pending", 0)]);
      assert ApplyAll(db, ss) == ApplyAll(mid, ss[1..]);
      assert ApplyAll(mid, ss[1..]) == ApplyAll(mid.(rows := mid.rows[("vectors_meta", t.0) := Row(t.1, 0)]), rest);
    }
  }

  lemma {:induction false} TurnsEffect(db: Db, turns: seq<(string, string)>)
    ensures ApplyAll(db, TurnStmts(turns)).Some? <==> FreshIds(db, turns)
    ensures ApplyAll(db, TurnStmts(turns)).Some? ==> TurnsStored(db, turns, ApplyAll(db, TurnStmts(turns)).value)
    decreases |turns|
  {
    if turns != [] {
      var t, rest := turns[0], turns[1..];
      OneTurn(db, t, TurnStmts(rest));
      if ("events", t.0) !in db.rows {
        var mid := db.(rows := db.rows[("events", t.0) := Row("pending", 0)][("vectors_meta", t.0) := Row(t.1, 0)]);
        TurnsEffect(mid, rest);
        FreshTail(db, mid, t, turns);
        if FreshIds(mid, rest) { StoredTail(db, mid, turns, ApplyAll(mid, TurnStmts(rest)).value); }
      }
    }
  }

  lemma FreshTail(db: Db, mid: Db, t: (string, string), turns: seq<(string, string)>)
    requires turns != [] && t == turns[0] && ("events", t.0) !in db.rows
    requires mid.rows == db.rows[("events", t.0) := Row("pending", 0)][("vectors_meta", t.0) := Row(t.1, 0)]
    ensures FreshIds(db, turns) <==> FreshIds(mid, turns[1..])
  {
    var rest := turns[1..];
    assert forall i :: 0 <= i < |rest| ==> rest[i] == turns[i + 1];
    if FreshIds(mid, rest) {
      forall i | 0 <= i < |turns| ensures ("events", turns[i].0) !in db.rows {
        if i > 0 { assert ("events", rest[i - 1].0) !in mid.rows; }
      }
      forall i, j | 0 <= i < j < |turns| ensures turns[i].0 != turns[j].0 {
        assert ("events", rest[j - 1].0) !in mid.rows;
        if i > 0 { assert rest[i - 1].0 != rest[j - 1].0; }
      }
    }
  }

  lemma StoredTail(db: Db, mid: Db, turns: seq<(string, string)>, after: Db)
    requires turns != [] && FreshIds(db, turns) && OnlyRows(db, mid) && TurnsStored(mid, turns[1..], after)
    requires var t := turns[0];
      mid.rows == db.rows[("events", t.0) := Row("pending", 0)][("vectors_meta", t.0) := Row(t.1, 0)]
    ensures TurnsStored(db, turns, after)
  {
    var t, rest := turns[0], turns[1..];
    assert forall x :: x in turns <==> x == t || x in rest;
    forall x | x in rest ensures x.0 != t.0 {
      var i :| 0 <= i < |rest| && rest[i] == x;
      assert turns[i + 1] == x;
    }
    assert !InTurns(rest, t.0);
    forall id ensures InTurns(turns, id) <==> id == t.0 || InTurns(rest, id) {
      if InTurns(turns, id) { var x :| x in turns && x.0 == id; }
      if id == t.0 { assert t in turns; }
      if InTurns(rest, id) { var x :| x in rest && x.0 == id; assert x in turns; }
    }
  }

  /** Reinforcing memories touches each listed, known id once per mention and nothing else; unknown ids
      are no error. */
  ghost predicate Bumped(db: Db, table: string, ids: seq<string>, value: string, after: Db) {
    && OnlyRows(db, after) && after.rows.Keys == db.rows.Keys
    && forall k :: k in db.rows ==>
         after.rows[k] == if k.0 == table && k.1 in ids then Row(value, db.rows[k].count + multiset(ids)[k.1]) else db.rows[k]
  }

  function Bumps(table: string, ids: seq<string>, value: string): seq<Stmt> {
    seq(|ids|, i requires 0 <= i < |ids| => Bump(table, ids[i], value))
  }

  lemma {:induction false} BumpsEffect(db: Db, table: string, ids: seq<string>, value: string)
    ensures ApplyAll(db, Bumps(table, ids, value)).Some?
    ensures Bumped(db, table, ids, value, ApplyAll(db, Bumps(table, ids, value)).value)
    decreases |ids|
  {
    if ids != [] {
      var ss := Bumps(table, ids, value);
      assert ss[0] == Bump(table, ids[0], value) && ss[1..] == Bumps(table, ids[1..], value);
      var mid := Apply(db, ss[0]).value;
      BumpsEffect(mid, table, ids[1..], value);
      assert ids == [ids[0]] + ids[1..];
      BumpHead(db, mid, table, ids, value, ApplyAll(mid, ss[1..]).value);
    }
  }

  lemma BumpHead(db: Db, mid: Db, table: string, ids: seq<string>, value: string, after: Db)
    requires ids != [] && Apply(db, Bump(table, ids[0], value)) == Some(mid) && Bumped(mid, table, ids[1..], value, after)
    ensures Bumped(db, table, ids, value, after)
  {
    assert multiset(ids) == multiset{ids[0]} + multiset(ids[1..]) by { assert ids == [ids[0]] + ids[1..]; }
    forall k | k in db.rows
      ensures after.rows[k] == if k.0 == table && k.1 in ids then Row(value, db.rows[k].count + multiset(ids)[k.1]) else db.rows[k]
    {
      assert k.1 in ids <==> k.1 == ids[0] || k.1 in ids[1..];
      assert k.1 in ids[1..] <==> multiset(ids[1..])[k.1] > 0;
    }
  }

  /** What each command outside the graph does to the tables when its statements run: turns are stored
      if and only if their ids are new ... */
  lemma TurnCommandEffects(db: Db, id: string, text: string, turns: seq<(string, string)>)
    ensures ApplyAll(db, Statements(PersistTurn(id, text))).Some? <==> ("events", id) !in db.rows
    ensures var r := ApplyAll(db, Statements(PersistTurn(id, text))); r.Some? ==> TurnsStored(db, [(id, text)], r.value)
    ensures var r := ApplyAll(db, Statements(PersistTurnsBatch(turns)));
      (r.Some? <==> FreshIds(db, turns)) && (r.Some? ==> TurnsStored(db, turns, r.value))
  {
    TurnsEffect(db, turns);
    OneTurnEffect(db, id, text);
  }

  /** ... statistics move on known rows only ... */
  lemma BumpCommandEffects(db: Db, id: string, text: string, ids: seq<string>)
    ensures var r := ApplyAll(db, Statements(ReinforceMemories(ids, text))); r.Some? && Bumped(db, "vectors_meta", ids, text, r.value)
    ensures var r := ApplyAll(db, Statements(UpdateFactRecallStats(id, text))); r.Some? && Bumped(db, "facts", [id], text, r.value)
    ensures var r := ApplyAll(db, Statements(TouchFactAccess(id, text))); r.Some? && Bumped(db, "facts", [id], text, r.value)
  {
    assert Statements(ReinforceMemories(ids, text)) == Bumps("vectors_meta", ids, text);
    BumpsEffect(db, "vectors_meta", ids, text);
    assert Statements(UpdateFactRecallStats(id, text)) == Bumps("facts", [id], text);
    assert Statements(TouchFactAccess(id, text)) == Bumps("facts", [id], text);
    BumpsEffect(db, "facts", [id], text);
  }

  /** ... and the others write one row, append one event, or do nothing. */
  lemma OtherCommandEffects(db: Db, id: string, text: string)
    ensures ApplyAll(db, Statements(SaveAgentCheckpoint(id, text)))
         == Some(db.(rows := db.rows[("agent_checkpoints", id) := Row(text, 0)]))
    ensures ApplyAll(db, Statements(AppendSessionEvent(text))) == Some(db.(sessionEvents := db.sessionEvents + [text]))
    ensures ApplyAll(db, Statements(Flush)) == Some(db)
  {
    ApplyOne(db, Replace("agent_checkpoints", id, text));
    ApplyOne(db, AppendEvent(text));
  }

  lemma OneTurnEffect(db: Db, id: string, text: string)
    ensures ApplyAll(db, Statements(PersistTurn(id, text))).Some? <==> ("events", id) !in db.rows
    ensures var r := ApplyAll(db, Statements(PersistTurn(id, text))); r.Some? ==> TurnsStored(db, [(id, text)], r.value)
  {
    TurnsEffect(db, [(id, text)]);
    assert [(id, text)][0].0 == id;
  }

  /** ... and inside it: an edge needs both of its ends, and is then live with its weight. */
  lemma GraphCommandEffects(db: Db, id: string, name: string, k: EdgeKey, weight: real)
    ensures ApplyAll(db, Statements(InsertL3Node(id, name)))
         == Some(db.(graph := Tables(db.graph.nodes[id := name], db.graph.edges)))
    ensures ApplyAll(db, Statements(InsertL3Edge(k, weight)))
         == if k.source in db.graph.nodes && k.target in db.graph.nodes
            then Some(db.(graph := Tables(db.graph.nodes, db.graph.edges[k := EdgeRow(weight, false)])))
            else None
  {
    ApplyOne(db, Node(id, name));
    ApplyOne(db, Edge(k, weight));
  }

  // ---------------------------------------------------------------- how a group ends

  function StatementCount(cmds: seq<Command>): nat {
    if cmds == [] then 0 else |Statements(cmds[0].op)| + StatementCount(cmds[1..])
  }

  lemma {:induction false} StatementTicks(env: Env, db: Db, tick: nat, ss: seq<Stmt>)
    ensures var r := RunStmts(env, db, tick, ss);
      && (r.ok ==> r.tick == tick + |ss|)
      && (r.ok <==> ApplyAll(db, ss).Some? && Quiet(env, tick, tick + |ss|))
    decreases |ss|
  {
    if ss != [] && !env.fails(tick) && Apply(db, ss[0]).Some? {
      StatementTicks(env, Apply(db, ss[0]).value, tick + 1, ss[1..]);
    }
  }

  /** The first `k` commands go through when their statements start at `tick`: one by one they violate
      no constraint, and none of their statements' ticks fails. */
  ghost predicate GoThrough(env: Env, db: Db, tick: nat, cmds: seq<Command>, k: nat, g: Graph)
    requires k <= |cmds|
  {
    Serial(env, Snap(db, g), cmds[..k]).Some? && Quiet(env, tick, tick + StatementCount(cmds[..k]))
  }

  lemma GoThroughHead(env: Env, db: Db, tick: nat, cmds: seq<Command>, k: nat, g: Graph)
    requires 0 < k <= |cmds| && !Standalone(cmds[0].op)
    ensures var ss := Statements(cmds[0].op);
      GoThrough(env, db, tick, cmds, k, g) <==>
        && ApplyAll(db, ss).Some? && Quiet(env, tick, tick + |ss|)
        && GoThrough(env, ApplyAll(db, ss).value, tick + |ss|, cmds[1..], k - 1, Mutate(g, cmds[0].op))
  {
    assert cmds[..k][1..] == cmds[1..][..k - 1];
  }

  /** The operation loop gets past exactly the commands that go through. */
  lemma {:induction false} LoopGoesThrough(env: Env, db: Db, tick: nat, cmds: seq<Command>, k: nat, g: Graph)
    requires AllTransactional(cmds) && k <= |cmds|
    ensures var r := RunOps(env, db, tick, cmds);
      && (r.done >= k <==> GoThrough(env, db, tick, cmds, k, g))
      && (r.done == |cmds| ==> r.tick == tick + StatementCount(cmds))
    decreases |cmds|
  {
    if cmds != [] {
      var ss := Statements(cmds[0].op);
      assert !Standalone(cmds[0].op);
      StatementTicks(env, db, tick, ss);
      RunStmtsMeansApply(env, db, tick, ss);
      var first := RunStmts(env, db, tick, ss);
      if k > 0 { GoThroughHead(env, db, tick, cmds, k, g); }
      if first.ok {
        assert forall i :: 0 <= i < |cmds[1..]| ==> cmds[1..][i] == cmds[i + 1];
        LoopGoesThrough(env, first.db, first.tick, cmds[1..], if k > 0 then k - 1 else 0, Mutate(g, cmds[0].op));
      }
    }
  }

  /** Exactly how a group ends: BEGIN takes one tick, every statement one, COMMIT one; the first that
      fails, or the first violated constraint, decides. */
  lemma OutcomeIs(env: Env, db: Db, tick: nat, cmds: seq<Command>, g: Graph)
    requires AllTransactional(cmds)
    ensures var (o, end) := Transact(env, db, tick, cmds); var last := tick + 1 + StatementCount(cmds);
      && (o.BeginFailed? <==> env.fails(tick))
      && (o.CommitFailed? <==> !env.fails(tick) && GoThrough(env, db, tick + 1, cmds, |cmds|, g) && env.fails(last))
      && (o.Done? <==> !env.fails(tick) && GoThrough(env, db, tick + 1, cmds, |cmds|, g) && !env.fails(last))
      && (o.Done? || o.CommitFailed? ==> end == last + 1)
  {
    var through := GoThrough(env, db, tick + 1, cmds, |cmds|, g);
    LoopGoesThrough(env, db, tick + 1, cmds, |cmds|, g);
    TransactCases(env, db, tick, cmds, through, StatementCount(cmds));
  }

  lemma TransactCases(env: Env, db: Db, tick: nat, cmds: seq<Command>, through: bool, count: nat)
    requires var r := RunOps(env, db, tick + 1, cmds);
      (r.done == |cmds| <==> through) && (through ==> r.tick == tick + 1 + count)
    ensures var (o, end) := Transact(env, db, tick, cmds); var last := tick + 1 + count;
      && (o.BeginFailed? <==> env.fails(tick))
      && (o.CommitFailed? <==> !env.fails(tick) && through && env.fails(last))
      && (o.Done? <==> !env.fails(tick) && through && !env.fails(last))
      && (o.Done? || o.CommitFailed? ==> end == last + 1)
  {
  }

  /** ... and command `k` is the one that fails exactly when those before it go through and it does not. */
  lemma FailsAtIff(env: Env, db: Db, tick: nat, cmds: seq<Command>, g: Graph, k: nat)
    requires AllTransactional(cmds) && k < |cmds|
    ensures Transact(env, db, tick, cmds).0 == OpFailed(k) <==>
      !env.fails(tick) && GoThrough(env, db, tick + 1, cmds, k, g) && !GoThrough(env, db, tick + 1, cmds, k + 1, g)
  {
    var before, past := GoThrough(env, db, tick + 1, cmds, k, g), GoThrough(env, db, tick + 1, cmds, k + 1, g);
    LoopGoesThrough(env, db, tick + 1, cmds, k, g);
    LoopGoesThrough(env, db, tick + 1, cmds, k + 1, g);
    FailingCommand(env, db, tick, cmds, k, before, past);
  }

  lemma FailingCommand(env: Env, db: Db, tick: nat, cmds: seq<Command>, k: nat, before: bool, past: bool)
    requires k < |cmds|
    requires var r := RunOps(env, db, tick + 1, cmds); (r.done >= k <==> before) && (r.done >= k + 1 <==> past)
    ensures Transact(env, db, tick, cmds).0 == OpFailed(k) <==> !env.fails(tick) && before && !past
  {
  }

  // ---------------------------------------------------------------- how a job ends

  /** A job succeeds exactly when its own BEGIN, statements and COMMIT do, and has then written what it
      was given; otherwise nothing has changed. */
  lemma JobSucceedsIff(env: Env, w: World, job: Job)
    ensures var (after, ok) := RunJob(env, w, job); var end := w.tick + 2 + |JobStmts(job)|;
      && (ok <==> Quiet(env, w.tick, end))
      && (!ok ==> (after.db, after.cell, after.stale) == (w.db, w.cell, w.stale))
      && (ok ==> ApplyAll(w.db, JobStmts(job)).Some?
                 && after == Rebuild(env, w.(db := ApplyAll(w.db, JobStmts(job)).value, tick := end), job))
  {
    JobStmtsMeanSerial(env, Snap(w.db, w.cell.cached.graph), job);
    StatementTicks(env, w.db, w.tick + 1, JobStmts(job));
    RunStmtsMeansApply(env, w.db, w.tick + 1, JobStmts(job));
    QuietSplit(env, w.tick, w.tick + 1 + |JobStmts(job)|);
    JobCases(env, w, job);
  }

  /** A projection batch that extracted triples commits exactly those; the graph is then rebuilt from the
      tables, or goes stale exactly when the rebuild itself fails. */
  lemma ProjectionRebuilds(env: Env, w: World, triples: seq<Triple>)
    requires triples != [] && RunJob(env, w, Project(triples)).1
    ensures var after := RunJob(env, w, Project(triples)).0; var rebuild := w.tick + 2 + |JobStmts(Project(triples))|;
      && after.db == w.db.(graph := w.db.graph.InsertTriples(triples))
      && after.stale == env.fails(rebuild)
      && (if env.fails(rebuild) then after.cell == w.cell
          else after.cell.cached.graph == FromTables(after.db.graph, env.rowOrder(after.db.graph)))
  {
    JobSucceedsIff(env, w, Project(triples));
    TriplesStmtsInsert(w.db, triples);
  }

  /** Any other job leaves the published graph alone. */
  lemma StoreWritesOneRow(env: Env, w: World, job: Job)
    requires (job.Store? || job.triples == []) && RunJob(env, w, job).1
    ensures var after := RunJob(env, w, job).0;
      && (after.cell, after.stale) == (w.cell, w.stale)
      && after.db == if job.Store? then w.db.(rows := w.db.rows[(job.table, job.key) := Row(job.value, 0)]) else w.db
  {
    JobSucceedsIff(env, w, job);
    if job.Store? { ApplyOne(w.db, Replace(job.table, job.key, job.value)); }
  }

  /** A standalone command is one entry: a checkpoint changes nothing and succeeds when its one tick
      does, a job when the job does. */
  lemma StandaloneOutcome(env: Env, w: World, c: Command)
    requires c.op.CheckpointWal? || c.op.Execute?
    ensures var after := Alone(env, w, c);
      && |after.journal| == |w.journal| + 1 && after.journal[|w.journal|].cmds == [c]
      && (c.op.CheckpointWal? ==> after.journal[|w.journal|].committed == !env.fails(w.tick)
                                  && (after.db, after.cell, after.stale) == (w.db, w.cell, w.stale))
      && (c.op.Execute? ==> after.journal[|w.journal|].committed == RunJob(env, w, c.op.job).1
                            && after.db == RunJob(env, w, c.op.job).0.db)
  {
    if c.op.Execute? { JobCases(env, w, c.op.job); }
  }

  lemma QuietSplit(env: Env, from: nat, to: nat)
    requires from < to
    ensures Quiet(env, from, to + 1) <==> !env.fails(from) && Quiet(env, from + 1, to) && !env.fails(to)
  {
  }

  // ---------------------------------------------------------------- how a round is cut

  /** Commands with no standalone one among them form one group ... */
  lemma {:induction false} OneGroup(env: Env, w: World, pending: seq<Command>, cmds: seq<Command>)
    requires forall i :: 0 <= i < |cmds| ==> !cmds[i].op.CheckpointWal? && !cmds[i].op.Execute?
    ensures Batch(env, w, pending, cmds) == GroupIfAny(env, w, pending + cmds)
    decreases |cmds|
  {
    if cmds == [] {
      assert pending + cmds == pending;
    } else {
      assert pending + cmds == (pending + [cmds[0]]) + cmds[1..];
      assert forall i :: 0 <= i < |cmds[1..]| ==> cmds[1..][i] == cmds[i + 1];
      OneGroup(env, w, pending + [cmds[0]], cmds[1..]);
    }
  }

  /** ... and a standalone command ends the group in front of it, runs alone, and starts a new one. */
  lemma {:induction false} GroupsAroundStandalone(env: Env, w: World, pending: seq<Command>, a: seq<Command>, c: Command, b: seq<Command>)
    requires c.op.CheckpointWal? || c.op.Execute?
    requires forall i :: 0 <= i < |a| ==> !a[i].op.CheckpointWal? && !a[i].op.Execute?
    ensures Batch(env, w, pending, a + [c] + b) == Batch(env, Alone(env, GroupIfAny(env, w, pending + a), c), [], b)
    decreases |a|
  {
    var batch := a + [c] + b;
    if a == [] {
      assert batch[0] == c && batch[1..] == b && pending + a == pending;
    } else {
      assert batch[0] == a[0] && batch[1..] == a[1..] + [c] + b;
      assert pending + a == (pending + [a[0]]) + a[1..];
      assert forall i :: 0 <= i < |a[1..]| ==> a[1..][i] == a[i + 1];
      GroupsAroundStandalone(env, w, pending + [a[0]], a[1..], c, b);
    }
  }

  /** A round with a connection processes exactly the commands it cuts off; one that cannot get a
      connection rejects everything waiting and touches nothing else. */
  lemma RoundProcesses(env: Env, w: World, visible: nat)
    requires w.queue != []
    ensures var after := Round(env, w, visible); var n := Cut(w.queue, visible, 1);
      if w.connected || !env.fails(w.tick) then
        && after.queue == w.queue[n..] && Processed(after.journal) == Processed(w.journal) + w.queue[..n] && after.connected
      else
        && after.queue == w.queue[Min(|w.queue|, if visible == 0 then 1 else visible)..]
        && (after.db, after.cell, after.connected) == (w.db, w.cell, w.connected)
        && |after.journal| == |w.journal| + 1 && !after.journal[|w.journal|].committed
        && forall x :: x in after.journal[|w.journal|].answers ==> !x.ok
  {
    if w.connected || !env.fails(w.tick) {
      var n := Cut(w.queue, visible, 1);
      BatchTakes(env, Dequeued(w, n), [], w.queue[..n]);
      assert [] + w.queue[..n] == w.queue[..n];
      StaysConnected(env, Dequeued(w, n), [], w.queue[..n]);
    } else {
      var n := Min(|w.queue|, if visible == 0 then 1 else visible);
      InAnswers(AllChannels(w.queue[..n]), false);
    }
  }

  lemma {:induction false} StaysConnected(env: Env, w: World, pending: seq<Command>, batch: seq<Command>)
    ensures Batch(env, w, pending, batch).connected == w.connected
    decreases |batch|
  {
    GroupStaysConnected(env, w, pending);
    if batch != [] {
      if Standalone(batch[0].op) {
        var mid := GroupIfAny(env, w, pending);
        if batch[0].op.Execute? { JobCases(env, mid, batch[0].op.job); }
        StaysConnected(env, Alone(env, mid, batch[0]), [], batch[1..]);
      } else {
        StaysConnected(env, w, pending + [batch[0]], batch[1..]);
      }
    }
  }

  lemma GroupStaysConnected(env: Env, w: World, pending: seq<Command>)
    ensures GroupIfAny(env, w, pending).connected == w.connected
  {
  }
}
