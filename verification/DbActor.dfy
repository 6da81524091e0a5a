/** The writer thread itself (liva-native-core/src/db_actor.rs 254-883): it drains a queue into
    batches, runs each group in a transaction with rollback, answers reply channels one by one and
    publishes a new graph snapshot after COMMIT.  Every method is proved equal to its specification
    function in `WriterSpec`. */
module DbActor {
  import opened Wrappers
  import opened GraphTables
  import opened WriterSpec
  import WriterProofs

  /** The mutations kept by the operation loop, replayed in order. */
  function Kept(cmds: seq<Command>): seq<Command> {
    if cmds == [] then []
    else Kept(cmds[..|cmds| - 1]) + (if Mutates(cmds[|cmds| - 1].op) then [cmds[|cmds| - 1]] else [])
  }

  lemma {:induction false} MutateAllConcat(g: Graph, a: seq<Command>, b: seq<Command>)
    ensures MutateAll(g, a + b) == MutateAll(MutateAll(g, a), b)
    decreases |a|
  {
    if a == [] {
      assert a + b == b;
    } else {
      assert (a + b)[1..] == a[1..] + b;
      MutateAllConcat(Mutate(g, a[0].op), a[1..], b);
    }
  }

  lemma {:induction false} KeptIsEnough(g: Graph, cmds: seq<Command>)
    ensures MutateAll(g, Kept(cmds)) == MutateAll(g, cmds)
    ensures Kept(cmds) != [] <==> AnyMutation(cmds)
  {
    if cmds != [] {
      var n := |cmds| - 1;
      var last := if Mutates(cmds[n].op) then [cmds[n]] else [];
      KeptIsEnough(g, cmds[..n]);
      MutateAllConcat(g, Kept(cmds[..n]), last);
      MutateAllConcat(g, cmds[..n], [cmds[n]]);
      assert cmds == cmds[..n] + [cmds[n]];
      assert [cmds[n]][1..] == [];
      if AnyMutation(cmds) && !Mutates(cmds[n].op) {
        var i :| 0 <= i < |cmds| && Mutates(cmds[i].op);
        assert cmds[..n][i] == cmds[i];
      }
      if AnyMutation(cmds[..n]) {
        var i :| 0 <= i < n && Mutates(cmds[..n][i].op);
        assert cmds[i] == cmds[..n][i];
      }
    }
  }

  lemma {:induction false} RunOpsStep(env: Env, db: Db, tick: nat, cmds: seq<Command>, i: nat, now: OpsRun)
    requires i < |cmds|
    requires RunOps(env, db, tick, cmds) == Shift(RunOps(env, now.db, now.tick, cmds[i..]), i)
    ensures var first := RunStmts(env, now.db, now.tick, Statements(cmds[i].op));
      if first.ok then RunOps(env, db, tick, cmds) == Shift(RunOps(env, first.db, first.tick, cmds[i + 1..]), i + 1)
      else RunOps(env, db, tick, cmds) == OpsRun(first.db, first.tick, i)
  {
    assert cmds[i..][0] == cmds[i] && cmds[i..][1..] == cmds[i + 1..];
  }

  function Shift(r: OpsRun, i: nat): OpsRun { r.(done := r.done + i) }

  lemma OneMore(cmds: seq<Command>, i: nat)
    requires i < |cmds|
    ensures cmds[..i + 1] == cmds[..i] + [cmds[i]]
    ensures Kept(cmds[..i + 1]) == Kept(cmds[..i]) + (if Mutates(cmds[i].op) then [cmds[i]] else [])
    ensures EarlyChannels(cmds[..i + 1]) == EarlyChannels(cmds[..i]) + EarlyChannels([cmds[i]])
    ensures LateChannels(cmds[..i + 1]) == LateChannels(cmds[..i]) + LateChannels([cmds[i]])
  {
    assert cmds[..i + 1] == cmds[..i] + [cmds[i]];
    assert cmds[..i + 1][..i] == cmds[..i];
    WriterProofs.LateConcat(cmds[..i], [cmds[i]]);
  }

  lemma OneEarlyOrLate(c: Command)
    ensures EarlyChannels([c]) == if c.op.AppendSessionEvent? then Channels(c) else []
    ensures LateChannels([c]) == if c.op.AppendSessionEvent? then [] else Channels(c)
  {
    var rest := [c][1..];
    assert rest == [] && EarlyChannels(rest) == [] && LateChannels(rest) == [];
    assert Channels(c) + [] == Channels(c);
  }

  lemma Chain<T>(before: seq<T>, a: seq<T>, b: seq<T>, c: seq<T>, d: seq<T>)
    ensures before + a + b + c + d == before + (a + b + c + d)
  {
  }

  /** The log of an operation loop after one more success. */
  lemma LogOneMore(before: seq<Answer>, now: seq<Answer>, cmds: seq<Command>, i: nat)
    requires i < |cmds|
    requires now == before + Answers(EarlyChannels(cmds[..i]), true)
    ensures now + Answers(EarlyChannels([cmds[i]]), true) == before + Answers(EarlyChannels(cmds[..i + 1]), true)
  {
    OneMore(cmds, i);
    WriterProofs.AnswersConcat(EarlyChannels(cmds[..i]), EarlyChannels([cmds[i]]), true);
  }

  lemma AllChannelsPrefix(cmds: seq<Command>, i: nat)
    requires i < |cmds|
    ensures AllChannels(cmds[..i + 1]) == AllChannels(cmds[..i]) + Channels(cmds[i])
  {
    var one := [cmds[i]];
    assert cmds[..i + 1] == cmds[..i] + one;
    WriterProofs.AllChannelsConcat(cmds[..i], one);
    assert one[1..] == [] && AllChannels(one[1..]) == [];
    assert AllChannels(one) == Channels(cmds[i]) + [];
  }

  lemma LogRejectMore(before: seq<Answer>, now: seq<Answer>, cmds: seq<Command>, i: nat)
    requires i < |cmds| && now == before + Answers(AllChannels(cmds[..i]), false)
    ensures now + Answers(Channels(cmds[i]), false) == before + Answers(AllChannels(cmds[..i + 1]), false)
  {
    AllChannelsPrefix(cmds, i);
    WriterProofs.AnswersConcat(AllChannels(cmds[..i]), Channels(cmds[i]), false);
  }

  lemma LogCommitted(before: seq<Answer>, now: seq<Answer>, cmds: seq<Command>, committed: bool, outcome: Outcome)
    requires now == before + Answers(EarlyChannels(cmds), true)
    requires if committed then outcome.Done? else outcome.CommitFailed?
    ensures now + Answers(LateChannels(cmds), committed) == before + GroupAnswers(cmds, outcome)
  {
  }

  class Actor {
    const env: Env

    var queue: seq<Command>
    var connected: bool
    var db: Db
    var tick: nat
    var builder: Cached
    var cell: Slot
    var lastStored: nat
    var nextArc: nat
    var log: seq<Answer>

    ghost var journal: seq<Entry>
    ghost var stale: bool

    ghost function World(): World
      reads this
    {
      WriterSpec.World(queue, connected, db, tick, builder, cell, lastStored, nextArc, log, journal, stale)
    }

    constructor (env: Env, db: Db, connected: bool)
      ensures World() == Start(env, db, connected) && this.env == env
    {
      var graph := FromTables(db.graph, env.rowOrder(db.graph));
      this.env := env;
      this.db, this.connected, this.tick, this.queue := db, connected, 0, [];
      builder, cell := Cached(graph, true), Slot(0, Cached(graph, true));
      lastStored, nextArc, log := 1, 2, [];
      journal, stale := [], false;
    }

    method Enqueue(c: Command)
      modifies this`queue
      ensures queue == old(queue) + [c]
    {
      queue := queue + [c];
    }

    /** Sends one result on every channel of a notification. */
    method Respond(channels: seq<Channel>, ok: bool)
      modifies this`log
      ensures log == old(log) + Answers(channels, ok)
    {
      for i := 0 to |channels|
        invariant log == old(log) + Answers(channels[..i], ok)
      {
        log := log + [Answer(channels[i], ok)];
        assert Answers(channels[..i + 1], ok) == Answers(channels[..i], ok) + [Answer(channels[i], ok)];
      }
      assert channels[..|channels|] == channels;
    }

    /** `reject_command` on every command not yet tried. */
    method RejectAll(cmds: seq<Command>)
      modifies this`log
      ensures log == old(log) + Answers(AllChannels(cmds), false)
    {
      for i := 0 to |cmds|
        invariant log == old(log) + Answers(AllChannels(cmds[..i]), false)
      {
        LogRejectMore(old(log), log, cmds, i);
        Respond(Channels(cmds[i]), false);
      }
      assert cmds[..|cmds|] == cmds;
    }

    method RunStatements(ss: seq<Stmt>) returns (ok: bool)
      modifies this`db, this`tick
      ensures StmtsRun(db, tick, ok) == RunStmts(env, old(db), old(tick), ss)
    {
      var i := 0;
      while i < |ss|
        invariant 0 <= i <= |ss|
        invariant RunStmts(env, old(db), old(tick), ss) == RunStmts(env, db, tick, ss[i..])
      {
        assert ss[i..][0] == ss[i] && ss[i..][1..] == ss[i + 1..];
        var next := Apply(db, ss[i]);
        tick := tick + 1;
        if env.fails(tick - 1) || next.None? { return false; }
        db := next.value;
        i := i + 1;
      }
      ok := true;
    }

    /** `execute_write_operation` inside a transaction.  `AppendSessionEvent` answers at once; every
        other command hands its channels back as a pending notification. */
    method ExecuteWriteOperation(c: Command) returns (pending: seq<Channel>, ok: bool)
      modifies this`db, this`tick, this`log
      ensures StmtsRun(db, tick, ok) == RunStmts(env, old(db), old(tick), Statements(c.op))
      ensures c.op.AppendSessionEvent? ==> pending == [] && log == old(log) + Answers(Channels(c), ok)
      ensures !c.op.AppendSessionEvent? ==> pending == Channels(c) && log == old(log)
    {
      ok := RunStatements(Statements(c.op));
      if c.op.AppendSessionEvent? {
        Respond(Channels(c), ok);
        pending := [];
      } else {
        pending := Channels(c);
      }
    }

    /** After COMMIT: re-synchronise by pointer, replay the mutations, publish a read snapshot. */
    method PublishMutations(mutations: seq<Command>, ghost cmds: seq<Command>)
      requires mutations == Kept(cmds)
      modifies this`builder, this`cell, this`lastStored, this`nextArc
      ensures World() == Publish(old(World()), cmds)
    {
      KeptIsEnough(Base(World()).graph, cmds);
      if mutations == [] { return; }
      if lastStored != cell.arc { builder := cell.cached; }
      var graph := builder.graph;
      for i := 0 to |mutations|
        invariant MutateAll(graph, mutations[i..]) == MutateAll(builder.graph, mutations)
      {
        assert mutations[i..][0] == mutations[i] && mutations[i..][1..] == mutations[i + 1..];
        graph := Mutate(graph, mutations[i].op);
      }
      builder := Cached(graph, true);
      cell := Slot(nextArc, Cached(graph, false));
      lastStored := nextArc;
      nextArc := nextArc + 1;
    }

    /** One turn of the operation loop. */
    method RunOperation(cmds: seq<Command>, i: nat, before: seq<Channel>, kept: seq<Command>)
      returns (ok: bool, failed: seq<Channel>, pending: seq<Channel>, mutations: seq<Command>)
      requires i < |cmds| && before == LateChannels(cmds[..i]) && kept == Kept(cmds[..i])
      modifies this`db, this`tick, this`log
      ensures StmtsRun(db, tick, ok) == RunStmts(env, old(db), old(tick), Statements(cmds[i].op))
      ensures ok ==> pending == LateChannels(cmds[..i + 1]) && mutations == Kept(cmds[..i + 1])
                     && log == old(log) + Answers(EarlyChannels([cmds[i]]), true)
      ensures !ok ==> pending == before && mutations == kept
                      && log + Answers(failed, false) == old(log) + Answers(Channels(cmds[i]), false)
    {
      var c := cmds[i];
      OneMore(cmds, i);
      OneEarlyOrLate(c);
      assert Answers([], true) == [] && Answers([], false) == [];
      pending, mutations := before, kept;
      failed, ok := ExecuteWriteOperation(c);
      if ok {
        pending := pending + failed;
        if Mutates(c.op) { mutations := mutations + [c]; }
      }
    }

    /** The operation loop of a transaction: stops at the first failure. */
    method RunOperations(cmds: seq<Command>) returns (done: nat, failed: seq<Channel>, pending: seq<Channel>, mutations: seq<Command>)
      modifies this`db, this`tick, this`log
      ensures done <= |cmds| && OpsRun(db, tick, done) == RunOps(env, old(db), old(tick), cmds)
      ensures pending == LateChannels(cmds[..done]) && mutations == Kept(cmds[..done])
      ensures done == |cmds| ==> log == old(log) + Answers(EarlyChannels(cmds), true)
      ensures done < |cmds| ==>
        log + Answers(failed, false) == old(log) + Answers(EarlyChannels(cmds[..done]), true) + Answers(Channels(cmds[done]), false)
    {
      pending, mutations, failed, done := [], [], [], 0;
      assert cmds[0..] == cmds;
      while done < |cmds|
        invariant done <= |cmds|
        invariant RunOps(env, old(db), old(tick), cmds) == Shift(RunOps(env, db, tick, cmds[done..]), done)
        invariant pending == LateChannels(cmds[..done]) && mutations == Kept(cmds[..done])
        invariant log == old(log) + Answers(EarlyChannels(cmds[..done]), true)
      {
        RunOpsStep(env, old(db), old(tick), cmds, done, OpsRun(db, tick, 0));
        LogOneMore(old(log), log, cmds, done);
        var ok;
        ok, failed, pending, mutations := RunOperation(cmds, done, pending, mutations);
        if !ok { return; }
        done := done + 1;
      }
      assert cmds[..done] == cmds;
    }

    /** The answers after a failing operation: its own channels, the pending ones, the untried. */
    method AnswerFailure(cmds: seq<Command>, done: nat, failed: seq<Channel>, pending: seq<Channel>, ghost before: seq<Answer>)
      requires done < |cmds| && pending == LateChannels(cmds[..done])
      requires log + Answers(failed, false)
        == before + Answers(EarlyChannels(cmds[..done]), true) + Answers(Channels(cmds[done]), false)
      modifies this`log
      ensures log == before + GroupAnswers(cmds, OpFailed(done))
    {
      ghost var early := Answers(EarlyChannels(cmds[..done]), true);
      ghost var own := Answers(Channels(cmds[done]), false);
      Respond(failed, false);
      Chain(before, early, own, Answers(pending, false), Answers(AllChannels(cmds[done + 1..]), false));
      Respond(pending, false);
      RejectAll(cmds[done + 1..]);
    }

    /** BEGIN, the operations, COMMIT; any failure restores the saved tables and is answered. */
    method RunTransaction(cmds: seq<Command>) returns (committed: bool, pending: seq<Channel>, mutations: seq<Command>, ghost outcome: Outcome)
      modifies this`db, this`tick, this`log
      ensures (outcome, tick) == Transact(env, old(db), old(tick), cmds) && committed == outcome.Done?
      ensures db == if outcome.Done? then outcome.db else old(db)
      ensures log + Answers(pending, committed) == old(log) + GroupAnswers(cmds, outcome)
      ensures committed ==> mutations == Kept(cmds)
    {
      var saved := db;
      tick := tick + 1;
      if env.fails(tick - 1) {
        RejectAll(cmds);
        return false, [], [], BeginFailed;
      }
      var done, failed;
      done, failed, pending, mutations := RunOperations(cmds);
      if done < |cmds| {
        db := saved;
        AnswerFailure(cmds, done, failed, pending, old(log));
        return false, [], [], OpFailed(done);
      }
      assert cmds[..done] == cmds;
      committed := CommitOrRestore(saved);
      outcome := if committed then Done(db) else CommitFailed;
      LogCommitted(old(log), log, cmds, committed, outcome);
    }

    method CommitOrRestore(saved: Db) returns (committed: bool)
      modifies this`db, this`tick
      ensures tick == old(tick) + 1 && committed == !env.fails(old(tick))
      ensures db == if committed then old(db) else saved
    {
      tick := tick + 1;
      committed := !env.fails(tick - 1);
      if !committed { db := saved; }
    }

    /** `process_transactional_batch`. */
    method ProcessTransactionalBatch(cmds: seq<Command>)
      modifies this`db, this`tick, this`log, this`builder, this`cell, this`lastStored, this`nextArc, this`journal
      ensures World() == Group(env, old(World()), cmds)
    {
      ghost var entry := GroupEntry(env, World(), cmds);
      var committed, pending, mutations, outcome := RunTransaction(cmds);
      if committed {
        PublishMutations(mutations, cmds);
      }
      Respond(pending, committed);
      journal := journal + [entry];
    }

    /** The consumer's rebuild of the shared graph after a committed batch. */
    method RebuildCell(job: Job)
      modifies this`tick, this`cell, this`nextArc, this`stale
      ensures World() == Rebuild(env, old(World()), job)
    {
      if job.Store? || job.triples == [] { return; }
      tick := tick + 1;
      if env.fails(tick - 1) {
        stale := true;
      } else {
        cell := Slot(nextArc, Cached(FromTables(db.graph, env.rowOrder(db.graph)), true));
        nextArc := nextArc + 1;
        stale := false;
      }
    }

    /** BEGIN, the statements, COMMIT; a failure restores the tables. */
    method JobTransaction(ss: seq<Stmt>) returns (ok: bool)
      modifies this`db, this`tick
      ensures env.fails(old(tick)) ==> !ok && tick == old(tick) + 1
      ensures !env.fails(old(tick)) ==>
        var run := RunStmts(env, old(db), old(tick) + 1, ss);
        if run.ok then tick == run.tick + 1 && ok == !env.fails(run.tick) && (ok ==> db == run.db)
        else !ok && tick == run.tick
      ensures !ok ==> db == old(db)
    {
      var saved := db;
      tick := tick + 1;
      if env.fails(tick - 1) { return false; }
      ok := RunStatements(ss);
      if ok { ok := CommitOrRestore(saved); } else { db := saved; }
    }

    /** A job's own transaction, then the rebuild of the shared graph by the projection consumer. */
    method PerformJob(job: Job) returns (ok: bool)
      modifies this`db, this`tick, this`cell, this`nextArc, this`stale
      ensures (World(), ok) == RunJob(env, old(World()), job)
    {
      ok := JobTransaction(JobStmts(job));
      if ok { RebuildCell(job); }
    }

    /** `CheckpointWal` and `Execute` run outside any ambient transaction and are answered at once. */
    method ProcessStandalone(c: Command)
      requires Standalone(c.op)
      modifies this`db, this`tick, this`log, this`cell, this`nextArc, this`stale, this`journal
      ensures World() == Alone(env, old(World()), c)
    {
      var ok: bool;
      if c.op.CheckpointWal? {
        tick := tick + 1;
        ok := !env.fails(tick - 1);
      } else {
        ok := PerformJob(c.op.job);
      }
      Respond(Channels(c), ok);
      journal := journal + [Entry([c], ok, Answers(Channels(c), ok))];
    }

    /** `process_write_batch`: cuts the batch into groups around standalone commands. */
    method ProcessWriteBatch(batch: seq<Command>)
      modifies this
      ensures World() == Batch(env, old(World()), [], batch)
    {
      var pending: seq<Command> := [];
      assert batch[0..] == batch;
      for i := 0 to |batch|
        invariant Batch(env, old(World()), [], batch) == Batch(env, World(), pending, batch[i..])
      {
        assert batch[i..][0] == batch[i] && batch[i..][1..] == batch[i + 1..];
        if Standalone(batch[i].op) {
          if pending != [] { ProcessTransactionalBatch(pending); }
          pending := [];
          ProcessStandalone(batch[i]);
        } else {
          pending := pending + [batch[i]];
        }
      }
      if pending != [] { ProcessTransactionalBatch(pending); }
    }

    /** No connection can be had: everything waiting is rejected. */
    method RejectVisible(visible: nat)
      requires queue != []
      modifies this`queue, this`log, this`journal
      ensures var n := Min(|old(queue)|, if visible == 0 then 1 else visible);
        var cmds := old(queue)[..n];
        queue == old(queue)[n..]
        && log == old(log) + Answers(AllChannels(cmds), false)
        && journal == old(journal) + [Entry(cmds, false, Answers(AllChannels(cmds), false))]
    {
      var n := Min(|queue|, if visible == 0 then 1 else visible);
      var rejected := queue[..n];
      queue := queue[n..];
      RejectAll(rejected);
      journal := journal + [Entry(rejected, false, Answers(AllChannels(rejected), false))];
    }

    /** The drain loop: at most 50 commands, none past the first `Flush` or `Execute`. */
    method Drain(visible: nat) returns (batch: seq<Command>)
      requires queue != []
      modifies this`queue
      ensures var n := Cut(old(queue), visible, 1); batch == old(queue)[..n] && queue == old(queue)[n..]
    {
      batch := [queue[0]];
      while !EndsBatch(batch[|batch| - 1]) && |batch| < MAX_BATCH && |batch| < visible && |batch| < |queue|
        invariant 1 <= |batch| <= |queue| && batch == queue[..|batch|]
        invariant Cut(queue, visible, 1) == Cut(queue, visible, |batch|)
      {
        batch := batch + [queue[|batch|]];
      }
      queue := queue[|batch|..];
    }

    /** One turn of the thread's loop: obtain a connection, drain what is waiting, process it. */
    method Turn(visible: nat)
      modifies this
      ensures World() == Round(env, old(World()), visible)
    {
      if queue == [] { return; }
      if !connected {
        tick := tick + 1;
        if env.fails(tick - 1) {
          RejectVisible(visible);
          return;
        }
        connected := true;
      }
      var batch := Drain(visible);
      ProcessWriteBatch(batch);
    }
  }
}
