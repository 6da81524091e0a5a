/** What the single-writer actor guarantees over every run, every fault and every way the queue is
    cut into batches. */
module WriterProofs {
  import opened Wrappers
  import opened GraphTables
  import opened WriterSpec

  // ---------------------------------------------------------------- the simple form

  /** Database and graph, advanced one command at a time with nothing failing. */
  datatype Snap = Snap(db: Db, graph: Graph)

  function SerialStep(env: Env, s: Snap, op: Op): Option<Snap> {
    match op
    case CheckpointWal => Some(s)
    case Execute(Store(t, k, v)) => Some(s.(db := s.db.(rows := s.db.rows[(t, k) := Row(v, 0)])))
    case Execute(Project(ts)) =>
      var tables := s.db.graph.InsertTriples(ts);
      Some(Snap(s.db.(graph := tables), if ts == [] then s.graph else FromTables(tables, env.rowOrder(tables))))
    case _ =>
      var db := ApplyAll(s.db, Statements(op));
      if db.None? then None else Some(Snap(db.value, Mutate(s.graph, op)))
  }

  function Serial(env: Env, s: Snap, cmds: seq<Command>): Option<Snap>
    decreases |cmds|
  {
    if cmds == [] then Some(s)
    else
      var next := SerialStep(env, s, cmds[0].op);
      if next.None? then None else Serial(env, next.value, cmds[1..])
  }

  /** The commands of the committed entries, in journal order. */
  function Committed(journal: seq<Entry>): seq<Command> {
    if journal == [] then []
    else Committed(journal[..|journal| - 1])
         + (if journal[|journal| - 1].committed then journal[|journal| - 1].cmds else [])
  }

  /** Every command taken off the queue, in journal order. */
  function Processed(journal: seq<Entry>): seq<Command> {
    if journal == [] then [] else Processed(journal[..|journal| - 1]) + journal[|journal| - 1].cmds
  }

  lemma {:induction false} SerialConcat(env: Env, s: Snap, a: seq<Command>, b: seq<Command>)
    ensures Serial(env, s, a + b) ==
      var mid := Serial(env, s, a); if mid.None? then None else Serial(env, mid.value, b)
    decreases |a|
  {
    if a == [] {
      assert a + b == b;
    } else {
      assert (a + b)[1..] == a[1..] + b;
      var next := SerialStep(env, s, a[0].op);
      if next.Some? { SerialConcat(env, next.value, a[1..], b); }
    }
  }

  // ---------------------------------------------------------------- the simple form keeps the mirror

  ghost predicate SnapOk(s: Snap) { Mirrors(s.graph, s.db.graph) && s.db.graph.ForeignKeys() }

  lemma {:induction false} RowStatementsKeepGraph(db: Db, ss: seq<Stmt>)
    requires ApplyAll(db, ss).Some? && forall i :: 0 <= i < |ss| ==> !ss[i].Node? && !ss[i].Edge?
    ensures ApplyAll(db, ss).value.graph == db.graph
    decreases |ss|
  {
    if ss != [] {
      RowStatementsKeepGraph(Apply(db, ss[0]).value, ss[1..]);
    }
  }

  lemma {:induction false} TurnStmtsAreRows(turns: seq<(string, string)>)
    ensures forall i :: 0 <= i < |TurnStmts(turns)| ==> !TurnStmts(turns)[i].Node? && !TurnStmts(turns)[i].Edge?
  {
    if turns != [] { TurnStmtsAreRows(turns[1..]); }
  }

  lemma TripleStmtsInsert(db: Db, t: Triple, rest: seq<Stmt>)
    ensures ApplyAll(db, TripleStmts(t) + rest) == ApplyAll(db.(graph := db.graph.InsertTriple(t)), rest)
  {
    var ss := TripleStmts(t) + rest;
    var d1 := Apply(db, ss[0]).value;
    var d2 := Apply(d1, ss[1]).value;
    var d3 := Apply(d2, ss[2]).value;
    assert ss[1..][1..][1..] == rest;
    assert ApplyAll(db, ss) == ApplyAll(d1, ss[1..]);
    assert ApplyAll(d1, ss[1..]) == ApplyAll(d2, ss[1..][1..]);
    assert ApplyAll(d2, ss[1..][1..]) == ApplyAll(d3, rest);
    assert d3 == db.(graph := db.graph.InsertTriple(t));
  }

  /** The statements of a triple batch insert exactly those triples and cannot violate a constraint. */
  lemma {:induction false} TriplesStmtsInsert(db: Db, ts: seq<Triple>)
    ensures ApplyAll(db, TriplesStmts(ts)) == Some(db.(graph := db.graph.InsertTriples(ts)))
    decreases |ts|
  {
    if ts != [] {
      TripleStmtsInsert(db, ts[0], TriplesStmts(ts[1..]));
      TriplesStmtsInsert(db.(graph := db.graph.InsertTriple(ts[0])), ts[1..]);
    }
  }

  lemma SerialStepKeepsMirror(env: Env, s: Snap, op: Op)
    requires EnvOk(env) && SnapOk(s) && SerialStep(env, s, op).Some?
    ensures SnapOk(SerialStep(env, s, op).value)
  {
    match op
    case InsertL3Triple(t) =>
      TripleStmtsInsert(s.db, t, []);
      assert TripleStmts(t) + [] == TripleStmts(t);
      TripleKeepsMirror(s.graph, s.db.graph, t);
    case InsertL3TriplesBatch(ts) =>
      TriplesStmtsInsert(s.db, ts);
      TriplesKeepMirror(s.graph, s.db.graph, ts);
    case InsertL3Node(id, name) =>
      assert ApplyAll(s.db, [Node(id, name)]) == Apply(s.db, Node(id, name));
      NodeKeepsMirror(s.graph, s.db.graph, id, name);
    case InsertL3Edge(k, w) =>
      assert ApplyAll(s.db, [Edge(k, w)]) == Apply(s.db, Edge(k, w));
      EdgeKeepsMirror(s.graph, s.db.graph, k, w);
    case Execute(Project(ts)) =>
      InsertTriplesKeepsForeignKeys(s.db.graph, ts);
      var tables := s.db.graph.InsertTriples(ts);
      if ts != [] { RebuildMirrors(tables, env.rowOrder(tables)); }
    case Execute(Store(_, _, _)) =>
    case PersistTurn(id, content) =>
      TurnStmtsAreRows([(id, content)]);
      RowStatementsKeepGraph(s.db, Statements(op));
    case PersistTurnsBatch(turns) =>
      TurnStmtsAreRows(turns);
      RowStatementsKeepGraph(s.db, Statements(op));
    case _ =>
      RowStatementsKeepGraph(s.db, Statements(op));
  }

  lemma {:induction false} SerialKeepsMirror(env: Env, s: Snap, cmds: seq<Command>)
    requires EnvOk(env) && SnapOk(s) && Serial(env, s, cmds).Some?
    ensures SnapOk(Serial(env, s, cmds).value)
    decreases |cmds|
  {
    if cmds != [] {
      SerialStepKeepsMirror(env, s, cmds[0].op);
      SerialKeepsMirror(env, SerialStep(env, s, cmds[0].op).value, cmds[1..]);
    }
  }

  // ---------------------------------------------------------------- replies

  function ChannelsOf(answers: seq<Answer>): seq<Channel> {
    seq(|answers|, i requires 0 <= i < |answers| => answers[i].channel)
  }

  lemma ChannelsOfConcat(a: seq<Answer>, b: seq<Answer>)
    ensures ChannelsOf(a + b) == ChannelsOf(a) + ChannelsOf(b)
  {
  }

  lemma ChannelsOfAnswers(cs: seq<Channel>, ok: bool)
    ensures ChannelsOf(Answers(cs, ok)) == cs
  {
  }

  lemma {:induction false} EarlyAndLate(cmds: seq<Command>)
    ensures multiset(EarlyChannels(cmds)) + multiset(LateChannels(cmds)) == multiset(AllChannels(cmds))
  {
    if cmds != [] { EarlyAndLate(cmds[1..]); }
  }

  lemma {:induction false} AllChannelsConcat(a: seq<Command>, b: seq<Command>)
    ensures AllChannels(a + b) == AllChannels(a) + AllChannels(b)
  {
    if a == [] {
      assert a + b == b;
    } else {
      assert (a + b)[1..] == a[1..] + b;
      AllChannelsConcat(a[1..], b);
    }
  }

  /** Which answers an entry may contain: each reply channel of its commands exactly once; if it
      committed, only successes, the pending notifications in queue order after the early ones; if
      not, successes only on the channels of `AppendSessionEvent`. */
  ghost predicate EntryAnswered(e: Entry) {
    && multiset(ChannelsOf(e.answers)) == multiset(AllChannels(e.cmds))
    && (e.committed ==> e.answers == Answers(EarlyChannels(e.cmds), true) + Answers(LateChannels(e.cmds), true))
    && (!e.committed ==> forall a :: a in e.answers && a.ok ==> a.channel in EarlyChannels(e.cmds))
  }

  lemma {:induction false} EarlyOfPrefix(cmds: seq<Command>, n: nat)
    requires n <= |cmds|
    ensures forall c :: c in EarlyChannels(cmds[..n]) ==> c in EarlyChannels(cmds)
  {
    if n > 0 {
      assert cmds[..n][1..] == cmds[1..][..n - 1];
      EarlyOfPrefix(cmds[1..], n - 1);
    }
  }

  lemma InAnswers(cs: seq<Channel>, ok: bool)
    ensures forall a: Answer :: a in Answers(cs, ok) <==> a.ok == ok && a.channel in cs
  {
    forall a: Answer | a.ok == ok && a.channel in cs ensures a in Answers(cs, ok) {
      var i :| 0 <= i < |cs| && cs[i] == a.channel;
      assert Answers(cs, ok)[i] == a;
    }
  }

  lemma UniformlyAnswered(cmds: seq<Command>)
    ensures EntryAnswered(Entry(cmds, false, Answers(AllChannels(cmds), false)))
  {
    InAnswers(AllChannels(cmds), false);
    ChannelsOfAnswers(AllChannels(cmds), false);
  }

  lemma SplitAnswered(cmds: seq<Command>, ok: bool)
    ensures EntryAnswered(Entry(cmds, ok, Answers(EarlyChannels(cmds), true) + Answers(LateChannels(cmds), ok)))
  {
    EarlyAndLate(cmds);
    InAnswers(EarlyChannels(cmds), true);
    InAnswers(LateChannels(cmds), ok);
    ChannelsOfConcat(Answers(EarlyChannels(cmds), true), Answers(LateChannels(cmds), ok));
    ChannelsOfAnswers(EarlyChannels(cmds), true);
    ChannelsOfAnswers(LateChannels(cmds), ok);
  }

  lemma AllChannelsAround(cmds: seq<Command>, i: nat)
    requires i < |cmds|
    ensures AllChannels(cmds) == AllChannels(cmds[..i]) + (Channels(cmds[i]) + AllChannels(cmds[i + 1..]))
  {
    assert cmds == cmds[..i] + cmds[i..];
    AllChannelsConcat(cmds[..i], cmds[i..]);
    assert cmds[i..][0] == cmds[i] && cmds[i..][1..] == cmds[i + 1..];
  }

  lemma FailureChannels(cmds: seq<Command>, i: nat)
    requires i < |cmds|
    ensures multiset(ChannelsOf(GroupAnswers(cmds, OpFailed(i)))) == multiset(AllChannels(cmds))
  {
    var early, failed := Answers(EarlyChannels(cmds[..i]), true), Answers(Channels(cmds[i]), false);
    var late, rest := Answers(LateChannels(cmds[..i]), false), Answers(AllChannels(cmds[i + 1..]), false);
    ChannelsOfConcat(early + failed + late, rest);
    ChannelsOfConcat(early + failed, late);
    ChannelsOfConcat(early, failed);
    ChannelsOfAnswers(EarlyChannels(cmds[..i]), true);
    ChannelsOfAnswers(Channels(cmds[i]), false);
    ChannelsOfAnswers(LateChannels(cmds[..i]), false);
    ChannelsOfAnswers(AllChannels(cmds[i + 1..]), false);
    EarlyAndLate(cmds[..i]);
    AllChannelsAround(cmds, i);
  }

  lemma FailureAnswered(cmds: seq<Command>, i: nat)
    requires i < |cmds|
    ensures EntryAnswered(Entry(cmds, false, GroupAnswers(cmds, OpFailed(i))))
  {
    FailureChannels(cmds, i);
    InAnswers(EarlyChannels(cmds[..i]), true);
    InAnswers(Channels(cmds[i]), false);
    InAnswers(LateChannels(cmds[..i]), false);
    InAnswers(AllChannels(cmds[i + 1..]), false);
    EarlyOfPrefix(cmds, i);
  }

  /** However the transaction ends, its answers are exactly what the commands are owed. */
  lemma GroupAnswered(cmds: seq<Command>, o: Outcome)
    requires o.OpFailed? ==> o.index < |cmds|
    ensures EntryAnswered(Entry(cmds, o.Done?, GroupAnswers(cmds, o)))
  {
    match o
    case BeginFailed => UniformlyAnswered(cmds);
    case OpFailed(i) => FailureAnswered(cmds, i);
    case CommitFailed => SplitAnswered(cmds, false);
    case Done(_) => SplitAnswered(cmds, true);
  }

  // ---------------------------------------------------------------- statements against the oracle

  /** Nothing fails from tick `from` until `to`. */
  ghost predicate Quiet(env: Env, from: nat, to: nat) {
    forall n :: from <= n < to ==> !env.fails(n)
  }

  /** A statement run succeeds exactly when no constraint is violated and none of its own ticks fails. */
  lemma {:induction false} RunStmtsMeansApply(env: Env, db: Db, tick: nat, ss: seq<Stmt>)
    ensures var r := RunStmts(env, db, tick, ss);
      && (r.ok ==> ApplyAll(db, ss) == Some(r.db))
      && (r.ok <==> ApplyAll(db, ss).Some? && Quiet(env, tick, r.tick))
      && r.tick >= tick
    decreases |ss|
  {
    if ss != [] && !env.fails(tick) && Apply(db, ss[0]).Some? {
      RunStmtsMeansApply(env, Apply(db, ss[0]).value, tick + 1, ss[1..]);
    }
  }

  ghost predicate AllTransactional(cmds: seq<Command>) {
    forall i :: 0 <= i < |cmds| ==> !Standalone(cmds[i].op)
  }

  /** A group's operations all succeed exactly when the commands succeed one by one and none of the
      group's own ticks fails; they then compute the serial result. */
  lemma {:induction false} RunOpsMeansSerial(env: Env, db: Db, tick: nat, cmds: seq<Command>, g: Graph)
    requires AllTransactional(cmds)
    ensures var r := RunOps(env, db, tick, cmds);
      && (r.done == |cmds| ==> Serial(env, Snap(db, g), cmds) == Some(Snap(r.db, MutateAll(g, cmds))))
      && (r.done == |cmds| <==> Serial(env, Snap(db, g), cmds).Some? && Quiet(env, tick, r.tick))
      && r.tick >= tick
    decreases |cmds|
  {
    if cmds != [] {
      var op := cmds[0].op;
      RunStmtsMeansApply(env, db, tick, Statements(op));
      var first := RunStmts(env, db, tick, Statements(op));
      assert !Standalone(op);
      if first.ok {
        assert SerialStep(env, Snap(db, g), op) == Some(Snap(first.db, Mutate(g, op)));
        RunOpsMeansSerial(env, first.db, first.tick, cmds[1..], Mutate(g, op));
      }
    }
  }

  lemma {:induction false} NoMutationNoChange(g: Graph, cmds: seq<Command>)
    requires !AnyMutation(cmds)
    ensures MutateAll(g, cmds) == g
    decreases |cmds|
  {
    if cmds != [] {
      assert !Mutates(cmds[0].op);
      assert forall i :: 0 <= i < |cmds[1..]| ==> cmds[1..][i] == cmds[i + 1];
      NoMutationNoChange(g, cmds[1..]);
    }
  }

  // ---------------------------------------------------------------- the invariant of every run

  /** The pointer comparison is sound: either the cell holds what the actor stored last, and then the
      builder is the extendable original of that snapshot, or somebody else stored an extendable
      graph.  So the builder that mutations are applied to always has its adjacency lists. */
  ghost predicate Synced(w: World) {
    && w.cell.arc < w.nextArc && w.lastStored < w.nextArc
    && (w.lastStored == w.cell.arc ==> w.builder == Cached(w.cell.cached.graph, true) && !w.cell.cached.extendable)
    && (w.lastStored != w.cell.arc ==> w.cell.cached.extendable)
  }

  ghost predicate LogIsJournal(w: World) {
    w.log == FlatAnswers(w.journal)
  }

  function FlatAnswers(journal: seq<Entry>): seq<Answer> {
    if journal == [] then [] else FlatAnswers(journal[..|journal| - 1]) + journal[|journal| - 1].answers
  }

  /** Database and graph are what the committed commands give one by one. */
  ghost predicate Refines(env: Env, s: Snap, w: World) {
    var r := Serial(env, s, Committed(w.journal));
    r.Some? && r.value.db == w.db && (!w.stale ==> r.value.graph == w.cell.cached.graph)
  }

  ghost predicate Inv(env: Env, s: Snap, w: World) { Synced(w) && Accounted(w) && Refines(env, s, w) }

  /** Everything but the refinement: the shape of log and journal. */
  ghost predicate Accounted(w: World) {
    LogIsJournal(w) && forall e :: e in w.journal ==> EntryAnswered(e)
  }

  lemma RecordAccounts(w: World, e: Entry)
    requires Accounted(w) && EntryAnswered(e)
    ensures Accounted(Record(w, e))
  {
    var j := w.journal + [e];
    assert j[..|j| - 1] == w.journal;
    assert forall x :: x in j <==> x in w.journal || x == e;
  }

  lemma CommittedGrows(journal: seq<Entry>, e: Entry)
    ensures Committed(journal + [e]) == Committed(journal) + (if e.committed then e.cmds else [])
    ensures Processed(journal + [e]) == Processed(journal) + e.cmds
  {
    var j := journal + [e];
    assert j[..|j| - 1] == journal;
  }

  lemma RecordRefines(env: Env, s: Snap, w: World, e: Entry)
    requires Serial(env, s, Committed(w.journal)).Some?
    requires var before := Serial(env, s, Committed(w.journal)).value;
             var r := if e.committed then Serial(env, before, e.cmds) else Some(before);
      r.Some? && r.value.db == w.db && (!w.stale ==> r.value.graph == w.cell.cached.graph)
    ensures Refines(env, s, Record(w, e))
  {
    CommittedGrows(w.journal, e);
    SerialConcat(env, s, Committed(w.journal), e.cmds);
    assert Committed(w.journal) + [] == Committed(w.journal);
  }

  lemma PublishKeepsSync(w: World, cmds: seq<Command>)
    requires Synced(w)
    ensures Synced(Publish(w, cmds))
    ensures Publish(w, cmds).cell.cached.graph == MutateAll(w.cell.cached.graph, cmds)
  {
    if !AnyMutation(cmds) { NoMutationNoChange(w.cell.cached.graph, cmds); }
  }

  lemma RecordKeepsInv(env: Env, s: Snap, w: World, e: Entry)
    requires Synced(w) && Accounted(w) && EntryAnswered(e) && Refines(env, s, Record(w, e))
    ensures Inv(env, s, Record(w, e))
  {
    RecordAccounts(w, e);
  }

  lemma FailedGroupKeepsInv(env: Env, s: Snap, w: World, cmds: seq<Command>, o: Outcome, tick: nat)
    requires Inv(env, s, w) && !o.Done? && (o.OpFailed? ==> o.index < |cmds|)
    ensures Inv(env, s, Record(w.(tick := tick), Entry(cmds, false, GroupAnswers(cmds, o))))
  {
    var e := Entry(cmds, false, GroupAnswers(cmds, o));
    GroupAnswered(cmds, o);
    RecordRefines(env, s, w.(tick := tick), e);
    RecordKeepsInv(env, s, w.(tick := tick), e);
  }

  lemma CommittedGroupKeepsInv(env: Env, s: Snap, w: World, cmds: seq<Command>, db: Db, tick: nat, answers: seq<Answer>)
    requires Inv(env, s, w) && EntryAnswered(Entry(cmds, true, answers))
    requires forall g: Graph :: Serial(env, Snap(w.db, g), cmds) == Some(Snap(db, MutateAll(g, cmds)))
    ensures Inv(env, s, Record(Publish(w.(db := db, tick := tick), cmds), Entry(cmds, true, answers)))
  {
    var moved := w.(db := db, tick := tick);
    var before := Serial(env, s, Committed(w.journal)).value;
    assert Serial(env, Snap(w.db, before.graph), cmds) == Some(Snap(db, MutateAll(before.graph, cmds)));
    PublishKeepsSync(moved, cmds);
    RecordRefines(env, s, Publish(moved, cmds), Entry(cmds, true, answers));
    RecordKeepsInv(env, s, Publish(moved, cmds), Entry(cmds, true, answers));
  }

  /** One transaction group: whatever fails, it is all or nothing, every reply channel is answered
      exactly once, and the published graph moves exactly with the commit. */
  lemma GroupKeepsInv(env: Env, s: Snap, w: World, cmds: seq<Command>)
    requires Inv(env, s, w) && AllTransactional(cmds)
    ensures Inv(env, s, Group(env, w, cmds))
  {
    var (outcome, tick) := Transact(env, w.db, w.tick, cmds);
    assert GroupEntry(env, w, cmds) == Entry(cmds, outcome.Done?, GroupAnswers(cmds, outcome));
    if outcome.Done? {
      GroupAnswered(cmds, outcome);
      forall g: Graph ensures Serial(env, Snap(w.db, g), cmds) == Some(Snap(outcome.db, MutateAll(g, cmds))) {
        RunOpsMeansSerial(env, w.db, w.tick + 1, cmds, g);
      }
      CommittedGroupKeepsInv(env, s, w, cmds, outcome.db, tick, GroupAnswers(cmds, outcome));
    } else {
      FailedGroupKeepsInv(env, s, w, cmds, outcome, tick);
    }
  }

  lemma JobStmtsMeanSerial(env: Env, s: Snap, job: Job)
    ensures ApplyAll(s.db, JobStmts(job)).Some? && SerialStep(env, s, Execute(job)).Some?
    ensures ApplyAll(s.db, JobStmts(job)).value == SerialStep(env, s, Execute(job)).value.db
  {
    match job
    case Store(t, k, v) => assert ApplyAll(s.db, [Replace(t, k, v)]) == Apply(s.db, Replace(t, k, v));
    case Project(ts) => TriplesStmtsInsert(s.db, ts);
  }

  lemma RebuildKeepsSync(env: Env, w: World, job: Job)
    requires Synced(w)
    ensures var after := Rebuild(env, w, job);
      && Synced(after) && (after.journal, after.log, after.queue, after.db) == (w.journal, w.log, w.queue, w.db)
      && (job.Project? && job.triples != [] && !after.stale ==>
            after.cell.cached.graph == FromTables(w.db.graph, env.rowOrder(w.db.graph)))
      && ((job.Store? || job.triples == []) ==> after == w)
      && ((forall n :: !env.fails(n)) ==> after.stale == (w.stale && (job.Store? || job.triples == [])))
  {
  }

  /** The two ways a job can end: nothing but time has passed, or it committed. */
  lemma JobCases(env: Env, w: World, job: Job)
    ensures var (after, ok) := RunJob(env, w, job);
            var run := RunStmts(env, w.db, w.tick + 1, JobStmts(job));
      && (!ok ==> after.(tick := w.tick) == w)
      && (ok ==> run.ok && after == Rebuild(env, w.(db := run.db, tick := run.tick + 1), job))
  {
  }

  lemma JobFrame(env: Env, w: World, job: Job)
    requires Synced(w)
    ensures RunJob(env, w, job).0.journal == w.journal && RunJob(env, w, job).0.log == w.log
    ensures Synced(RunJob(env, w, job).0)
    ensures !RunJob(env, w, job).1 ==>
      RunJob(env, w, job).0.db == w.db && RunJob(env, w, job).0.cell == w.cell && RunJob(env, w, job).0.stale == w.stale
  {
    var (after, ok) := RunJob(env, w, job);
    JobCases(env, w, job);
    if ok {
      var run := RunStmts(env, w.db, w.tick + 1, JobStmts(job));
      RebuildKeepsSync(env, w.(db := run.db, tick := run.tick + 1), job);
    } else {
      assert Synced(after.(tick := w.tick));
    }
  }

  lemma JobCommits(env: Env, w: World, job: Job)
    requires Synced(w)
    ensures var (after, ok) := RunJob(env, w, job);
      && (ok ==> ApplyAll(w.db, JobStmts(job)) == Some(after.db))
      && (ok && job.Project? && job.triples != [] && !after.stale ==>
            after.cell.cached.graph == FromTables(after.db.graph, env.rowOrder(after.db.graph)))
      && (ok && (job.Store? || job.triples == []) ==> (after.cell, after.stale) == (w.cell, w.stale))
      && ((forall n :: !env.fails(n)) ==> ok && after.stale == (w.stale && (job.Store? || job.triples == [])))
  {
    JobStmtsMeanSerial(env, Snap(w.db, w.cell.cached.graph), job);
    RunStmtsMeansApply(env, w.db, w.tick + 1, JobStmts(job));
    var run := RunStmts(env, w.db, w.tick + 1, JobStmts(job));
    RebuildKeepsSync(env, w.(db := run.db, tick := run.tick + 1), job);
  }

  /** A job that succeeds does what its serial step does; the published graph follows unless the
      rebuild itself failed. */
  lemma JobMeansSerial(env: Env, w: World, job: Job, g: Graph)
    requires Synced(w) && (!w.stale ==> g == w.cell.cached.graph)
    ensures var (after, ok) := RunJob(env, w, job);
            var r := SerialStep(env, Snap(w.db, g), Execute(job));
      ok ==> r.Some? && r.value.db == after.db && (!after.stale ==> r.value.graph == after.cell.cached.graph)
  {
    JobCommits(env, w, job);
    JobStmtsMeanSerial(env, Snap(w.db, g), job);
  }

  lemma SerialOne(env: Env, s: Snap, c: Command)
    ensures Serial(env, s, [c]) == SerialStep(env, s, c.op)
  {
    assert [c][1..] == [];
  }

  lemma OneCommand(c: Command)
    requires !c.op.AppendSessionEvent?
    ensures EarlyChannels([c]) == [] && LateChannels([c]) == Channels(c) && AllChannels([c]) == Channels(c)
  {
    var rest := [c][1..];
    assert rest == [];
    assert EarlyChannels(rest) == [] && LateChannels(rest) == [] && AllChannels(rest) == [];
    assert Channels(c) + [] == Channels(c);
  }

  lemma AloneAnswered(c: Command, ok: bool)
    requires Standalone(c.op)
    ensures EntryAnswered(Entry([c], ok, Answers(Channels(c), ok)))
  {
    InAnswers(Channels(c), ok);
    ChannelsOfAnswers(Channels(c), ok);
    OneCommand(c);
    assert Answers([], true) + Answers(Channels(c), ok) == Answers(Channels(c), ok);
  }

  lemma AloneKeepsInv(env: Env, s: Snap, w: World, c: Command)
    requires Inv(env, s, w) && Standalone(c.op)
    ensures Inv(env, s, Alone(env, w, c))
  {
    var before := Serial(env, s, Committed(w.journal)).value;
    SerialOne(env, before, c);
    if c.op.CheckpointWal? {
      var ok := !env.fails(w.tick);
      AloneAnswered(c, ok);
      RecordRefines(env, s, w.(tick := w.tick + 1), Entry([c], ok, Answers(Channels(c), ok)));
      RecordAccounts(w.(tick := w.tick + 1), Entry([c], ok, Answers(Channels(c), ok)));
    } else {
      JobFrame(env, w, c.op.job);
      JobMeansSerial(env, w, c.op.job, before.graph);
      var (after, ok) := RunJob(env, w, c.op.job);
      AloneAnswered(c, ok);
      RecordRefines(env, s, after, Entry([c], ok, Answers(Channels(c), ok)));
      RecordKeepsInv(env, s, after, Entry([c], ok, Answers(Channels(c), ok)));
    }
  }

  lemma {:induction false} BatchKeepsInv(env: Env, s: Snap, w: World, pending: seq<Command>, batch: seq<Command>)
    requires Inv(env, s, w) && AllTransactional(pending)
    ensures Inv(env, s, Batch(env, w, pending, batch))
    decreases |batch|
  {
    if batch == [] || Standalone(batch[0].op) {
      var grouped := GroupIfAny(env, w, pending);
      if pending != [] { GroupKeepsInv(env, s, w, pending); }
      if batch != [] {
        AloneKeepsInv(env, s, grouped, batch[0]);
        BatchKeepsInv(env, s, Alone(env, grouped, batch[0]), [], batch[1..]);
      }
    } else {
      BatchKeepsInv(env, s, w, pending + [batch[0]], batch[1..]);
    }
  }

  /** What a round leaves to be processed: the queue without its first commands. */
  function Dequeued(w: World, n: nat): World
    requires n <= |w.queue|
  {
    w.(queue := w.queue[n..], connected := true, tick := if w.connected then w.tick else w.tick + 1)
  }

  lemma RoundKeepsInv(env: Env, s: Snap, w: World, visible: nat)
    requires Inv(env, s, w)
    ensures Inv(env, s, Round(env, w, visible))
  {
    if w.queue == [] {
    } else if !w.connected && env.fails(w.tick) {
      var n := Min(|w.queue|, if visible == 0 then 1 else visible);
      var cmds := w.queue[..n];
      var e := Entry(cmds, false, Answers(AllChannels(cmds), false));
      UniformlyAnswered(cmds);
      RecordRefines(env, s, w.(queue := w.queue[n..], tick := w.tick + 1), e);
      RecordAccounts(w.(queue := w.queue[n..], tick := w.tick + 1), e);
    } else {
      var n := Cut(w.queue, visible, 1);
      BatchKeepsInv(env, s, Dequeued(w, n), [], w.queue[..n]);
    }
  }

  lemma {:induction false} RunKeepsInv(env: Env, s: Snap, w: World, steps: seq<Step>)
    requires Inv(env, s, w)
    ensures Inv(env, s, Run(env, w, steps))
    decreases |steps|
  {
    if steps == [] {
    } else if steps[0].Send? {
      RunKeepsInv(env, s, w.(queue := w.queue + [steps[0].cmd]), steps[1..]);
    } else {
      RoundKeepsInv(env, s, w, steps[0].visible);
      RunKeepsInv(env, s, Round(env, w, steps[0].visible), steps[1..]);
    }
  }

  // ---------------------------------------------------------------- first in, first out

  /** `after` has processed exactly `cmds` more than `w`, and left the queue alone. */
  ghost predicate Took(w: World, cmds: seq<Command>, after: World) {
    Processed(after.journal) == Processed(w.journal) + cmds && after.queue == w.queue
  }

  lemma GroupTakes(env: Env, w: World, cmds: seq<Command>)
    ensures Took(w, cmds, Group(env, w, cmds))
  {
    CommittedGrows(w.journal, GroupEntry(env, w, cmds));
  }

  lemma JobLeavesHistory(env: Env, w: World, job: Job)
    ensures RunJob(env, w, job).0.journal == w.journal && RunJob(env, w, job).0.queue == w.queue
  {
  }

  lemma AloneTakes(env: Env, w: World, c: Command)
    requires Standalone(c.op)
    ensures Took(w, [c], Alone(env, w, c))
  {
    var ok := if c.op.CheckpointWal? then !env.fails(w.tick) else RunJob(env, w, c.op.job).1;
    CommittedGrows(w.journal, Entry([c], ok, Answers(Channels(c), ok)));
    if c.op.Execute? { JobLeavesHistory(env, w, c.op.job); }
  }

  lemma Assoc(p: seq<Command>, a: seq<Command>, b: seq<Command>)
    ensures p + a + b == p + (a + b)
  {
  }

  lemma Reassemble(p: seq<Command>, pending: seq<Command>, batch: seq<Command>)
    requires batch != []
    ensures p + pending + [batch[0]] + ([] + batch[1..]) == p + (pending + batch)
  {
    assert [] + batch[1..] == batch[1..];
    assert batch == [batch[0]] + batch[1..];
    Assoc(p + pending, [batch[0]], batch[1..]);
    Assoc(p, pending, batch);
  }

  lemma {:induction false} BatchTakes(env: Env, w: World, pending: seq<Command>, batch: seq<Command>)
    ensures Took(w, pending + batch, Batch(env, w, pending, batch))
    decreases |batch|
  {
    var p := Processed(w.journal);
    if batch == [] || Standalone(batch[0].op) {
      var grouped := GroupIfAny(env, w, pending);
      if pending != [] { GroupTakes(env, w, pending); }
      assert Processed(grouped.journal) == p + pending;
      if batch != [] {
        AloneTakes(env, grouped, batch[0]);
        BatchTakes(env, Alone(env, grouped, batch[0]), [], batch[1..]);
        Reassemble(p, pending, batch);
      } else {
        assert pending + batch == pending;
      }
    } else {
      BatchTakes(env, w, pending + [batch[0]], batch[1..]);
      assert pending + [batch[0]] + batch[1..] == pending + batch;
    }
  }

  /** A round takes at most 50 commands, no more than wait or can be received, none behind the first
      `Flush` or `Execute`; and it stops only for one of these reasons. */
  lemma {:induction false} CutStops(queue: seq<Command>, visible: nat, taken: nat)
    requires 1 <= taken <= |queue| && taken <= 50
    ensures var n := Cut(queue, visible, taken);
      && taken <= n <= 50 && n <= |queue| && (n > taken ==> n <= visible)
      && (forall i :: taken - 1 <= i < n - 1 ==> !queue[i].op.Flush? && !queue[i].op.Execute?)
      && (n == 50 || n == |queue| || n >= visible || queue[n - 1].op.Flush? || queue[n - 1].op.Execute?)
    decreases |queue| - taken
  {
    if !(EndsBatch(queue[taken - 1]) || taken >= MAX_BATCH || taken >= visible || taken >= |queue|) {
      CutStops(queue, visible, taken + 1);
    }
  }

  lemma CutQueue(p: seq<Command>, queue: seq<Command>, n: nat)
    requires n <= |queue|
    ensures p + queue[..n] + queue[n..] == p + queue
    ensures [] + queue[..n] == queue[..n]
  {
    assert queue == queue[..n] + queue[n..];
    Assoc(p, queue[..n], queue[n..]);
  }

  lemma RejectTakes(w: World, n: nat, e: Entry)
    requires n <= |w.queue| && e.cmds == w.queue[..n]
    ensures Processed(Record(w.(queue := w.queue[n..]), e).journal) + w.queue[n..] == Processed(w.journal) + w.queue
  {
    CommittedGrows(w.journal, e);
    CutQueue(Processed(w.journal), w.queue, n);
  }

  lemma RoundTakes(env: Env, w: World, visible: nat)
    ensures Processed(Round(env, w, visible).journal) + Round(env, w, visible).queue == Processed(w.journal) + w.queue
  {
    if w.queue == [] {
    } else if !w.connected && env.fails(w.tick) {
      var n := Min(|w.queue|, if visible == 0 then 1 else visible);
      RejectTakes(w, n, Entry(w.queue[..n], false, Answers(AllChannels(w.queue[..n]), false)));
    } else {
      var n := Cut(w.queue, visible, 1);
      BatchTakes(env, Dequeued(w, n), [], w.queue[..n]);
      CutQueue(Processed(w.journal), w.queue, n);
    }
  }

  lemma {:induction false} RunTakes(env: Env, w: World, steps: seq<Step>)
    ensures Processed(Run(env, w, steps).journal) + Run(env, w, steps).queue == Processed(w.journal) + w.queue + Sent(steps)
    decreases |steps|
  {
    var p := Processed(w.journal);
    if steps == [] {
      assert p + w.queue + [] == p + w.queue;
    } else if steps[0].Send? {
      var c := steps[0].cmd;
      RunTakes(env, w.(queue := w.queue + [c]), steps[1..]);
      Assoc(p, w.queue, [c]);
      Assoc(p + w.queue, [c], Sent(steps[1..]));
    } else {
      RoundTakes(env, w, steps[0].visible);
      RunTakes(env, Round(env, w, steps[0].visible), steps[1..]);
      assert [] + Sent(steps[1..]) == Sent(steps[1..]);
    }
  }

  ghost function StartSnap(env: Env, db: Db): Snap { Snap(db, FromTables(db.graph, env.rowOrder(db.graph))) }

  // ---------------------------------------------------------------- theorems about every run

  /** FIFO, refinement and replies.  In every run from a fresh actor: the commands taken so far and
      those still queued are the ones sent, in order; the database is the committed commands applied
      one by one to the initial one; every entry answered each of its channels exactly once, and the
      log holds nothing else. */
  lemma EveryRunRefines(env: Env, db: Db, connected: bool, steps: seq<Step>)
    requires EnvOk(env) && db.graph.ForeignKeys()
    ensures var w := Run(env, Start(env, db, connected), steps);
      && Processed(w.journal) + w.queue == Sent(steps)
      && Inv(env, StartSnap(env, db), w)
  {
    RunKeepsInv(env, StartSnap(env, db), Start(env, db, connected), steps);
    RunTakes(env, Start(env, db, connected), steps);
    assert [] + [] + Sent(steps) == Sent(steps);
  }

  /** The published snapshot mirrors the committed tables after every step of every run, unless a
      rebuild failed after a projection batch that extracted triples (`stale`); a later successful
      rebuild clears that.  Readers therefore never see an uncommitted triple and no writer's triple
      is lost from the snapshot. */
  lemma SnapshotMirrorsTables(env: Env, db: Db, connected: bool, steps: seq<Step>)
    requires EnvOk(env) && db.graph.ForeignKeys()
    ensures var w := Run(env, Start(env, db, connected), steps);
      && w.db.graph.ForeignKeys()
      && (!w.stale ==> Mirrors(w.cell.cached.graph, w.db.graph))
  {
    var s := StartSnap(env, db);
    EveryRunRefines(env, db, connected, steps);
    RebuildMirrors(db.graph, env.rowOrder(db.graph));
    SerialKeepsMirror(env, s, Committed(Run(env, Start(env, db, connected), steps).journal));
  }

  /** After a committed projection batch whose rebuild failed, readers still see a mirror of the
      tables exactly when the snapshot already showed every extracted triple (reciprocal rows
      agreeing). */
  lemma FailedRebuildHarmlessIff(env: Env, w: World, ts: seq<Triple>)
    requires Synced(w) && !w.stale && w.db.graph.ForeignKeys() && Mirrors(w.cell.cached.graph, w.db.graph)
    requires RunJob(env, w, Project(ts)).1 && RunJob(env, w, Project(ts)).0.stale
    ensures var after := RunJob(env, w, Project(ts)).0; var g := w.cell.cached.graph;
      && after.db.graph == w.db.graph.InsertTriples(ts)
      && (g.AddTriples(ts) == g ==> Mirrors(after.cell.cached.graph, after.db.graph))
      && (after.db.graph.ReciprocalsAgree() ==>
            (Mirrors(after.cell.cached.graph, after.db.graph) <==> g.AddTriples(ts) == g))
  {
    JobCommits(env, w, Project(ts));
    StaleLeavesCell(env, w, Project(ts));
    TriplesStmtsInsert(w.db, ts);
    LeftBehind(w.cell.cached.graph, w.db.graph, ts);
  }

  lemma StaleLeavesCell(env: Env, w: World, job: Job)
    requires !w.stale && RunJob(env, w, job).0.stale
    ensures RunJob(env, w, job).0.cell == w.cell
  {
    JobCases(env, w, job);
  }

  /** A round that finds one command takes just that one: a transaction group of its own ... */
  lemma OneTransactional(env: Env, db: Db, c: Command)
    requires !Standalone(c.op)
    ensures Run(env, Start(env, db, true), [Send(c), Turn(1)]) == Group(env, Start(env, db, true), [c])
  {
    OneRound(env, db, c);
    var w := Start(env, db, true);
    assert [c][1..] == [] && [] + [c] == [c];
    assert Batch(env, w, [], [c]) == Batch(env, w, [c], []);
  }

  /** ... or a standalone command. */
  lemma OneStandalone(env: Env, db: Db, c: Command)
    requires Standalone(c.op)
    ensures Run(env, Start(env, db, true), [Send(c), Turn(1)]) == Alone(env, Start(env, db, true), c)
  {
    OneRound(env, db, c);
    var w := Start(env, db, true);
    assert [c][1..] == [];
    assert Batch(env, w, [], [c]) == Batch(env, Alone(env, w, c), [], []);
  }

  lemma OneRound(env: Env, db: Db, c: Command)
    ensures Run(env, Start(env, db, true), [Send(c), Turn(1)]) == Batch(env, Start(env, db, true), [], [c])
  {
    var w := Start(env, db, true);
    var sent := w.(queue := [c]);
    assert [] + [c] == [c] && [c][..1] == [c] && [c][1..] == [];
    assert [Send(c), Turn(1)][1..] == [Turn(1)] && [Turn(1)][1..] == [];
    assert Run(env, w, [Send(c), Turn(1)]) == Run(env, sent, [Turn(1)]) == Round(env, sent, 1);
    assert sent.(queue := [], connected := true, tick := sent.tick) == w;
  }

  /** The condition is needed: a fresh actor whose rebuild fails after its first committed projection
      batch publishes a graph that does not mirror the tables. */
  lemma FailedRebuildDiverges() returns (env: Env, db: Db, steps: seq<Step>)
    ensures EnvOk(env) && db.graph.ForeignKeys()
    ensures var w := Run(env, Start(env, db, true), steps);
      w.stale && !Mirrors(w.cell.cached.graph, w.db.graph)
  {
    var t := Triple("a", "r", "b", 1.0);
    var c := Command(Execute(Project([t])), None, None);
    env := Env(n => n == 5, t => AnyOrder(t));
    forall t ensures IsRowOrder(t, env.rowOrder(t)) { AnyOrderIsRowOrder(t); }
    db := Db(Tables(map[], map[]), map[], []);
    steps := [Send(c), Turn(1)];
    OneStandalone(env, db, c);
    RebuildFailsAfter(env, db, t);
    var w := Alone(env, Start(env, db, true), c);
    assert "a" in w.db.graph.nodes;
    assert FromTables(db.graph, env.rowOrder(db.graph)).labels == map[] by {
      RebuildMirrors(db.graph, env.rowOrder(db.graph));
    }
  }

  lemma RebuildFailsAfter(env: Env, db: Db, t: Triple)
    requires forall n :: 0 <= n < 5 ==> !env.fails(n)
    requires env.fails(5)
    ensures var w := Start(env, db, true); var after := RunJob(env, w, Project([t])).0;
      after.db == db.(graph := db.graph.InsertTriple(t)) && after.cell == w.cell && after.stale
  {
    OneTripleRun(env, db, t);
  }

  lemma OneTripleRun(env: Env, db: Db, t: Triple)
    requires !env.fails(1) && !env.fails(2) && !env.fails(3)
    ensures RunStmts(env, db, 1, JobStmts(Project([t]))) == StmtsRun(db.(graph := db.graph.InsertTriple(t)), 4, true)
  {
    var ss := TripleStmts(t);
    assert [t][1..] == [] && TriplesStmts([t]) == ss + [] && ss + [] == ss;
    var d1 := Apply(db, ss[0]).value;
    var d2 := Apply(d1, ss[1]).value;
    var d3 := Apply(d2, ss[2]).value;
    assert ss[1..][1..][1..] == [];
    assert RunStmts(env, d2, 3, ss[1..][1..]) == RunStmts(env, d3, 4, []);
  }

  // ---------------------------------------------------------------- replies over a whole run

  lemma {:induction false} FlatChannels(journal: seq<Entry>)
    requires forall e :: e in journal ==> EntryAnswered(e)
    ensures multiset(ChannelsOf(FlatAnswers(journal))) == multiset(AllChannels(Processed(journal)))
  {
    if journal != [] {
      var n := |journal| - 1;
      assert journal[n] in journal;
      assert forall e :: e in journal[..n] ==> e in journal;
      FlatChannels(journal[..n]);
      ChannelsOfConcat(FlatAnswers(journal[..n]), journal[n].answers);
      AllChannelsConcat(Processed(journal[..n]), journal[n].cmds);
    }
  }

  /** An answer Ok is justified by a committed entry that owns the channel, or was sent early. */
  ghost predicate Justified(journal: seq<Entry>, c: Channel) {
    exists e :: e in journal && ((e.committed && c in AllChannels(e.cmds)) || c in EarlyChannels(e.cmds))
  }

  lemma {:induction false} OkIsJustified(journal: seq<Entry>)
    requires forall e :: e in journal ==> EntryAnswered(e)
    ensures forall x :: x in FlatAnswers(journal) && x.ok ==> Justified(journal, x.channel)
  {
    if journal != [] {
      var n := |journal| - 1;
      var e := journal[n];
      assert e in journal && forall d :: d in journal[..n] ==> d in journal;
      OkIsJustified(journal[..n]);
      forall x | x in FlatAnswers(journal) && x.ok ensures Justified(journal, x.channel) {
        if x in FlatAnswers(journal[..n]) {
          var d :| d in journal[..n] && ((d.committed && x.channel in AllChannels(d.cmds)) || x.channel in EarlyChannels(d.cmds));
          assert d in journal;
        } else {
          var i :| 0 <= i < |e.answers| && e.answers[i] == x;
          assert ChannelsOf(e.answers)[i] == x.channel;
          assert x.channel in multiset(ChannelsOf(e.answers));
        }
      }
    }
  }

  /** Every reply channel of every command taken off the queue was answered exactly once. */
  ghost predicate AnsweredExactly(w: World) {
    multiset(ChannelsOf(w.log)) == multiset(AllChannels(Processed(w.journal)))
  }

  /** Ok implies committed, for every command but `AppendSessionEvent`. */
  ghost predicate OkMeansCommitted(w: World) {
    forall x :: x in w.log && x.ok ==> Justified(w.journal, x.channel)
  }

  /** Replies are exact in every run, whatever fails. */
  lemma EveryChannelAnsweredOnce(env: Env, db: Db, connected: bool, steps: seq<Step>)
    requires EnvOk(env) && db.graph.ForeignKeys()
    ensures AnsweredExactly(Run(env, Start(env, db, connected), steps))
  {
    EveryRunRefines(env, db, connected, steps);
    FlatChannels(Run(env, Start(env, db, connected), steps).journal);
  }

  lemma OkImpliesCommitted(env: Env, db: Db, connected: bool, steps: seq<Step>)
    requires EnvOk(env) && db.graph.ForeignKeys()
    ensures OkMeansCommitted(Run(env, Start(env, db, connected), steps))
  {
    EveryRunRefines(env, db, connected, steps);
    OkIsJustified(Run(env, Start(env, db, connected), steps).journal);
  }

  lemma {:induction false} FlatAnswersPrefix(journal: seq<Entry>, n: nat)
    requires n <= |journal|
    ensures FlatAnswers(journal[..n]) <= FlatAnswers(journal)
    decreases |journal|
  {
    if n < |journal| {
      assert journal[..|journal| - 1][..n] == journal[..n];
      FlatAnswersPrefix(journal[..|journal| - 1], n);
    } else {
      assert journal[..n] == journal;
    }
  }

  /** Entry `i` committed and holds the Flush `f` behind the commands `a`. */
  ghost predicate FlushEntry(w: World, i: nat, a: seq<Command>, f: Command, b: seq<Command>) {
    f.op.Flush? && i < |w.journal| && w.journal[i].cmds == a + [f] + b && w.journal[i].committed
  }

  /** When the answer of `f` is sent, at place `n` of the log: every command in front of it, in earlier
      entries or in its own group, has been answered on all its channels, and each of those Ok is
      committed. */
  ghost predicate BarrierAt(w: World, i: nat, a: seq<Command>, f: Command, n: nat)
    requires i < |w.journal|
  {
    && n + |Channels(f)| <= |w.log| && w.log[n..n + |Channels(f)|] == Answers(Channels(f), true)
    && multiset(AllChannels(Processed(w.journal[..i]) + a)) <= multiset(ChannelsOf(w.log[..n]))
    && (forall x :: x in w.log[..n] && x.ok ==> Justified(w.journal[..i + 1], x.channel))
  }

  /** Flush is a barrier, for any committed `Flush` of any run. */
  lemma FlushIsBarrier(env: Env, db: Db, connected: bool, steps: seq<Step>,
                       i: nat, a: seq<Command>, f: Command, b: seq<Command>)
    returns (n: nat)
    requires EnvOk(env) && db.graph.ForeignKeys()
    requires FlushEntry(Run(env, Start(env, db, connected), steps), i, a, f, b)
    ensures BarrierAt(Run(env, Start(env, db, connected), steps), i, a, f, n)
  {
    EveryRunRefines(env, db, connected, steps);
    var w := Run(env, Start(env, db, connected), steps);
    var pre, post := FlushInJournal(w.journal, i, a, f, b);
    CutLog(w.log, pre, Answers(Channels(f), true), post);
    n := |pre|;
  }

  lemma CutLog(log: seq<Answer>, pre: seq<Answer>, middle: seq<Answer>, post: seq<Answer>)
    requires log == pre + middle + post
    ensures log[..|pre|] == pre && log[|pre|..|pre| + |middle|] == middle
  {
  }

  lemma FlushInJournal(journal: seq<Entry>, i: nat, a: seq<Command>, f: Command, b: seq<Command>)
    returns (pre: seq<Answer>, post: seq<Answer>)
    requires forall e :: e in journal ==> EntryAnswered(e)
    requires f.op.Flush? && i < |journal| && journal[i].cmds == a + [f] + b && journal[i].committed
    ensures FlatAnswers(journal) == pre + Answers(Channels(f), true) + post
    ensures multiset(AllChannels(Processed(journal[..i]) + a)) <= multiset(ChannelsOf(pre))
    ensures forall x :: x in pre && x.ok ==> Justified(journal[..i + 1], x.channel)
  {
    assert journal[i] in journal;
    var inside, tail := FlushBarrierInGroup(a, f, b);
    pre := FlatAnswers(journal[..i]) + inside;
    post := SplitLog(journal, i, inside, Answers(Channels(f), true), tail);
    PreJustified(journal, i, inside, Answers(Channels(f), true), tail);
    PreAnswers(journal, i, inside, a);
  }

  lemma PreAnswers(journal: seq<Entry>, i: nat, inside: seq<Answer>, a: seq<Command>)
    requires forall e :: e in journal ==> EntryAnswered(e)
    requires i < |journal| && multiset(AllChannels(a)) <= multiset(ChannelsOf(inside))
    ensures multiset(AllChannels(Processed(journal[..i]) + a)) <= multiset(ChannelsOf(FlatAnswers(journal[..i]) + inside))
  {
    var before := journal[..i];
    assert forall d :: d in before ==> d in journal;
    FlatChannels(before);
    ChannelsOfConcat(FlatAnswers(before), inside);
    AllChannelsConcat(Processed(before), a);
  }

  /** Cutting the log inside the answers of entry `i`. */
  lemma SplitLog(journal: seq<Entry>, i: nat, inside: seq<Answer>, middle: seq<Answer>, tail: seq<Answer>)
    returns (post: seq<Answer>)
    requires i < |journal| && journal[i].answers == inside + middle + tail
    ensures FlatAnswers(journal) == FlatAnswers(journal[..i]) + inside + middle + post
  {
    var until := journal[..i + 1];
    assert until[..i] == journal[..i] && until[i] == journal[i];
    FlatAnswersPrefix(journal, i + 1);
    FourParts(FlatAnswers(journal[..i]), inside, middle, tail, FlatAnswers(journal), FlatAnswers(until));
    post := tail + FlatAnswers(journal)[|FlatAnswers(until)|..];
  }

  lemma PreJustified(journal: seq<Entry>, i: nat, inside: seq<Answer>, middle: seq<Answer>, tail: seq<Answer>)
    requires forall e :: e in journal ==> EntryAnswered(e)
    requires i < |journal| && journal[i].answers == inside + middle + tail
    ensures forall x :: x in FlatAnswers(journal[..i]) + inside && x.ok ==> Justified(journal[..i + 1], x.channel)
  {
    var until := journal[..i + 1];
    assert until[..i] == journal[..i] && until[i] == journal[i];
    assert forall d :: d in until ==> d in journal;
    OkIsJustified(until);
    PrefixMembers(FlatAnswers(journal[..i]), inside, middle, tail, FlatAnswers(until));
  }

  lemma PrefixMembers(p: seq<Answer>, q: seq<Answer>, m: seq<Answer>, t: seq<Answer>, upTo: seq<Answer>)
    requires upTo == p + (q + m + t)
    ensures forall x :: x in p + q ==> x in upTo
  {
    forall x | x in p + q ensures x in upTo {
      var i :| 0 <= i < |p + q| && (p + q)[i] == x;
      assert upTo[i] == x;
    }
  }

  lemma FourParts(p: seq<Answer>, q: seq<Answer>, m: seq<Answer>, t: seq<Answer>, whole: seq<Answer>, upTo: seq<Answer>)
    requires upTo == p + (q + m + t) && upTo <= whole
    ensures whole == (p + q) + m + (t + whole[|upTo|..])
  {
    assert whole == upTo + whole[|upTo|..];
  }

  // ---------------------------------------------------------------- nothing fails

  ghost predicate NoFaults(env: Env) { forall n :: !env.fails(n) }

  ghost predicate AllCommitted(journal: seq<Entry>) { forall e :: e in journal ==> e.committed }

  lemma {:induction false} CommittedIsProcessed(journal: seq<Entry>)
    requires AllCommitted(journal)
    ensures Committed(journal) == Processed(journal)
  {
    if journal != [] {
      var n := |journal| - 1;
      assert journal[n] in journal;
      assert forall e :: e in journal[..n] ==> e in journal;
      CommittedIsProcessed(journal[..n]);
    }
  }

  /** What a run without faults keeps while serial execution of the rest would succeed. */
  ghost predicate Smooth(env: Env, w: World, rest: seq<Command>) {
    && Synced(w) && AllCommitted(w.journal) && !w.stale
    && Serial(env, Snap(w.db, w.cell.cached.graph), rest).Some?
  }

  lemma AllCommittedGrows(journal: seq<Entry>, e: Entry)
    requires AllCommitted(journal) && e.committed
    ensures AllCommitted(journal + [e])
  {
  }

  lemma SmoothGroup(env: Env, w: World, cmds: seq<Command>, rest: seq<Command>)
    requires NoFaults(env) && Smooth(env, w, cmds + rest) && AllTransactional(cmds)
    ensures Smooth(env, Group(env, w, cmds), rest)
  {
    var g := w.cell.cached.graph;
    SerialConcat(env, Snap(w.db, g), cmds, rest);
    RunOpsMeansSerial(env, w.db, w.tick + 1, cmds, g);
    var (outcome, tick) := Transact(env, w.db, w.tick, cmds);
    PublishKeepsSync(w.(db := outcome.db, tick := tick), cmds);
    AllCommittedGrows(w.journal, Entry(cmds, true, GroupAnswers(cmds, outcome)));
  }

  lemma SmoothAlone(env: Env, w: World, c: Command, rest: seq<Command>)
    requires NoFaults(env) && Smooth(env, w, [c] + rest) && Standalone(c.op)
    ensures Smooth(env, Alone(env, w, c), rest)
  {
    assert ([c] + rest)[1..] == rest;
    if c.op.Execute? {
      JobFrame(env, w, c.op.job);
      JobCommits(env, w, c.op.job);
      JobMeansSerial(env, w, c.op.job, w.cell.cached.graph);
    }
    AllCommittedGrows(w.journal, Entry([c], true, Answers(Channels(c), true)));
  }

  lemma SmoothGroupIfAny(env: Env, w: World, pending: seq<Command>, rest: seq<Command>)
    requires NoFaults(env) && Smooth(env, w, pending + rest) && AllTransactional(pending)
    ensures Smooth(env, GroupIfAny(env, w, pending), rest)
  {
    if pending == [] { assert pending + rest == rest; } else { SmoothGroup(env, w, pending, rest); }
  }

  lemma {:induction false} SmoothBatch(env: Env, w: World, pending: seq<Command>, batch: seq<Command>, rest: seq<Command>)
    requires NoFaults(env) && Smooth(env, w, pending + (batch + rest)) && AllTransactional(pending)
    ensures Smooth(env, Batch(env, w, pending, batch), rest)
    decreases |batch|
  {
    if batch == [] {
      assert batch + rest == rest;
      SmoothGroupIfAny(env, w, pending, rest);
    } else if Standalone(batch[0].op) {
      var c, tail := batch[0], batch[1..];
      SmoothGroupIfAny(env, w, pending, batch + rest);
      SplitHead(batch, rest);
      SmoothAlone(env, GroupIfAny(env, w, pending), c, tail + rest);
      SmoothBatch(env, Alone(env, GroupIfAny(env, w, pending), c), [], tail, rest);
    } else {
      MoveHead(pending, batch, rest);
      SmoothBatch(env, w, pending + [batch[0]], batch[1..], rest);
    }
  }

  lemma SplitHead(batch: seq<Command>, rest: seq<Command>)
    requires batch != []
    ensures batch + rest == [batch[0]] + (batch[1..] + rest)
    ensures [] + (batch[1..] + rest) == batch[1..] + rest
  {
  }

  lemma MoveHead(pending: seq<Command>, batch: seq<Command>, rest: seq<Command>)
    requires batch != []
    ensures pending + (batch + rest) == (pending + [batch[0]]) + (batch[1..] + rest)
  {
  }

  lemma SmoothRound(env: Env, w: World, visible: nat, rest: seq<Command>)
    requires NoFaults(env) && Smooth(env, w, w.queue + rest)
    ensures Smooth(env, Round(env, w, visible), Round(env, w, visible).queue + rest)
  {
    if w.queue != [] {
      var n := Cut(w.queue, visible, 1);
      assert w.queue + rest == [] + (w.queue[..n] + (w.queue[n..] + rest));
      SmoothBatch(env, Dequeued(w, n), [], w.queue[..n], w.queue[n..] + rest);
      BatchTakes(env, Dequeued(w, n), [], w.queue[..n]);
    }
  }

  lemma {:induction false} SmoothRun(env: Env, w: World, steps: seq<Step>)
    requires NoFaults(env) && Smooth(env, w, w.queue + Sent(steps))
    ensures Smooth(env, Run(env, w, steps), Run(env, w, steps).queue)
    decreases |steps|
  {
    if steps == [] {
      assert w.queue + [] == w.queue;
    } else if steps[0].Send? {
      Assoc(w.queue, [steps[0].cmd], Sent(steps[1..]));
      SmoothRun(env, w.(queue := w.queue + [steps[0].cmd]), steps[1..]);
    } else {
      assert [] + Sent(steps[1..]) == Sent(steps[1..]);
      SmoothRound(env, w, steps[0].visible, Sent(steps[1..]));
      SmoothRun(env, Round(env, w, steps[0].visible), steps[1..]);
    }
  }

  /** Batching refines one-by-one execution: when nothing fails, then for every way the queue is cut
      into rounds, batches and groups, once the queue is empty the database and the published graph
      are those of applying all commands singly in the order they were sent. */
  lemma BatchingRefinesSerial(env: Env, db: Db, connected: bool, steps: seq<Step>)
    requires EnvOk(env) && NoFaults(env) && db.graph.ForeignKeys()
    requires Serial(env, StartSnap(env, db), Sent(steps)).Some?
    requires Run(env, Start(env, db, connected), steps).queue == []
    ensures var w := Run(env, Start(env, db, connected), steps);
      Serial(env, StartSnap(env, db), Sent(steps)) == Some(Snap(w.db, w.cell.cached.graph))
  {
    var s, w0 := StartSnap(env, db), Start(env, db, connected);
    assert [] + Sent(steps) == Sent(steps);
    SmoothRun(env, w0, steps);
    EveryRunRefines(env, db, connected, steps);
    var w := Run(env, w0, steps);
    CommittedIsProcessed(w.journal);
    assert Processed(w.journal) == Processed(w.journal) + w.queue;
    assert Serial(env, s, Committed(w.journal)) == Some(Snap(w.db, w.cell.cached.graph));
  }

  // ---------------------------------------------------------------- atomicity and barriers, per group

  /** A group is atomic.  It adds one entry whose answers are exact; when it does not commit, the
      database, the builder and the published graph are untouched. */
  lemma GroupIsAtomic(env: Env, w: World, cmds: seq<Command>)
    ensures var outcome := Transact(env, w.db, w.tick, cmds).0;
            var e := Entry(cmds, outcome.Done?, GroupAnswers(cmds, outcome));
            var after := Group(env, w, cmds);
      && after.journal == w.journal + [e] && after.log == w.log + e.answers && EntryAnswered(e)
      && (!outcome.Done? ==> (after.db, after.cell, after.builder) == (w.db, w.cell, w.builder))
      && (outcome.Done? ==> after.db == outcome.db)
  {
    var outcome := Transact(env, w.db, w.tick, cmds).0;
    GroupAnswered(cmds, outcome);
    assert !outcome.Done? ==> Group(env, w, cmds).db == w.db;
  }

  /** It commits if and only if its commands succeed one by one, whatever the graph, and none of the
      ticks it took failed. */
  lemma CommitsIffNothingFails(env: Env, db: Db, tick: nat, cmds: seq<Command>, g: Graph)
    requires AllTransactional(cmds)
    ensures var (outcome, end) := Transact(env, db, tick, cmds);
      outcome.Done? <==> Serial(env, Snap(db, g), cmds).Some? && Quiet(env, tick, end)
  {
    RunOpsMeansSerial(env, db, tick + 1, cmds, g);
  }

  // ---------------------------------------------------------------- the early answer

  /** Command `i` appends a session event and is the only one to answer on `c`. */
  ghost predicate AppendsOn(cmds: seq<Command>, i: nat, c: Channel) {
    && i < |cmds| && cmds[i].op.AppendSessionEvent? && cmds[i].reply == Some(c)
    && forall j :: 0 <= j < |cmds| && j != i ==> c !in Channels(cmds[j])
  }

  lemma {:induction false} EarlyIff(cmds: seq<Command>, c: Channel)
    ensures c in EarlyChannels(cmds) <==>
      exists j :: 0 <= j < |cmds| && cmds[j].op.AppendSessionEvent? && c in Channels(cmds[j])
  {
    if cmds != [] {
      EarlyIff(cmds[1..], c);
      if j :| 0 <= j < |cmds| && cmds[j].op.AppendSessionEvent? && c in Channels(cmds[j]) {
        if j > 0 { assert cmds[1..][j - 1] == cmds[j]; }
      }
      if j :| 0 <= j < |cmds[1..]| && cmds[1..][j].op.AppendSessionEvent? && c in Channels(cmds[1..][j]) {
        assert cmds[j + 1] == cmds[1..][j];
      }
    }
  }

  lemma {:induction false} NotLate(cmds: seq<Command>, c: Channel)
    requires forall j :: 0 <= j < |cmds| && c in Channels(cmds[j]) ==> cmds[j].op.AppendSessionEvent?
    ensures c !in LateChannels(cmds)
  {
    if cmds != [] {
      assert forall j :: 0 <= j < |cmds[1..]| ==> cmds[1..][j] == cmds[j + 1];
      NotLate(cmds[1..], c);
    }
  }

  lemma EarlyOfAppend(cmds: seq<Command>, i: nat, c: Channel, n: nat)
    requires AppendsOn(cmds, i, c) && n <= |cmds|
    ensures c in EarlyChannels(cmds[..n]) <==> i < n
  {
    EarlyIff(cmds[..n], c);
    if i < n { assert cmds[..n][i] == cmds[i]; }
  }

  /** However the transaction ends, that command was answered Ok exactly when it was executed with
      success: the loop got past it. */
  lemma AppendAnsweredOkIff(cmds: seq<Command>, o: Outcome, i: nat, c: Channel)
    requires AppendsOn(cmds, i, c) && (o.OpFailed? ==> o.index < |cmds|)
    ensures Answer(c, true) in GroupAnswers(cmds, o) <==> !o.BeginFailed? && (o.OpFailed? ==> i < o.index)
  {
    var n := if o.OpFailed? then o.index else |cmds|;
    assert cmds[..|cmds|] == cmds;
    EarlyOfAppend(cmds, i, c, n);
    NotLate(cmds, c);
    OkAnswersOf(cmds, o, c);
  }

  lemma OkAnswersOf(cmds: seq<Command>, o: Outcome, c: Channel)
    requires o.OpFailed? ==> o.index < |cmds|
    requires c !in LateChannels(cmds)
    ensures Answer(c, true) in GroupAnswers(cmds, o) <==>
      !o.BeginFailed? && c in EarlyChannels(if o.OpFailed? then cmds[..o.index] else cmds)
  {
    match o
    case BeginFailed => InAnswers(AllChannels(cmds), false);
    case OpFailed(k) => OkOnlyEarly(cmds, k, c);
    case CommitFailed =>
      InAnswers(EarlyChannels(cmds), true);
      InAnswers(LateChannels(cmds), false);
    case Done(_) =>
      InAnswers(EarlyChannels(cmds), true);
      InAnswers(LateChannels(cmds), true);
  }

  lemma OkOnlyEarly(cmds: seq<Command>, k: nat, c: Channel)
    requires k < |cmds|
    ensures Answer(c, true) in GroupAnswers(cmds, OpFailed(k)) <==> c in EarlyChannels(cmds[..k])
  {
    InAnswers(EarlyChannels(cmds[..k]), true);
    InAnswers(Channels(cmds[k]), false);
    InAnswers(LateChannels(cmds[..k]), false);
    InAnswers(AllChannels(cmds[k + 1..]), false);
  }

  /** Exactly when the early Ok of `AppendSessionEvent` is wrong: BEGIN and its own insert succeeded,
      and then a later command of its group or COMMIT failed.  The Ok is sent if and only if the group
      executed it; the event is stored if and only if the group committed. */
  lemma AppendOkIsWrongIff(env: Env, w: World, cmds: seq<Command>, i: nat, c: Channel, g: Graph)
    requires AppendsOn(cmds, i, c) && AllTransactional(cmds)
    ensures var e := GroupEntry(env, w, cmds); var (o, end) := Transact(env, w.db, w.tick, cmds);
      && (Answer(c, true) in e.answers <==> !env.fails(w.tick) && i < RunOps(env, w.db, w.tick + 1, cmds).done)
      && (e.committed <==> Serial(env, Snap(w.db, g), cmds).Some? && Quiet(env, w.tick, end))
      && (Answer(c, true) in e.answers && !e.committed <==> o.CommitFailed? || (o.OpFailed? && i < o.index))
      && (!e.committed ==> Group(env, w, cmds).db == w.db)
  {
    var (o, end) := Transact(env, w.db, w.tick, cmds);
    AppendAnsweredOkIff(cmds, o, i, c);
    CommitsIffNothingFails(env, w.db, w.tick, cmds, g);
  }

  /** It happens: a fresh actor is sent one session event and COMMIT fails. */
  lemma AppendAnswersTooEarly(db: Db) returns (env: Env, steps: seq<Step>)
    ensures EnvOk(env) && steps == [Send(Command(AppendSessionEvent("e"), Some(0), None)), Turn(1)]
    ensures var w := Run(env, Start(env, db, true), steps); Answer(0, true) in w.log && w.db == db
  {
    var c := Command(AppendSessionEvent("e"), Some(0), None);
    env := Env(n => n == 2, t => AnyOrder(t));
    forall t ensures IsRowOrder(t, env.rowOrder(t)) { AnyOrderIsRowOrder(t); }
    steps := [Send(c), Turn(1)];
    OneTransactional(env, db, c);
    OneAppendRun(env, db, "e", c);
    var w := Start(env, db, true);
    AppendOkIsWrongIff(env, w, [c], 0, 0, w.cell.cached.graph);
    assert Group(env, w, [c]).log == [] + GroupEntry(env, w, [c]).answers;
  }

  lemma OneAppendRun(env: Env, db: Db, payload: string, c: Command)
    requires c == Command(AppendSessionEvent(payload), Some(0), None) && !env.fails(0) && !env.fails(1) && env.fails(2)
    ensures Transact(env, db, 0, [c]) == (CommitFailed, 3)
  {
    var first := Apply(db, AppendEvent(payload)).value;
    assert [AppendEvent(payload)][1..] == [] && [c][1..] == [];
    assert RunStmts(env, first, 2, []) == StmtsRun(first, 2, true);
    assert RunStmts(env, db, 1, [AppendEvent(payload)]) == StmtsRun(first, 2, true);
    assert RunOps(env, first, 2, []) == OpsRun(first, 2, 0);
  }

  ghost function AnyOrder(t: Tables): seq<EdgeKey> { Enumerate(set k | k in t.edges && t.Live(k)) }

  ghost function Enumerate(s: set<EdgeKey>): seq<EdgeKey>
    decreases |s|
  {
    if s == {} then [] else var k :| k in s; [k] + Enumerate(s - {k})
  }

  lemma {:induction false} EnumerateAll(s: set<EdgeKey>)
    ensures forall k :: k in Enumerate(s) <==> k in s
    decreases |s|
  {
    if s != {} {
      var k :| k in s && Enumerate(s) == [k] + Enumerate(s - {k});
      EnumerateAll(s - {k});
    }
  }

  lemma AnyOrderIsRowOrder(t: Tables)
    ensures IsRowOrder(t, AnyOrder(t))
  {
    EnumerateAll(set k | k in t.edges && t.Live(k));
    forall i | 0 <= i < |AnyOrder(t)| ensures t.Live(AnyOrder(t)[i]) { assert AnyOrder(t)[i] in AnyOrder(t); }
  }

  lemma {:induction false} EarlyConcat(a: seq<Command>, b: seq<Command>)
    ensures EarlyChannels(a + b) == EarlyChannels(a) + EarlyChannels(b)
  {
    if a == [] {
      assert a + b == b;
    } else {
      var head := if a[0].op.AppendSessionEvent? then Channels(a[0]) else [];
      assert (a + b)[1..] == a[1..] + b;
      EarlyConcat(a[1..], b);
      ChannelsAssoc(head, EarlyChannels(a[1..]), EarlyChannels(b));
    }
  }

  lemma {:induction false} OnlyLateConcat(a: seq<Command>, b: seq<Command>)
    ensures LateChannels(a + b) == LateChannels(a) + LateChannels(b)
  {
    if a == [] {
      assert a + b == b;
    } else {
      var head := if a[0].op.AppendSessionEvent? then [] else Channels(a[0]);
      assert (a + b)[1..] == a[1..] + b;
      OnlyLateConcat(a[1..], b);
      ChannelsAssoc(head, LateChannels(a[1..]), LateChannels(b));
    }
  }

  lemma ChannelsAssoc(a: seq<Channel>, b: seq<Channel>, c: seq<Channel>)
    ensures a + (b + c) == (a + b) + c
  {
  }

  lemma LateConcat(a: seq<Command>, b: seq<Command>)
    ensures EarlyChannels(a + b) == EarlyChannels(a) + EarlyChannels(b)
    ensures LateChannels(a + b) == LateChannels(a) + LateChannels(b)
  {
    EarlyConcat(a, b);
    OnlyLateConcat(a, b);
  }

  lemma AnswersConcat(a: seq<Channel>, b: seq<Channel>, ok: bool)
    ensures Answers(a + b, ok) == Answers(a, ok) + Answers(b, ok)
  {
  }

  /** In a committed group every command before a `Flush` is answered before it. */
  lemma FlushBarrierInGroup(a: seq<Command>, f: Command, b: seq<Command>)
    returns (pre: seq<Answer>, post: seq<Answer>)
    requires f.op.Flush?
    ensures Answers(EarlyChannels(a + [f] + b), true) + Answers(LateChannels(a + [f] + b), true)
         == pre + Answers(Channels(f), true) + post
    ensures multiset(AllChannels(a)) <= multiset(ChannelsOf(pre))
  {
    var early, late, own := Answers(EarlyChannels(a + [f] + b), true), Answers(LateChannels(a), true), Answers(Channels(f), true);
    pre, post := early + late, Answers(LateChannels(b), true);
    LateSplit(a, f, b);
    Assoc4(early, late, own, post);
    PreCovers(a, f, b);
  }

  lemma Assoc4(p: seq<Answer>, q: seq<Answer>, r: seq<Answer>, t: seq<Answer>)
    ensures p + (q + r + t) == (p + q) + r + t
  {
  }

  lemma LateSplit(a: seq<Command>, f: Command, b: seq<Command>)
    requires f.op.Flush?
    ensures Answers(LateChannels(a + [f] + b), true)
         == Answers(LateChannels(a), true) + Answers(Channels(f), true) + Answers(LateChannels(b), true)
  {
    var x, y, z := LateChannels(a), Channels(f), LateChannels(b);
    LateConcat(a + [f], b);
    LateConcat(a, [f]);
    OneCommand(f);
    assert LateChannels(a + [f] + b) == x + y + z;
    AnswersConcat(x + y, z, true);
    AnswersConcat(x, y, true);
  }

  lemma PreCovers(a: seq<Command>, f: Command, b: seq<Command>)
    ensures multiset(AllChannels(a)) <=
      multiset(ChannelsOf(Answers(EarlyChannels(a + [f] + b), true) + Answers(LateChannels(a), true)))
  {
    var early, late := Answers(EarlyChannels(a + [f] + b), true), Answers(LateChannels(a), true);
    ChannelsOfConcat(early, late);
    ChannelsOfAnswers(EarlyChannels(a + [f] + b), true);
    ChannelsOfAnswers(LateChannels(a), true);
    EarlyAndLate(a);
    LateConcat(a + [f], b);
    LateConcat(a, [f]);
  }
}
