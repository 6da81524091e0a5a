/** The single-writer actor, as functions on values (liva-native-core/src/db_actor.rs).

    Every SQL statement, BEGIN, COMMIT, checkpoint, connection checkout and graph rebuild takes one
    tick of a clock, and `Env.fails` says which of them fail; results hold for every such oracle.
    ROLLBACK is taken to succeed. */
module WriterSpec {
  import opened Wrappers
  import opened GraphTables

  // ---------------------------------------------------------------- database

  datatype Row = Row(value: string, count: nat)

  /** `rows` holds every table but the graph and the session log, by (table, primary key). */
  datatype Db = Db(graph: Tables, rows: map<(string, string), Row>, sessionEvents: seq<string>)

  datatype Stmt =
    | Node(id: string, name: string)
    | Edge(edge: EdgeKey, weight: real)
    | Replace(table: string, key: string, value: string)
    | Insert(table: string, key: string, value: string)
    | Bump(table: string, key: string, value: string)
    | AppendEvent(payload: string)

  /** One statement; `None` is a constraint violation. */
  function Apply(db: Db, s: Stmt): Option<Db> {
    match s
    case Node(id, name) => Some(db.(graph := db.graph.UpsertNode(id, name)))
    case Edge(k, w) =>
      var g := db.graph.UpsertEdge(k, w);
      if g.None? then None else Some(db.(graph := g.value))
    case Replace(t, k, v) => Some(db.(rows := db.rows[(t, k) := Row(v, 0)]))
    case Insert(t, k, v) =>
      if (t, k) in db.rows then None else Some(db.(rows := db.rows[(t, k) := Row(v, 0)]))
    case Bump(t, k, v) =>
      if (t, k) in db.rows then Some(db.(rows := db.rows[(t, k) := Row(v, db.rows[(t, k)].count + 1)])) else Some(db)
    case AppendEvent(p) => Some(db.(sessionEvents := db.sessionEvents + [p]))
  }

  function ApplyAll(db: Db, ss: seq<Stmt>): Option<Db>
    decreases |ss|
  {
    if ss == [] then Some(db)
    else
      var next := Apply(db, ss[0]);
      if next.None? then None else ApplyAll(next.value, ss[1..])
  }

  // ---------------------------------------------------------------- commands

  /** The closures run by `Execute`: some other write, or one batch of the projection consumer that
      extracted these triples and then rebuilds the shared graph. */
  datatype Job = Store(table: string, key: string, value: string) | Project(triples: seq<Triple>)

  datatype Op =
    | PersistTurn(id: string, content: string)
    | PersistTurnsBatch(turns: seq<(string, string)>)
    | Execute(job: Job)
    | CheckpointWal
    | ReinforceMemories(ids: seq<string>, now: string)
    | SaveAgentCheckpoint(thread: string, state: string)
    | UpdateFactRecallStats(fact: string, stats: string)
    | TouchFactAccess(fact: string, now: string)
    | Flush
    | InsertL3Triple(triple: Triple)
    | InsertL3TriplesBatch(triples: seq<Triple>)
    | InsertL3Node(node: string, name: string)
    | InsertL3Edge(edge: EdgeKey, weight: real)
    | AppendSessionEvent(payload: string)

  type Channel = nat

  datatype Command = Command(op: Op, reply: Option<Channel>, sync: Option<Channel>)

  datatype Answer = Answer(channel: Channel, ok: bool)

  function AsSeq(c: Option<Channel>): seq<Channel> { if c.None? then [] else [c.value] }

  /** The reply channels a command really carries. */
  function Channels(c: Command): seq<Channel> {
    if c.op.ReinforceMemories? then []
    else if c.op.Flush? || c.op.InsertL3Node? || c.op.InsertL3Edge? then AsSeq(c.reply) + AsSeq(c.sync)
    else AsSeq(c.reply)
  }

  function TripleStmts(t: Triple): seq<Stmt> {
    [Node(t.subject, t.subject), Node(t.obj, t.obj), Edge(EdgeKey(t.subject, t.obj, t.relation), t.weight)]
  }

  function TriplesStmts(ts: seq<Triple>): seq<Stmt> {
    if ts == [] then [] else TripleStmts(ts[0]) + TriplesStmts(ts[1..])
  }

  function TurnStmts(turns: seq<(string, string)>): seq<Stmt> {
    if turns == [] then []
    else [Insert("events", turns[0].0, "pending"), Replace("vectors_meta", turns[0].0, turns[0].1)] + TurnStmts(turns[1..])
  }

  function BumpStmts(ids: seq<string>, now: string): seq<Stmt> {
    seq(|ids|, i requires 0 <= i < |ids| => Bump("vectors_meta", ids[i], now))
  }

  /** The statements `execute_write_operation` sends for a command inside a transaction. */
  function Statements(op: Op): seq<Stmt> {
    match op
    case PersistTurn(id, content) => TurnStmts([(id, content)])
    case PersistTurnsBatch(turns) => TurnStmts(turns)
    case ReinforceMemories(ids, now) => BumpStmts(ids, now)
    case SaveAgentCheckpoint(thread, state) => [Replace("agent_checkpoints", thread, state)]
    case UpdateFactRecallStats(fact, stats) => [Bump("facts", fact, stats)]
    case TouchFactAccess(fact, now) => [Bump("facts", fact, now)]
    case InsertL3Triple(t) => TripleStmts(t)
    case InsertL3TriplesBatch(ts) => TriplesStmts(ts)
    case InsertL3Node(id, name) => [Node(id, name)]
    case InsertL3Edge(k, w) => [Edge(k, w)]
    case AppendSessionEvent(p) => [AppendEvent(p)]
    case Flush => []
    case CheckpointWal => []
    case Execute(_) => []
  }

  /** The graph mutation a succeeded command leaves behind; replayed after COMMIT. */
  predicate Mutates(op: Op) { op.InsertL3Triple? || op.InsertL3TriplesBatch? || op.InsertL3Node? || op.InsertL3Edge? }

  function Mutate(g: Graph, op: Op): Graph {
    match op
    case InsertL3Triple(t) => g.AddTriple(t)
    case InsertL3TriplesBatch(ts) => g.AddTriples(ts)
    case InsertL3Node(id, name) => g.AddNode(id, name)
    case InsertL3Edge(k, w) => g.AddEdge(k, w)
    case _ => g
  }

  function MutateAll(g: Graph, cmds: seq<Command>): Graph
    decreases |cmds|
  {
    if cmds == [] then g else MutateAll(Mutate(g, cmds[0].op), cmds[1..])
  }

  // ---------------------------------------------------------------- the actor's state

  datatype Env = Env(fails: nat -> bool, rowOrder: Tables -> seq<EdgeKey>)

  ghost predicate EnvOk(env: Env) {
    forall t :: IsRowOrder(t, env.rowOrder(t))
  }

  /** A compiled graph; only one that kept its adjacency lists can be extended. */
  datatype Cached = Cached(graph: Graph, extendable: bool)

  /** What the shared cell holds: an allocation identity and the graph behind it. */
  datatype Slot = Slot(arc: nat, cached: Cached)

  /** The history of one transaction group or standalone command. */
  datatype Entry = Entry(cmds: seq<Command>, committed: bool, answers: seq<Answer>)

  datatype World = World(
    queue: seq<Command>, connected: bool, db: Db, tick: nat,
    builder: Cached, cell: Slot, lastStored: nat, nextArc: nat,
    log: seq<Answer>, journal: seq<Entry>, stale: bool)

  function Record(w: World, e: Entry): World {
    w.(log := w.log + e.answers, journal := w.journal + [e])
  }

  // ---------------------------------------------------------------- one transaction group

  datatype StmtsRun = StmtsRun(db: Db, tick: nat, ok: bool)

  function RunStmts(env: Env, db: Db, tick: nat, ss: seq<Stmt>): StmtsRun
    decreases |ss|
  {
    if ss == [] then StmtsRun(db, tick, true)
    else if env.fails(tick) || Apply(db, ss[0]).None? then StmtsRun(db, tick + 1, false)
    else RunStmts(env, Apply(db, ss[0]).value, tick + 1, ss[1..])
  }

  /** `done` commands succeeded; the run stopped early when it is less than |cmds|. */
  datatype OpsRun = OpsRun(db: Db, tick: nat, done: nat)

  function RunOps(env: Env, db: Db, tick: nat, cmds: seq<Command>): (r: OpsRun)
    ensures r.done <= |cmds|
    decreases |cmds|
  {
    if cmds == [] then OpsRun(db, tick, 0)
    else
      var first := RunStmts(env, db, tick, Statements(cmds[0].op));
      if !first.ok then OpsRun(first.db, first.tick, 0)
      else
        var rest := RunOps(env, first.db, first.tick, cmds[1..]);
        rest.(done := rest.done + 1)
  }

  function Answers(channels: seq<Channel>, ok: bool): seq<Answer> {
    seq(|channels|, i requires 0 <= i < |channels| => Answer(channels[i], ok))
  }

  /** Sent while the transaction is still open: only `AppendSessionEvent` does this. */
  function EarlyChannels(cmds: seq<Command>): seq<Channel> {
    if cmds == [] then []
    else (if cmds[0].op.AppendSessionEvent? then Channels(cmds[0]) else []) + EarlyChannels(cmds[1..])
  }

  /** Sent from the pending notifications, in queue order. */
  function LateChannels(cmds: seq<Command>): seq<Channel> {
    if cmds == [] then []
    else (if cmds[0].op.AppendSessionEvent? then [] else Channels(cmds[0])) + LateChannels(cmds[1..])
  }

  function AllChannels(cmds: seq<Command>): seq<Channel> {
    if cmds == [] then [] else Channels(cmds[0]) + AllChannels(cmds[1..])
  }

  /** How a transaction ends; `OpFailed` names the index of the failing command. */
  datatype Outcome = BeginFailed | OpFailed(index: nat) | CommitFailed | Done(db: Db)

  function Transact(env: Env, db: Db, tick: nat, cmds: seq<Command>): (r: (Outcome, nat))
    ensures r.0.OpFailed? ==> r.0.index < |cmds|
  {
    if env.fails(tick) then (BeginFailed, tick + 1)
    else
      var run := RunOps(env, db, tick + 1, cmds);
      if run.done < |cmds| then (OpFailed(run.done), run.tick)
      else if env.fails(run.tick) then (CommitFailed, run.tick + 1)
      else (Done(run.db), run.tick + 1)
  }

  /** Every answer of a group, in the order sent.  After a failing operation: the failing command
      first, then those before it, then those never tried. */
  function GroupAnswers(cmds: seq<Command>, o: Outcome): seq<Answer>
    requires o.OpFailed? ==> o.index < |cmds|
  {
    match o
    case BeginFailed => Answers(AllChannels(cmds), false)
    case OpFailed(i) =>
      Answers(EarlyChannels(cmds[..i]), true) + Answers(Channels(cmds[i]), false)
      + Answers(LateChannels(cmds[..i]), false) + Answers(AllChannels(cmds[i + 1..]), false)
    case CommitFailed => Answers(EarlyChannels(cmds), true) + Answers(LateChannels(cmds), false)
    case Done(_) => Answers(EarlyChannels(cmds), true) + Answers(LateChannels(cmds), true)
  }

  predicate AnyMutation(cmds: seq<Command>) { exists i :: 0 <= i < |cmds| && Mutates(cmds[i].op) }

  /** The builder the mutations are applied to: re-synchronised when somebody else has stored. */
  function Base(w: World): Cached {
    if w.lastStored != w.cell.arc then w.cell.cached else w.builder
  }

  function Publish(w: World, cmds: seq<Command>): World {
    if !AnyMutation(cmds) then w
    else
      var g := MutateAll(Base(w).graph, cmds);
      w.(builder := Cached(g, true), cell := Slot(w.nextArc, Cached(g, false)),
         lastStored := w.nextArc, nextArc := w.nextArc + 1)
  }

  function GroupEntry(env: Env, w: World, cmds: seq<Command>): (e: Entry)
    ensures e.cmds == cmds
  {
    var outcome := Transact(env, w.db, w.tick, cmds).0;
    Entry(cmds, outcome.Done?, GroupAnswers(cmds, outcome))
  }

  /** The actor after the transaction, before the answers are recorded. */
  function GroupState(env: Env, w: World, cmds: seq<Command>): (after: World)
    ensures after.journal == w.journal && after.log == w.log && after.queue == w.queue
  {
    var (outcome, tick) := Transact(env, w.db, w.tick, cmds);
    if outcome.Done? then Publish(w.(db := outcome.db, tick := tick), cmds) else w.(tick := tick)
  }

  function Group(env: Env, w: World, cmds: seq<Command>): World {
    Record(GroupState(env, w, cmds), GroupEntry(env, w, cmds))
  }

  // ---------------------------------------------------------------- standalone commands

  predicate Standalone(op: Op) { op.CheckpointWal? || op.Execute? }

  function JobStmts(job: Job): seq<Stmt> {
    match job
    case Store(t, k, v) => [Replace(t, k, v)]
    case Project(ts) => TriplesStmts(ts)
  }

  /** The consumer's rebuild after a batch that extracted triples: a failure leaves the cell alone. */
  function Rebuild(env: Env, w: World, job: Job): World {
    if job.Store? || job.triples == [] then w
    else if env.fails(w.tick) then w.(tick := w.tick + 1, stale := true)
    else
      w.(tick := w.tick + 1, stale := false, nextArc := w.nextArc + 1,
         cell := Slot(w.nextArc, Cached(FromTables(w.db.graph, env.rowOrder(w.db.graph)), true)))
  }

  /** A job runs in its own transaction: BEGIN, statements, COMMIT, or nothing. */
  function RunJob(env: Env, w: World, job: Job): (World, bool) {
    if env.fails(w.tick) then (w.(tick := w.tick + 1), false)
    else
      var run := RunStmts(env, w.db, w.tick + 1, JobStmts(job));
      if !run.ok then (w.(tick := run.tick), false)
      else if env.fails(run.tick) then (w.(tick := run.tick + 1), false)
      else (Rebuild(env, w.(db := run.db, tick := run.tick + 1), job), true)
  }

  function Alone(env: Env, w: World, c: Command): World
    requires Standalone(c.op)
  {
    var (after, ok) :=
      if c.op.CheckpointWal? then (w.(tick := w.tick + 1), !env.fails(w.tick))
      else RunJob(env, w, c.op.job);
    Record(after, Entry([c], ok, Answers(Channels(c), ok)))
  }

  // ---------------------------------------------------------------- batches and rounds

  function GroupIfAny(env: Env, w: World, pending: seq<Command>): World {
    if pending == [] then w else Group(env, w, pending)
  }

  /** `process_write_batch`: groups are cut around standalone commands. */
  function Batch(env: Env, w: World, pending: seq<Command>, batch: seq<Command>): World
    decreases |batch|
  {
    if batch == [] then GroupIfAny(env, w, pending)
    else if Standalone(batch[0].op) then
      Batch(env, Alone(env, GroupIfAny(env, w, pending), batch[0]), [], batch[1..])
    else Batch(env, w, pending + [batch[0]], batch[1..])
  }

  const MAX_BATCH := 50

  predicate EndsBatch(c: Command) { c.op.Flush? || c.op.Execute? }

  /** How many commands a round drains when `visible` of them can be received without waiting:
      at most 50, and none past the first `Flush` or `Execute`. */
  function Cut(queue: seq<Command>, visible: nat, taken: nat): (n: nat)
    requires 1 <= taken <= |queue|
    ensures taken <= n <= |queue|
    decreases |queue| - taken
  {
    if EndsBatch(queue[taken - 1]) || taken >= MAX_BATCH || taken >= visible || taken >= |queue| then taken
    else Cut(queue, visible, taken + 1)
  }

  function Min(a: nat, b: nat): nat { if a < b then a else b }

  /** One turn of the actor's loop; with no connection everything visible is rejected. */
  function Round(env: Env, w: World, visible: nat): World {
    if w.queue == [] then w
    else if !w.connected && env.fails(w.tick) then
      var n := Min(|w.queue|, if visible == 0 then 1 else visible);
      Record(w.(queue := w.queue[n..], tick := w.tick + 1),
             Entry(w.queue[..n], false, Answers(AllChannels(w.queue[..n]), false)))
    else
      var n := Cut(w.queue, visible, 1);
      var ready := w.(queue := w.queue[n..], connected := true, tick := if w.connected then w.tick else w.tick + 1);
      Batch(env, ready, [], w.queue[..n])
  }

  datatype Step = Send(cmd: Command) | Turn(visible: nat)

  function Run(env: Env, w: World, steps: seq<Step>): World
    decreases |steps|
  {
    if steps == [] then w
    else
      match steps[0]
      case Send(c) => Run(env, w.(queue := w.queue + [c]), steps[1..])
      case Turn(visible) => Run(env, Round(env, w, visible), steps[1..])
  }

  function Sent(steps: seq<Step>): seq<Command> {
    if steps == [] then []
    else (if steps[0].Send? then [steps[0].cmd] else []) + Sent(steps[1..])
  }

  /** A fresh actor: builder and cell both come from the tables, the snapshot the actor remembers
      is a third allocation. */
  function Start(env: Env, db: Db, connected: bool): World {
    var g := FromTables(db.graph, env.rowOrder(db.graph));
    World([], connected, db, 0, Cached(g, true), Slot(0, Cached(g, true)), 1, 2, [], [], false)
  }
}
