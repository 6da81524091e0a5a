/** First-boot key agreement (liva-native-core/src/keystore.rs 180-238): any number of processes race on
    exists / generate / create_new / write / read back, one step at a time. */
module KeyAgreement {
  import opened Wrappers

  type Bytes = seq<int>

  datatype KeyError = Locked | Io | Dpapi

  datatype Answer = Ok(secret: Bytes, generated: bool) | Err(error: KeyError)

  /** The unsealing primitive and the length of the secret. */
  datatype Env = Env(unseal: Bytes -> Option<Bytes>, len: nat)

  /** Read, unseal, check the length. */
  function Open(env: Env, content: Bytes): Answer {
    match env.unseal(content)
    case None => Err(Locked)
    case Some(raw) => if |raw| != env.len then Err(Locked) else Ok(raw, false)
  }

  /** The file content opens to this secret: unsealing gives it and it has the right length. */
  ghost predicate OpensTo(env: Env, content: Bytes, raw: Bytes) {
    env.unseal(content) == Some(raw) && |raw| == env.len
  }

  lemma OpenIff(env: Env, content: Bytes, raw: Bytes)
    ensures Open(env, content) == Ok(raw, false) <==> OpensTo(env, content, raw)
    ensures Open(env, content) == Err(Locked) <==> env.unseal(content).None? || |env.unseal(content).value| != env.len
    ensures Open(env, content).Ok? ==> OpensTo(env, content, Open(env, content).secret)
  {
  }

  /** What is assumed of sealing: the blob unseals to the secret and none of its strict prefixes to
      anything of that length. */
  ghost predicate GoodSeal(env: Env, raw: Bytes, blob: Bytes) {
    && OpensTo(env, blob, raw)
    && forall k, other :: 0 <= k < |blob| ==> !OpensTo(env, blob[..k], other)
  }

  lemma PrefixDoesNotOpen(env: Env, raw: Bytes, blob: Bytes, k: nat)
    requires GoodSeal(env, raw, blob) && k < |blob|
    ensures Open(env, blob[..k]).Err?
  {
    OpenIff(env, blob[..k], if Open(env, blob[..k]).Ok? then Open(env, blob[..k]).secret else []);
  }

  // ---------------------------------------------------------------- the protocol

  /** Where one call of `load_or_create_sealed` stands. */
  datatype Phase =
    | Start
    | Found
    | Absent
    | Sealed(raw: Bytes, blob: Bytes)
    | Writing(raw: Bytes, blob: Bytes, written: nat)
    | LostRace
    | Finished(answer: Answer)

  /** Who created the file, and with what. */
  datatype Maker = Maker(call: nat, raw: Bytes, blob: Bytes)

  datatype World = World(file: Option<Bytes>, calls: seq<Phase>, maker: Option<Maker>)

  /** One step of call `p`; `ok == false` is an I/O error.  `exists()` may overlook a file. */
  datatype Step =
    | Probe(p: nat, ok: bool)
    | Draw(p: nat, raw: Bytes, blob: Option<Bytes>)
    | Create(p: nat, ok: bool)
    | Write(p: nat, count: nat)
    | Sync(p: nat, ok: bool)
    | Read(p: nat, ok: bool)

  /** The draws of a run are sealed properly. */
  ghost predicate GoodStep(env: Env, s: Step) {
    s.Draw? && s.blob.Some? ==> GoodSeal(env, s.raw, s.blob.value)
  }

  function Least(a: nat, b: nat): nat { if a < b then a else b }

  function Moved(w: World, p: nat, phase: Phase): World
    requires p < |w.calls|
  {
    w.(calls := w.calls[p := phase])
  }

  /** A step the call is not ready for does nothing; so does one after a crash. */
  function Next(env: Env, w: World, s: Step): World {
    if s.p >= |w.calls| then w
    else
      var p, at := s.p, w.calls[s.p];
      match s
      case Probe(_, ok) =>
        if !at.Start? then w else Moved(w, p, if w.file.Some? && ok then Found else Absent)
      case Draw(_, raw, blob) =>
        if !at.Absent? then w
        else Moved(w, p, if blob.None? then Finished(Err(Dpapi)) else Sealed(raw, blob.value))
      case Create(_, ok) =>
        if !at.Sealed? then w
        else if !ok then Moved(w, p, Finished(Err(Io)))
        else if w.file.Some? then Moved(w, p, LostRace)
        else Moved(w.(file := Some([]), maker := Some(Maker(p, at.raw, at.blob))), p, Writing(at.raw, at.blob, 0))
      case Write(_, count) =>
        if !at.Writing? || w.file.None? || at.written >= |at.blob| then w
        else if count == 0 then Moved(w, p, Finished(Err(Io)))
        else
          var n := at.written + Least(count, |at.blob| - at.written);
          Moved(w.(file := Some(w.file.value + at.blob[at.written..n])), p, at.(written := n))
      case Sync(_, ok) =>
        if !at.Writing? || at.written < |at.blob| then w
        else Moved(w, p, Finished(if ok then Ok(at.raw, true) else Err(Io)))
      case Read(_, ok) =>
        if !(at.Found? || at.LostRace?) then w
        else Moved(w, p, Finished(if !ok || w.file.None? then Err(Io) else Open(env, w.file.value)))
  }

  function Run(env: Env, w: World, steps: seq<Step>): World
    decreases |steps|
  {
    if steps == [] then w else Run(env, Next(env, w, steps[0]), steps[1..])
  }

  function Boot(original: Option<Bytes>, n: nat): World {
    World(original, seq(n, i => Start), None)
  }

  // ---------------------------------------------------------------- the invariant

  /** What is on disk: the original file, nothing, or a prefix of the one created blob. */
  ghost predicate DiskOk(env: Env, original: Option<Bytes>, w: World) {
    && (original.Some? ==> w.file == original && w.maker.None?)
    && (original.None? && w.maker.None? ==> w.file.None?)
    && (w.maker.Some? ==> w.maker.value.call < |w.calls| && w.file.Some? && w.file.value <= w.maker.value.blob
                          && GoodSeal(env, w.maker.value.raw, w.maker.value.blob))
  }

  ghost predicate CallOk(env: Env, w: World, p: nat, at: Phase) {
    match at
    case Sealed(raw, blob) => GoodSeal(env, raw, blob)
    case Writing(raw, blob, written) =>
      w.maker == Some(Maker(p, raw, blob)) && written <= |blob| && w.file == Some(blob[..written])
    case Finished(Ok(secret, generated)) =>
      && w.file.Some? && Open(env, w.file.value) == Ok(secret, false)
      && (generated ==> w.maker.Some? && w.maker.value.call == p)
    case _ => true
  }

  ghost predicate Inv(env: Env, original: Option<Bytes>, w: World) {
    DiskOk(env, original, w) && forall p :: 0 <= p < |w.calls| ==> CallOk(env, w, p, w.calls[p])
  }

  /** A step appends to the file or leaves it; a file that opens is complete and is left alone. */
  ghost predicate Extends(env: Env, w: World, u: World) {
    && |u.calls| == |w.calls|
    && (w.file.Some? ==> u.file.Some? && w.file.value <= u.file.value)
    && (w.file.Some? && Open(env, w.file.value).Ok? ==> u.file == w.file)
    && (w.maker.Some? ==> u.maker == w.maker)
    && (forall p :: 0 <= p < |w.calls| && w.calls[p].Finished? ==> u.calls[p] == w.calls[p])
  }

  /** Another call's state survives as long as the file and its maker do. */
  lemma OthersStayOk(env: Env, w: World, u: World, p: nat)
    requires |u.calls| == |w.calls| && forall q :: 0 <= q < |w.calls| && q != p ==> u.calls[q] == w.calls[q]
    requires forall q :: 0 <= q < |w.calls| ==> CallOk(env, w, q, w.calls[q])
    requires w.maker.Some? ==> u.maker == w.maker
    requires u.file == w.file || (u.file.Some? && u.maker.Some? && u.maker.value.call == p
                                  && (w.file.None? || Open(env, w.file.value).Err?))
    requires w.maker.None? && u.maker.Some? ==> w.file.None?
    ensures forall q :: 0 <= q < |u.calls| && q != p ==> CallOk(env, u, q, u.calls[q])
  {
  }

  lemma WriteStep(env: Env, original: Option<Bytes>, w: World, p: nat, count: nat)
    requires Inv(env, original, w) && p < |w.calls| && w.calls[p].Writing? && w.calls[p].written < |w.calls[p].blob| && count > 0
    ensures Inv(env, original, Next(env, w, Write(p, count))) && Extends(env, w, Next(env, w, Write(p, count)))
  {
    var u, at := Next(env, w, Write(p, count)), w.calls[p];
    assert CallOk(env, w, p, at);
    var n := at.written + Least(count, |at.blob| - at.written);
    assert at.blob[..at.written] + at.blob[at.written..n] == at.blob[..n];
    assert u.calls[p] == at.(written := n) && u.file == Some(at.blob[..n]);
    assert at.blob[..at.written] <= at.blob[..n];
    PrefixDoesNotOpen(env, at.raw, at.blob, at.written);
    OthersStayOk(env, w, u, p);
  }

  lemma CreateStep(env: Env, original: Option<Bytes>, w: World, p: nat)
    requires Inv(env, original, w) && p < |w.calls| && w.calls[p].Sealed? && w.file.None?
    ensures Inv(env, original, Next(env, w, Create(p, true))) && Extends(env, w, Next(env, w, Create(p, true)))
  {
    var u, at := Next(env, w, Create(p, true)), w.calls[p];
    assert CallOk(env, w, p, at);
    assert at.blob[..0] == [];
    OthersStayOk(env, w, u, p);
  }

  /** Every other step leaves the file alone. */
  lemma QuietStep(env: Env, original: Option<Bytes>, w: World, p: nat, phase: Phase)
    requires Inv(env, original, w) && p < |w.calls| && CallOk(env, w, p, phase) && !w.calls[p].Finished?
    ensures Inv(env, original, Moved(w, p, phase)) && Extends(env, w, Moved(w, p, phase))
  {
    OthersStayOk(env, w, Moved(w, p, phase), p);
  }

  lemma StepKeepsInv(env: Env, original: Option<Bytes>, w: World, s: Step)
    requires Inv(env, original, w) && GoodStep(env, s)
    ensures Inv(env, original, Next(env, w, s)) && Extends(env, w, Next(env, w, s))
  {
    var u := Next(env, w, s);
    if u == w || s.p >= |w.calls| {
    } else if s.Write? && s.count > 0 {
      WriteStep(env, original, w, s.p, s.count);
    } else if s.Create? && s.ok && w.file.None? {
      CreateStep(env, original, w, s.p);
    } else {
      assert CallOk(env, w, s.p, w.calls[s.p]);
      if s.Sync? { assert w.calls[s.p].blob[..w.calls[s.p].written] == w.calls[s.p].blob; }
      QuietStep(env, original, w, s.p, u.calls[s.p]);
    }
  }

  lemma {:induction false} RunKeepsInv(env: Env, original: Option<Bytes>, w: World, steps: seq<Step>)
    requires Inv(env, original, w) && forall s :: s in steps ==> GoodStep(env, s)
    ensures Inv(env, original, Run(env, w, steps)) && Extends(env, w, Run(env, w, steps))
    decreases |steps|
  {
    if steps != [] {
      StepKeepsInv(env, original, w, steps[0]);
      RunKeepsInv(env, original, Next(env, w, steps[0]), steps[1..]);
    }
  }

  // ---------------------------------------------------------------- theorems

  ghost predicate Answered(w: World, p: nat, secret: Bytes, generated: bool) {
    p < |w.calls| && w.calls[p] == Finished(Ok(secret, generated))
  }

  /** For any number of calls, any interleaving, any crashes and I/O errors, and whatever file was
      there before: all calls that succeed return the same secret, the one the file on disk opens to;
      at most one reports that it generated it; a file that was there is untouched and nobody
      generates. */
  lemma FirstBootAgreement(env: Env, original: Option<Bytes>, n: nat, steps: seq<Step>)
    requires forall s :: s in steps ==> GoodStep(env, s)
    ensures var w := Run(env, Boot(original, n), steps);
      && (forall p: nat, q: nat, s, t, g, h :: Answered(w, p, s, g) && Answered(w, q, t, h) ==> s == t && (g && h ==> p == q))
      && (forall p: nat, s, g :: Answered(w, p, s, g) ==> w.file.Some? && OpensTo(env, w.file.value, s))
      && (original.Some? ==> w.file == original && forall p: nat, s, g :: Answered(w, p, s, g) ==> !g)
  {
    RunKeepsInv(env, original, Boot(original, n), steps);
    OkMeansItOpens(env, original, Run(env, Boot(original, n), steps));
  }

  /** A call that has found the file, or lost the race for it, gets the secret of whoever succeeded. */
  lemma ReaderGetsTheSecret(env: Env, original: Option<Bytes>, n: nat, steps: seq<Step>, p: nat, q: nat, s: Bytes, g: bool)
    requires forall x :: x in steps ==> GoodStep(env, x)
    requires var w := Run(env, Boot(original, n), steps);
      Answered(w, q, s, g) && p < |w.calls| && (w.calls[p].Found? || w.calls[p].LostRace?)
    ensures Answered(Run(env, Run(env, Boot(original, n), steps), [Read(p, true)]), p, s, false)
  {
    FirstBootAgreement(env, original, n, steps);
    ReadReturns(env, Run(env, Boot(original, n), steps), p, s);
  }

  /** Reading back gives the secret the file opens to, and a locked error when it does not open. */
  lemma ReadReturns(env: Env, w: World, p: nat, s: Bytes)
    requires w.file.Some? && p < |w.calls| && (w.calls[p].Found? || w.calls[p].LostRace?)
    ensures var u := Run(env, w, [Read(p, true)]);
      && (OpensTo(env, w.file.value, s) ==> Answered(u, p, s, false))
      && ((forall raw :: !OpensTo(env, w.file.value, raw)) ==> p < |u.calls| && u.calls[p] == Finished(Err(Locked)))
  {
    RunOne(env, w, Read(p, true));
    OpenIff(env, w.file.value, s);
    if Open(env, w.file.value).Ok? { OpenIff(env, w.file.value, Open(env, w.file.value).secret); }
  }

  lemma RunOne(env: Env, w: World, s: Step)
    ensures Run(env, w, [s]) == Next(env, w, s)
  {
    assert [s][1..] == [];
  }

  lemma RunCons(env: Env, w: World, s: Step, rest: seq<Step>)
    ensures Run(env, w, [s] + rest) == Run(env, Next(env, w, s), rest)
  {
    assert ([s] + rest)[1..] == rest;
  }

  /** A fresh call on a file that opens returns its secret without touching it, even when it first
      overlooks the file and tries to create it. */
  lemma LaterCallFindsTheSecret(env: Env, w: World, p: nat, s: Bytes, raw: Bytes, blob: Bytes)
    requires p < |w.calls| && w.calls[p].Start? && w.file.Some? && OpensTo(env, w.file.value, s)
    ensures var u := Run(env, w, [Probe(p, true)] + [Read(p, true)]); Answered(u, p, s, false) && u.file == w.file
    ensures var u := Run(env, w, [Probe(p, false)] + ([Draw(p, raw, Some(blob))] + ([Create(p, true)] + [Read(p, true)])));
      Answered(u, p, s, false) && u.file == w.file
  {
    RunCons(env, w, Probe(p, true), [Read(p, true)]);
    var found := Next(env, w, Probe(p, true));
    RunOne(env, found, Read(p, true));
    ReadReturns(env, found, p, s);
    var absent := Next(env, w, Probe(p, false));
    var ready := Next(env, absent, Draw(p, raw, Some(blob)));
    var lost := Next(env, ready, Create(p, true));
    RunCons(env, w, Probe(p, false), [Draw(p, raw, Some(blob))] + ([Create(p, true)] + [Read(p, true)]));
    RunCons(env, absent, Draw(p, raw, Some(blob)), [Create(p, true)] + [Read(p, true)]);
    RunCons(env, ready, Create(p, true), [Read(p, true)]);
    RunOne(env, lost, Read(p, true));
    ReadReturns(env, lost, p, s);
  }

  function Writes(p: nat, chunks: seq<nat>): seq<Step> {
    if chunks == [] then [] else [Write(p, chunks[0])] + Writes(p, chunks[1..])
  }

  function Sum(chunks: seq<nat>): nat { if chunks == [] then 0 else chunks[0] + Sum(chunks[1..]) }

  /** However the system cuts the writes, enough of them complete the file. */
  lemma {:induction false} ChunksCompleteTheFile(env: Env, w: World, p: nat, chunks: seq<nat>)
    requires p < |w.calls| && w.calls[p].Writing? && w.calls[p].written <= |w.calls[p].blob|
    requires w.file == Some(w.calls[p].blob[..w.calls[p].written])
    requires (forall c :: c in chunks ==> c > 0) && Sum(chunks) >= |w.calls[p].blob| - w.calls[p].written
    ensures var at := w.calls[p]; var u := Run(env, w, Writes(p, chunks));
      |u.calls| == |w.calls| && u.calls[p] == Writing(at.raw, at.blob, |at.blob|) && u.file == Some(at.blob)
    decreases |chunks|
  {
    var at := w.calls[p];
    if chunks == [] {
      assert at.blob[..at.written] == at.blob;
    } else {
      RunCons(env, w, Write(p, chunks[0]), Writes(p, chunks[1..]));
      assert chunks[0] in chunks && forall c :: c in chunks[1..] ==> c in chunks;
      var u := Next(env, w, Write(p, chunks[0]));
      if at.written < |at.blob| {
        var n := at.written + Least(chunks[0], |at.blob| - at.written);
        assert at.blob[..at.written] + at.blob[at.written..n] == at.blob[..n];
      }
      ChunksCompleteTheFile(env, u, p, chunks[1..]);
    }
  }

  /** With no file there and nobody in between, a call whose steps succeed creates the file, whatever the
      chunks, and returns the secret it drew. */
  lemma FirstCallCreates(env: Env, w: World, p: nat, raw: Bytes, blob: Bytes, chunks: seq<nat>, ok: bool)
    requires p < |w.calls| && w.calls[p].Start? && w.file.None?
    requires (forall c :: c in chunks ==> c > 0) && Sum(chunks) >= |blob|
    ensures var u := Run(env, w, [Probe(p, ok)] + ([Draw(p, raw, Some(blob))] + ([Create(p, true)] + (Writes(p, chunks) + [Sync(p, true)]))));
      Answered(u, p, raw, true) && u.file == Some(blob)
  {
    var absent := Next(env, w, Probe(p, ok));
    var ready := Next(env, absent, Draw(p, raw, Some(blob)));
    var writing := Next(env, ready, Create(p, true));
    var rest := Writes(p, chunks) + [Sync(p, true)];
    RunCons(env, w, Probe(p, ok), [Draw(p, raw, Some(blob))] + ([Create(p, true)] + rest));
    RunCons(env, absent, Draw(p, raw, Some(blob)), [Create(p, true)] + rest);
    RunCons(env, ready, Create(p, true), rest);
    assert blob[..0] == [];
    ChunksCompleteTheFile(env, writing, p, chunks);
    RunConcat(env, writing, Writes(p, chunks), [Sync(p, true)]);
    RunOne(env, Run(env, writing, Writes(p, chunks)), Sync(p, true));
  }

  lemma OkMeansItOpens(env: Env, original: Option<Bytes>, w: World)
    requires Inv(env, original, w)
    ensures forall p: nat, s, g :: Answered(w, p, s, g) ==>
      && w.file.Some? && Open(env, w.file.value) == Ok(s, false) && OpensTo(env, w.file.value, s)
      && (g ==> w.maker.Some? && w.maker.value.call == p)
  {
    forall p: nat, s, g | Answered(w, p, s, g)
      ensures w.file.Some? && Open(env, w.file.value) == Ok(s, false) && OpensTo(env, w.file.value, s)
      ensures g ==> w.maker.Some? && w.maker.value.call == p
    {
      assert CallOk(env, w, p, w.calls[p]);
      OpenIff(env, w.file.value, s);
    }
  }

  /** The key file is only ever appended to by the call that created it; once it opens it never
      changes again, and no second file replaces it. */
  lemma KeyFileIsNeverOverwritten(env: Env, original: Option<Bytes>, n: nat, before: seq<Step>, later: seq<Step>)
    requires forall s :: s in before + later ==> GoodStep(env, s)
    ensures Extends(env, Run(env, Boot(original, n), before), Run(env, Boot(original, n), before + later))
  {
    assert forall s :: s in before ==> s in before + later;
    assert forall s :: s in later ==> s in before + later;
    RunKeepsInv(env, original, Boot(original, n), before);
    RunKeepsInv(env, original, Run(env, Boot(original, n), before), later);
    RunConcat(env, Boot(original, n), before, later);
  }

  lemma {:induction false} RunConcat(env: Env, w: World, a: seq<Step>, b: seq<Step>)
    ensures Run(env, w, a + b) == Run(env, Run(env, w, a), b)
    decreases |a|
  {
    if a == [] {
      assert a + b == b;
    } else {
      assert (a + b)[1..] == a[1..] + b;
      RunConcat(env, Next(env, w, a[0]), a[1..], b);
    }
  }

  /** The creator has given up, or died, before the file was complete. */
  ghost predicate Abandoned(w: World, later: seq<Step>) {
    && w.maker.Some? && w.maker.value.call < |w.calls|
    && w.file.Some? && w.file.value != w.maker.value.blob
    && (w.calls[w.maker.value.call].Writing? ==> forall s :: s in later ==> s.p != w.maker.value.call)
  }

  /** A half-written file gives errors, not a second key: once its creator has stopped, the file and
      its maker stay as they are and no call ever succeeds, whatever the others do. */
  lemma HalfWrittenFileLocks(env: Env, original: Option<Bytes>, n: nat, before: seq<Step>, later: seq<Step>)
    requires forall s :: s in before + later ==> GoodStep(env, s)
    requires Abandoned(Run(env, Boot(original, n), before), later)
    ensures var w, u := Run(env, Boot(original, n), before), Run(env, Boot(original, n), before + later);
      u.file == w.file && u.maker == w.maker && forall p: nat, s, g :: !Answered(u, p, s, g)
  {
    assert forall s :: s in before ==> s in before + later;
    assert forall s :: s in later ==> s in before + later;
    RunKeepsInv(env, original, Boot(original, n), before);
    AbandonedStays(env, original, Run(env, Boot(original, n), before), later);
    RunConcat(env, Boot(original, n), before, later);
  }

  lemma AbandonedStep(env: Env, original: Option<Bytes>, w: World, steps: seq<Step>)
    requires Inv(env, original, w) && Abandoned(w, steps) && steps != []
    ensures var u := Next(env, w, steps[0]);
      Abandoned(u, steps[1..]) && u.file == w.file && u.maker == w.maker
  {
    var s := steps[0];
    assert s in steps;
    if s.p < |w.calls| { assert CallOk(env, w, s.p, w.calls[s.p]); }
  }

  lemma {:induction false} AbandonedStays(env: Env, original: Option<Bytes>, w: World, steps: seq<Step>)
    requires Inv(env, original, w) && Abandoned(w, steps) && forall s :: s in steps ==> GoodStep(env, s)
    ensures var u := Run(env, w, steps);
      u.file == w.file && u.maker == w.maker && forall p: nat, s, g :: !Answered(u, p, s, g)
    decreases |steps|
  {
    if steps == [] {
      var maker := w.maker.value;
      var k := |w.file.value|;
      assert w.file.value == maker.blob[..k];
      PrefixDoesNotOpen(env, maker.raw, maker.blob, k);
      OkMeansItOpens(env, original, w);
    } else {
      StepKeepsInv(env, original, w, steps[0]);
      AbandonedStep(env, original, w, steps);
      AbandonedStays(env, original, Next(env, w, steps[0]), steps[1..]);
    }
  }

  // ---------------------------------------------------------------- one call left alone

  datatype Wrote = Written | AlreadyExists | Failed

  class KeyFile {
    var content: Option<Bytes>

    /** `write_new_exclusive`: create_new, write_all in chunks of the system's choosing, sync. */
    method WriteNewExclusive(data: Bytes, openFails: bool, chunk: nat -> nat, syncFails: bool) returns (r: Wrote)
      modifies this
      ensures old(content).Some? || openFails ==> content == old(content)
      ensures r == AlreadyExists <==> old(content).Some? && !openFails
      ensures r == Written ==> content == Some(data) && !openFails
      ensures old(content).None? && !openFails && !syncFails && (forall n :: chunk(n) > 0) ==> r == Written
      ensures r == Failed && !openFails ==> content.Some? && content.value <= data
    {
      if openFails { return Failed; }
      if content.Some? { return AlreadyExists; }
      content := Some([]);
      var written := 0;
      assert data[..0] == [];
      while written < |data|
        invariant written <= |data| && content == Some(data[..written])
      {
        var n := Least(chunk(written), |data| - written);
        if n == 0 { return Failed; }
        content := Some(content.value + data[written..written + n]);
        assert data[..written] + data[written..written + n] == data[..written + n];
        written := written + n;
      }
      assert data[..written] == data;
      r := if syncFails then Failed else Written;
    }

    /** A whole call with nobody interfering: an existing file is read and never written; a new one
        holds the blob of the secret returned; success always means the file opens to the secret. */
    method LoadOrCreateSealed(env: Env, overlooked: bool, raw: Bytes, blob: Option<Bytes>, readFails: bool,
                              openFails: bool, chunk: nat -> nat, syncFails: bool) returns (a: Answer)
      requires blob.Some? ==> GoodSeal(env, raw, blob.value)
      modifies this
      ensures a.Ok? ==> content.Some? && OpensTo(env, content.value, a.secret)
      ensures a.Ok? ==> (a.generated <==> old(content).None?)
      ensures old(content).Some? ==> content == old(content) && (!readFails && !overlooked ==> a == Open(env, content.value))
      ensures old(content).None? && blob.Some? && !openFails && !syncFails && (forall n :: chunk(n) > 0) ==>
        a == Ok(raw, true) && content == blob
    {
      if content.Some? && !overlooked {
        return if readFails then Err(Io) else Open(env, content.value);
      }
      if blob.None? { return Err(Dpapi); }
      var wrote := WriteNewExclusive(blob.value, openFails, chunk, syncFails);
      match wrote
      case Written => a := Ok(raw, true);
      case AlreadyExists => a := if readFails then Err(Io) else Open(env, content.value);
      case Failed => a := Err(Io);
    }
  }
}
