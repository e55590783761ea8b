/** What every interleaving of restorations keeps: turns, failures, histories and listings. */
module RestoreProofs {
  import opened Wrappers
  import opened Lines
  import opened Restorations
  import opened RestoreRuns

  // ---- The invariant is kept ---------------------------------------------------------------

  lemma TaskStep(w: World, act: Act, decode: Decoder, tid: Tid)
    requires Sound(w, decode) && Step(w, act, decode).Some?
    ensures TaskOk(Step(w, act, decode).value, tid, decode)
  {
    var w' := Step(w, act, decode).value;
    assert TaskOk(w, tid, decode);
    if act.Move? {
      assert TaskOk(w, act.tid, decode);
    }
    if tid in w.tasks && tid in w'.tasks {
      var task := w.tasks[tid];
      CarrierStep(w, act, decode, task.path);
      HonestStays(task.stage, CarrierAt(w, task.path), CarrierAt(w', task.path), decode);
      TaskStays(w, act, decode, tid);
    } else if tid in w'.tasks {
      TaskStarts(w, act, decode, tid);
    }
  }

  lemma TaskStarts(w: World, act: Act, decode: Decoder, tid: Tid)
    requires Step(w, act, decode).Some? && tid !in w.tasks && tid in Step(w, act, decode).value.tasks
    ensures TaskOk(Step(w, act, decode).value, tid, decode)
  {
  }

  lemma TaskStays(w: World, act: Act, decode: Decoder, tid: Tid)
    requires Sound(w, decode) && Step(w, act, decode).Some?
    requires tid in w.tasks && tid in Step(w, act, decode).value.tasks
    requires Honest(w.tasks[tid].stage, CarrierAt(Step(w, act, decode).value, w.tasks[tid].path), decode)
    ensures TaskOk(Step(w, act, decode).value, tid, decode)
  {
    assert TaskOk(w, tid, decode);
    match act {
      case Take(actor) =>
        TaskStaysTaken(w, actor, decode, tid);
      case BeginRestore(actor, pid, path, plainAnswer, packedAnswer) =>
        var c := CarrierAt(w, path);
        var cold := (c.plain.None? || plainAnswer.Fault?) && c.packed.File? && packedAnswer.Fine?;
        TaskStaysBegun(w, actor, pid, path, cold, decode, tid);
      case Leave(actor) =>
        TaskStaysFreed(w, actor, w.tasks[actor].stage.failure, decode, tid);
      case Unwind(actor) =>
        TaskStaysFreed(w, actor, None, decode, tid);
      case _ =>
        TaskGoesOn(w, act, decode, tid);
    }
  }

  /** The other steps change no turn, and at most this task's stage. */
  lemma TaskGoesOn(w: World, act: Act, decode: Decoder, tid: Tid)
    requires TaskOk(w, tid, decode) && Step(w, act, decode).Some?
    requires !act.Take? && !act.Leave? && !act.Unwind? && !act.BeginRestore?
    requires tid in w.tasks && tid in Step(w, act, decode).value.tasks
    requires Honest(w.tasks[tid].stage, CarrierAt(Step(w, act, decode).value, w.tasks[tid].path), decode)
    ensures TaskOk(Step(w, act, decode).value, tid, decode)
  {
    if act.Move? && act.tid == tid {
      WorkKeeps(w.tasks[tid].stage, CarrierAt(w, w.tasks[tid].path), act.answer, decode);
    }
  }

  lemma TaskStaysTaken(w: World, actor: Tid, decode: Decoder, tid: Tid)
    requires Sound(w, decode) && actor in w.tasks && w.tasks[actor].pid in w.procs && tid in w.tasks
    requires w.tasks[actor].path !in w.procs[w.tasks[actor].pid].memory.running && w.tasks[actor].stage.Waiting?
    ensures TaskOk(TakeAt(w, actor), tid, decode)
  {
    assert TaskOk(w, tid, decode) && TaskOk(w, actor, decode) && TurnOk(w, w.tasks[actor].pid, w.tasks[actor].path);
  }

  lemma TaskStaysBegun(w: World, actor: Tid, pid: Pid, path: Path, cold: bool, decode: Decoder, tid: Tid)
    requires Sound(w, decode) && actor !in w.tasks && pid in w.procs && tid in w.tasks
    ensures TaskOk(BeginAt(w, actor, pid, path, cold), tid, decode)
  {
    assert TaskOk(w, tid, decode) && TurnOk(w, w.tasks[tid].pid, w.tasks[tid].path);
  }

  lemma TaskStaysFreed(w: World, actor: Tid, failure: Option<Failure>, decode: Decoder, tid: Tid)
    requires Sound(w, decode) && actor in w.tasks && w.tasks[actor].pid in w.procs && Holding(w.tasks[actor].stage)
    requires tid in w.tasks && tid != actor
    ensures TaskOk(Free(w, actor, failure), tid, decode)
  {
    assert TaskOk(w, tid, decode) && TaskOk(w, actor, decode);
  }

  lemma ReplayNoted(p: Process, path: Path, event: Event)
    ensures LogOf(Noted(p, path, event), path) == LogOf(p, path) + [event]
    ensures Replay(LogOf(Noted(p, path, event), path))
         == match Replay(LogOf(p, path)) case None => None case Some(status) => Accept(status, event)
  {
    assert (LogOf(p, path) + [event])[..|LogOf(p, path)|] == LogOf(p, path);
  }

  lemma TurnStep(w: World, act: Act, decode: Decoder, pid: Pid, path: Path)
    requires Sound(w, decode) && Step(w, act, decode).Some?
    ensures TurnOk(Step(w, act, decode).value, pid, path)
  {
    match act {
      case Take(tid) =>
        TurnTaken(w, tid, decode, pid, path);
      case Leave(tid) =>
        TurnFreed(w, tid, w.tasks[tid].stage.failure, decode, pid, path);
      case Unwind(tid) =>
        TurnFreed(w, tid, None, decode, pid, path);
      case BeginRestore(tid, at, of, plainAnswer, packedAnswer) =>
        var c := CarrierAt(w, of);
        var cold := (c.plain.None? || plainAnswer.Fault?) && c.packed.File? && packedAnswer.Fine?;
        TurnBegun(w, tid, at, of, cold, decode, pid, path);
      case _ =>
        TurnStays(w, act, decode, pid, path);
    }
  }

  /** The other steps touch no lock. */
  lemma TurnStays(w: World, act: Act, decode: Decoder, pid: Pid, path: Path)
    requires Sound(w, decode) && Step(w, act, decode).Some?
    requires !act.Take? && !act.Leave? && !act.Unwind? && !act.BeginRestore?
    ensures TurnOk(Step(w, act, decode).value, pid, path)
  {
    assert TurnOk(w, pid, path);
    if pid in w.procs && path in w.procs[pid].owner {
      assert TaskOk(w, w.procs[pid].owner[path], decode);
    }
  }

  lemma TurnTaken(w: World, tid: Tid, decode: Decoder, pid: Pid, path: Path)
    requires Sound(w, decode) && tid in w.tasks && w.tasks[tid].pid in w.procs && w.tasks[tid].stage.Waiting?
    requires w.tasks[tid].path !in w.procs[w.tasks[tid].pid].memory.running
    ensures TurnOk(TakeAt(w, tid), pid, path)
  {
    assert TurnOk(w, pid, path) && TaskOk(w, tid, decode);
  }

  lemma TurnFreed(w: World, tid: Tid, failure: Option<Failure>, decode: Decoder, pid: Pid, path: Path)
    requires Sound(w, decode) && tid in w.tasks && w.tasks[tid].pid in w.procs && Holding(w.tasks[tid].stage)
    ensures TurnOk(Free(w, tid, failure), pid, path)
  {
    var task := w.tasks[tid];
    assert TaskOk(w, tid, decode) && TurnOk(w, pid, path) && TurnOk(w, task.pid, task.path);
    var p := w.procs[task.pid];
    if pid == task.pid && path == task.path && task.background {
      ReplayNoted(p, path, if failure.Some? then Failed(failure.value) else Freed);
    }
  }

  lemma TurnBegun(w: World, tid: Tid, at: Pid, of: Path, cold: bool, decode: Decoder, pid: Pid, path: Path)
    requires Sound(w, decode) && tid !in w.tasks && at in w.procs
    ensures TurnOk(BeginAt(w, tid, at, of, cold), pid, path)
  {
    assert TurnOk(w, pid, path);
    if pid == at && path == of {
      TurnBegunHere(w, tid, at, of, cold);
    }
  }

  lemma TurnBegunHere(w: World, tid: Tid, pid: Pid, path: Path, cold: bool)
    requires TurnOk(w, pid, path) && tid !in w.tasks && pid in w.procs
    ensures TurnOk(BeginAt(w, tid, pid, path, cold), pid, path)
  {
    var p := w.procs[pid];
    match BeginOf(p.memory, path, cold) {
      case Surfaced(failure) =>
        ReplayNoted(p, path, Delivered(failure));
      case Claimed =>
        ReplayNoted(p, path, Started);
      case _ =>
    }
  }

  lemma StepSound(w: World, act: Act, decode: Decoder)
    requires Sound(w, decode) && Step(w, act, decode).Some?
    ensures Sound(Step(w, act, decode).value, decode)
  {
    forall tid ensures TaskOk(Step(w, act, decode).value, tid, decode) {
      TaskStep(w, act, decode, tid);
    }
    forall pid, path ensures TurnOk(Step(w, act, decode).value, pid, path) {
      TurnStep(w, act, decode, pid, path);
    }
  }

  lemma {:induction false} RunSound(w: World, acts: seq<Act>, decode: Decoder)
    requires Sound(w, decode) && Run(w, acts, decode).Some?
    ensures Sound(Run(w, acts, decode).value, decode)
  {
    if acts != [] {
      RunSound(w, acts[..|acts| - 1], decode);
      StepSound(Run(w, acts[..|acts| - 1], decode).value, acts[|acts| - 1], decode);
    }
  }

  /** Some run from a start leads to this world. */
  ghost predicate Reachable(w: World, decode: Decoder) {
    exists start, acts :: Start(start) && Run(start, acts, decode) == Some(w)
  }

  lemma ReachableSound(w: World, decode: Decoder)
    requires Reachable(w, decode)
    ensures Sound(w, decode)
  {
    var start, acts :| Start(start) && Run(start, acts, decode) == Some(w);
    RunSound(start, acts, decode);
  }

  // ---- Histories ---------------------------------------------------------------------------

  lemma ExtendsTrans(a: Carrier, b: Carrier, c: Carrier, decode: Decoder)
    requires Extends(a, b, decode) && Extends(b, c, decode)
    ensures Extends(a, c, decode)
  {
  }

  lemma {:induction false} RunExtends(w: World, acts: seq<Act>, decode: Decoder, path: Path)
    requires Sound(w, decode) && Run(w, acts, decode).Some?
    ensures Extends(CarrierAt(w, path), CarrierAt(Run(w, acts, decode).value, path), decode)
  {
    if acts != [] {
      var front, act := acts[..|acts| - 1], acts[|acts| - 1];
      var last := Run(w, front, decode).value;
      RunExtends(w, front, decode, path);
      RunSound(w, front, decode);
      if act.Move? {
        assert TaskOk(last, act.tid, decode);
      }
      CarrierStep(last, act, decode, path);
      ExtendsTrans(CarrierAt(w, path), CarrierAt(last, path), CarrierAt(Run(w, acts, decode).value, path), decode);
    }
  }

  /**
   The readable history of every carrier only grows by extension, from any reachable world, under
   every interleaving; and what cannot be decoded is never removed.
   */
  lemma HistoryOnlyGrows(w: World, acts: seq<Act>, decode: Decoder, path: Path)
    requires Reachable(w, decode) && Run(w, acts, decode).Some?
    ensures var c, c' := CarrierAt(w, path), CarrierAt(Run(w, acts, decode).value, path);
            && (History(c, decode).Some?
                ==> History(c', decode).Some? && History(c, decode).value <= History(c', decode).value)
            && (Present(c) ==> Present(c'))
            && (Cold(c) && decode(c.packed.frame).Err? ==> c' == c)
  {
    ReachableSound(w, decode);
    RunExtends(w, acts, decode, path);
  }

  /**
   Why Codex must not recompress under a restoration: one that opened the old copy would publish
   it and then remove the new one, and what was appended in between is gone.
   */
  lemma RecompressionInFlightLoses(text: Bytes, more: Bytes, earlier: Bytes, later: Bytes, decode: Decoder)
    requires decode(earlier) == Ok(text) && decode(later) == Ok(text + more)
    ensures var c0 := Carrier(None, File(earlier));
            var restored := CodexStep(c0, Restore, decode).value;
            var appended := CodexStep(restored, Append(more), decode).value;
            var packed := CodexStep(appended, Pack(later), decode).value;
            var c1 := CodexStep(packed, Unlink, decode).value;
            var (stage, c2) := Work(Link(text), c1, Fine, decode);
            var (end, c3) := Work(stage, c2, Fine, decode);
            && Honest(Link(text), c0, decode) && History(c1, decode) == Some(text + more)
            && end == Finished(None) && History(c3, decode) == Some(text)
            && (Extends(c1, c3, decode) <==> more == [])
  {
    assert more == [] ==> text + more == text;
  }

  /**
   Why Codex may remove a plain file only while its copy is there: the history survives the removal
   exactly when the compressed copy decodes to it, or to an extension of it.
   */
  lemma UnlinkNeedsCopy(c: Carrier, decode: Decoder)
    requires c.plain.Some?
    ensures Extends(c, c.(plain := None), decode)
       <==> c.packed.File? && decode(c.packed.frame).Ok? && c.plain.value <= decode(c.packed.frame).value
  {
  }

  /**
   Why that must hold at the very moment of removal: between packing a carrier and removing its plain
   file, a restoration to which the plain file looked absent retires the copy. It ends without an
   error, no restoration is then in flight, and the removal would lose everything.
   */
  lemma RetiredCopyLoses(text: Bytes, frame: Bytes, failure: Failure, decode: Decoder)
    requires decode(frame) == Ok(text)
    ensures var answers: Answers := (stage: Stage) => if stage.Check? then Fault(failure) else Fine;
            var packed := CodexStep(Carrier(Some(text), Absent), Pack(frame), decode).value;
            var (end, c) := Alone(Check, packed, answers, decode);
            && end == Finished(None) && c == Carrier(Some(text), Absent) && CodexStep(c, Unlink, decode) == None
            && History(c, decode) == Some(text) && History(c.(plain := None), decode) == None
  {
    var answers: Answers := (stage: Stage) => if stage.Check? then Fault(failure) else Fine;
    var c := Carrier(Some(text), File(frame));
    assert Alone(Check, c, answers, decode) == Alone(Open, c, answers, decode)
        == Alone(Decode(frame), c, answers, decode)
        == Alone(Link(text), c, answers, decode) == Alone(Retire, c, answers, decode);
  }

  // ---- Turns -------------------------------------------------------------------------------

  /** At most one restoration of a process holds a carrier, and the lock knows exactly who does. */
  lemma OneHolder(w: World, decode: Decoder, tid: Tid, other: Tid)
    requires Reachable(w, decode) && tid in w.tasks && other in w.tasks
    requires Holding(w.tasks[tid].stage) && Holding(w.tasks[other].stage)
    requires w.tasks[tid].pid == w.tasks[other].pid && w.tasks[tid].path == w.tasks[other].path
    ensures tid == other
  {
    ReachableSound(w, decode);
    assert TaskOk(w, tid, decode) && TaskOk(w, other, decode);
  }

  lemma RunningExactly(w: World, decode: Decoder, pid: Pid, path: Path)
    requires Reachable(w, decode) && pid in w.procs
    ensures path in w.procs[pid].memory.running <==>
            exists tid | tid in w.tasks :: w.tasks[tid].pid == pid && w.tasks[tid].path == path
                && Holding(w.tasks[tid].stage)
  {
    ReachableSound(w, decode);
    assert TurnOk(w, pid, path);
    if path in w.procs[pid].memory.running {
      assert w.procs[pid].owner[path] in w.tasks;
    }
    forall tid | tid in w.tasks && w.tasks[tid].pid == pid && w.tasks[tid].path == path && Holding(w.tasks[tid].stage)
      ensures path in w.procs[pid].memory.running
    {
      assert TaskOk(w, tid, decode);
    }
  }

  /** No waiter is stuck behind a lost turn: it can go on, or whoever holds the turn can. */
  lemma TurnsAreNotLost(w: World, decode: Decoder, tid: Tid) returns (holder: Tid, act: Act)
    requires Reachable(w, decode) && tid in w.tasks && w.tasks[tid].stage.Waiting?
    ensures Step(w, act, decode).Some? && holder in w.tasks
    ensures w.tasks[holder].pid == w.tasks[tid].pid && w.tasks[holder].path == w.tasks[tid].path
    ensures if holder == tid then act == Take(tid)
            else Holding(w.tasks[holder].stage) && act in {Spawn(holder), Leave(holder), Move(holder, Fine)}
  {
    ReachableSound(w, decode);
    var task := w.tasks[tid];
    assert TaskOk(w, tid, decode) && TurnOk(w, task.pid, task.path);
    var p := w.procs[task.pid];
    if task.path !in p.memory.running {
      return tid, Take(tid);
    }
    holder := p.owner[task.path];
    var stage := w.tasks[holder].stage;
    assert TaskOk(w, holder, decode);
    act := if stage.Spawning? then Spawn(holder) else if stage.Finished? then Leave(holder) else Move(holder, Fine);
  }

  // ---- Background failures -----------------------------------------------------------------

  /** A carrier held by a background restoration has no failure waiting. */
  lemma BackgroundHasNoPending(w: World, decode: Decoder, tid: Tid)
    requires Reachable(w, decode) && tid in w.tasks && w.tasks[tid].background
    ensures w.tasks[tid].pid in w.procs
    ensures var memory := w.procs[w.tasks[tid].pid].memory;
            w.tasks[tid].path in memory.running && w.tasks[tid].path !in memory.failed
  {
    ReachableSound(w, decode);
    assert TaskOk(w, tid, decode) && TurnOk(w, w.tasks[tid].pid, w.tasks[tid].path);
  }

  lemma {:induction false} ReplayPrefix(log: seq<Event>, n: nat)
    requires Replay(log).Some? && n <= |log|
    ensures Replay(log[..n]).Some?
  {
    if n < |log| {
      ReplayPrefix(log[..|log| - 1], n);
      assert log[..|log| - 1][..n] == log[..n];
    } else {
      assert log[..n] == log;
    }
  }

  /** What one event of an accepted log says about its neighbours. */
  lemma EventNeighbours(log: seq<Event>, i: nat)
    requires Replay(log).Some? && i + 1 < |log|
    ensures log[i].Failed? ==> log[i + 1] == Delivered(log[i].failure)
    ensures log[i + 1].Delivered? ==> log[i] == Failed(log[i + 1].failure)
    ensures log[i].Started? ==> log[i + 1].Freed? || log[i + 1].Failed?
    ensures log[i + 1].Freed? || log[i + 1].Failed? ==> log[i].Started?
  {
    ReplayPrefix(log, i + 2);
    assert log[..i + 2][..i + 1] == log[..i + 1] && log[..i + 1][..i] == log[..i];
    assert Replay(log[..i + 1]).Some? && Replay(log[..i]).Some?;
  }

  /**
   Over every run, each background failure is handed to exactly one caller, unchanged, before
   another background attempt starts; nothing else is ever handed out; and a failure waits in
   memory exactly while it is the last thing that happened.
   */
  lemma FailuresHandedOnce(w: World, decode: Decoder, pid: Pid, path: Path, i: nat)
    requires Reachable(w, decode) && pid in w.procs && i < |LogOf(w.procs[pid], path)|
    ensures var log, failed := LogOf(w.procs[pid], path), w.procs[pid].memory.failed;
            && (log[i].Failed? ==> if i + 1 < |log| then log[i + 1] == Delivered(log[i].failure)
                                   else path in failed && failed[path] == log[i].failure)
            && (log[i].Delivered? ==> i > 0 && log[i - 1] == Failed(log[i].failure))
            && (log[i].Started? && i > 0 ==> log[i - 1].Freed? || log[i - 1].Delivered?)
            && (path in failed ==> log[|log| - 1] == Failed(failed[path]))
  {
    ReachableSound(w, decode);
    assert TurnOk(w, pid, path);
    var log := LogOf(w.procs[pid], path);
    if i + 1 < |log| {
      EventNeighbours(log, i);
    }
    if i > 0 {
      EventNeighbours(log, i - 1);
    } else {
      ReplayPrefix(log, 1);
      assert log[..1][..0] == [];
    }
    assert Replay(log[..|log| - 1]).Some?;
  }

  // ---- Listings ----------------------------------------------------------------------------

  /** A step that leaves a plain file where there may have been none. */
  predicate Publishes(w: World, act: Act, path: Path) {
    match act
    case Codex(at, move) => at == path && (move.Create? || move.Restore?)
    case Move(tid, answer) =>
      tid in w.tasks && w.tasks[tid].path == path && answer.Fine?
          && (w.tasks[tid].stage.Link? || w.tasks[tid].stage.Persist?)
    case _ => false
  }

  predicate Recompresses(act: Act, path: Path) {
    act == Codex(path, Unlink)
  }

  /** The plain name appears only by publication and disappears only by recompression. */
  lemma PlainStep(w: World, act: Act, decode: Decoder, path: Path)
    requires Step(w, act, decode).Some?
    ensures CarrierAt(Step(w, act, decode).value, path).plain.Some?
       <==> Publishes(w, act, path) || (CarrierAt(w, path).plain.Some? && !Recompresses(act, path))
  {
  }

  /** The world after the first `n` steps. */
  function Midway(w: World, acts: seq<Act>, decode: Decoder, n: nat): World
    requires n <= |acts| && Run(w, acts, decode).Some?
  {
    RunMidway(w, acts, decode, n);
    Run(w, acts[..n], decode).value
  }

  lemma {:induction false} RunMidway(w: World, acts: seq<Act>, decode: Decoder, n: nat)
    requires n <= |acts| && Run(w, acts, decode).Some?
    ensures Run(w, acts[..n], decode).Some?
  {
    if n < |acts| {
      RunMidway(w, acts[..|acts| - 1], decode, n);
      assert acts[..|acts| - 1][..n] == acts[..n];
    } else {
      assert acts[..n] == acts;
    }
  }

  /** Which steps of a run publish the plain file. */
  function Publications(w: World, acts: seq<Act>, decode: Decoder, path: Path): (flags: seq<bool>)
    requires Run(w, acts, decode).Some?
    ensures |flags| == |acts|
  {
    if acts == [] then []
    else
      var front := acts[..|acts| - 1];
      Publications(w, front, decode, path) + [Publishes(Run(w, front, decode).value, acts[|acts| - 1], path)]
  }

  /** Which steps of a run remove the plain file in favour of its copy. */
  function Recompressions(acts: seq<Act>, path: Path): (flags: seq<bool>)
    ensures |flags| == |acts|
  {
    if acts == [] then []
    else Recompressions(acts[..|acts| - 1], path) + [Recompresses(acts[|acts| - 1], path)]
  }

  /** Some step is of the first kind and no later one is of the second. */
  predicate Lasting(first: seq<bool>, second: seq<bool>)
    requires |first| == |second|
  {
    exists i | 0 <= i < |first| :: first[i] && forall j | i < j < |second| :: !second[j]
  }

  lemma LastingMore(first: seq<bool>, second: seq<bool>, x: bool, y: bool)
    requires |first| == |second|
    ensures Lasting(first + [x], second + [y]) <==> x || (Lasting(first, second) && !y)
  {
    var n := |first|;
    var first', second' := first + [x], second + [y];
    if Lasting(first', second') && !x {
      var i :| 0 <= i <= n && first'[i] && forall j | i < j <= n :: !second'[j];
      assert first[i] && !second'[n];
      assert forall j | i < j < n :: second[j] == second'[j];
    }
    if x {
      assert first'[n];
    } else if Lasting(first, second) && !y {
      var i :| 0 <= i < n && first[i] && forall j | i < j < n :: !second[j];
      assert first'[i];
    }
  }

  /** The plain file was published, and is still there. */
  predicate PublishedLast(w: World, acts: seq<Act>, decode: Decoder, path: Path)
    requires Run(w, acts, decode).Some?
  {
    Lasting(Publications(w, acts, decode, path), Recompressions(acts, path))
  }

  /** The plain file was removed in favour of its copy, and not published since. */
  predicate RecompressedLast(w: World, acts: seq<Act>, decode: Decoder, path: Path)
    requires Run(w, acts, decode).Some?
  {
    Lasting(Recompressions(acts, path), Publications(w, acts, decode, path))
  }

  /** The last step that touched the plain name decides whether there is a plain file. */
  lemma {:induction false} PlainEnds(w: World, acts: seq<Act>, decode: Decoder, path: Path)
    requires Run(w, acts, decode).Some?
    ensures var before, after := CarrierAt(w, path).plain, CarrierAt(Run(w, acts, decode).value, path).plain;
            && (before.None? ==> (after.Some? <==> PublishedLast(w, acts, decode, path)))
            && (before.Some? ==> (after.None? <==> RecompressedLast(w, acts, decode, path)))
  {
    if acts != [] {
      var front, act := acts[..|acts| - 1], acts[|acts| - 1];
      var last := Run(w, front, decode).value;
      PlainEnds(w, front, decode, path);
      assert Run(w, acts, decode) == Step(last, act, decode);
      PlainStep(last, act, decode, path);
      var published, recompressed := Publications(w, front, decode, path), Recompressions(front, path);
      var publishes, recompresses := Publishes(last, act, path), Recompresses(act, path);
      assert Publications(w, acts, decode, path) == published + [publishes];
      assert Recompressions(acts, path) == recompressed + [recompresses];
      LastingMore(published, recompressed, publishes, recompresses);
      LastingMore(recompressed, published, recompresses, publishes);
    }
  }

  lemma {:induction false} RunConcat(w: World, a: seq<Act>, b: seq<Act>, decode: Decoder)
    requires Run(w, a, decode).Some?
    ensures Run(w, a + b, decode) == Run(Run(w, a, decode).value, b, decode)
  {
    if b == [] {
      assert a + b == a;
    } else {
      RunConcat(w, a, b[..|b| - 1], decode);
      assert (a + b)[..|a + b| - 1] == a + b[..|b| - 1];
    }
  }

  /** The steps between two moments of a run are a run from the one to the other. */
  lemma Stretch(w: World, acts: seq<Act>, decode: Decoder, i: nat, j: nat)
    requires i <= j <= |acts| && Run(w, acts, decode).Some?
    ensures Run(Midway(w, acts, decode, i), acts[i..j], decode) == Some(Midway(w, acts, decode, j))
  {
    RunMidway(w, acts, decode, i);
    RunMidway(w, acts, decode, j);
    RunConcat(w, acts[..i], acts[i..j], decode);
    assert acts[..i] + acts[i..j] == acts[..j];
  }

  function PlainAt(w: World, acts: seq<Act>, decode: Decoder, path: Path, n: nat): Option<Bytes>
    requires n <= |acts| && Run(w, acts, decode).Some?
  {
    CarrierAt(Midway(w, acts, decode, n), path).plain
  }

  /**
   Between two moments the plain file turned up, or, the later of them being the one without it,
   was removed: in either case it stands at `there` and not at `missing`.
   */
  predicate Arises(w: World, acts: seq<Act>, decode: Decoder, path: Path, missing: nat, there: nat)
    requires missing <= |acts| && there <= |acts| && Run(w, acts, decode).Some?
  {
    if missing <= there then
      Stretch(w, acts, decode, missing, there);
      PlainAt(w, acts, decode, path, missing).None?
      && PublishedLast(Midway(w, acts, decode, missing), acts[missing..there], decode, path)
    else
      Stretch(w, acts, decode, there, missing);
      PlainAt(w, acts, decode, path, there).Some?
      && RecompressedLast(Midway(w, acts, decode, there), acts[there..missing], decode, path)
  }

  lemma ArisesMeaning(w: World, acts: seq<Act>, decode: Decoder, path: Path, missing: nat, there: nat)
    requires missing <= |acts| && there <= |acts| && Run(w, acts, decode).Some?
    ensures Arises(w, acts, decode, path, missing, there)
       <==> PlainAt(w, acts, decode, path, missing).None? && PlainAt(w, acts, decode, path, there).Some?
  {
    if missing <= there {
      Stretch(w, acts, decode, missing, there);
      PlainEnds(Midway(w, acts, decode, missing), acts[missing..there], decode, path);
    } else {
      Stretch(w, acts, decode, there, missing);
      PlainEnds(Midway(w, acts, decode, there), acts[there..missing], decode, path);
    }
  }

  /** When, in a run, a listing reads the plain name, reads the compressed one, and checks that one. */
  datatype Walk = Walk(plainRead: nat, packedRead: nat, packedChecked: nat)

  predicate WalkOf(walk: Walk, acts: seq<Act>) {
    walk.plainRead <= |acts| && walk.packedRead <= walk.packedChecked <= |acts|
  }

  function PackedAt(w: World, acts: seq<Act>, decode: Decoder, path: Path, n: nat): Packed
    requires n <= |acts| && Run(w, acts, decode).Some?
  {
    CarrierAt(Midway(w, acts, decode, n), path).packed
  }

  /** How often a listing counts a carrier: a plain name when read, a compressed one if the plain is then missing. */
  function Listed(w: World, acts: seq<Act>, decode: Decoder, path: Path, walk: Walk): nat
    requires WalkOf(walk, acts) && Run(w, acts, decode).Some?
  {
    (if PlainAt(w, acts, decode, path, walk.plainRead).Some? then 1 else 0)
    + if !PackedAt(w, acts, decode, path, walk.packedRead).Absent?
         && PlainAt(w, acts, decode, path, walk.packedChecked).None? then 1 else 0
  }

  /** A carrier that is there stays there. */
  lemma StaysPresent(w: World, acts: seq<Act>, decode: Decoder, path: Path, n: nat)
    requires Reachable(w, decode) && Run(w, acts, decode).Some? && n <= |acts| && Present(CarrierAt(w, path))
    ensures Present(CarrierAt(Midway(w, acts, decode, n), path))
  {
    ReachableSound(w, decode);
    RunMidway(w, acts, decode, n);
    RunExtends(w, acts[..n], decode, path);
  }

  /**
   A listing walks the directory entry by entry and checks each as it comes to it, and anything may
   happen meanwhile. In whatever order it reads the two names, a carrier is counted twice exactly when
   its compressed name was read and the plain file, missing when that name was checked, stands when the
   plain name is read; never exactly when the plain file is missing when its name is read and either
   stands when the compressed name is checked or the compressed name was not there to be read; and once
   otherwise. Of a carrier present from the start neither name is read only if the plain file changed
   between the two readings. Each change is pinned to the steps between its two moments.
   */
  lemma ListedOnce(w: World, acts: seq<Act>, decode: Decoder, path: Path, walk: Walk)
    requires Run(w, acts, decode).Some? && WalkOf(walk, acts)
    ensures var missed := PlainAt(w, acts, decode, path, walk.plainRead).None?;
            var read := !PackedAt(w, acts, decode, path, walk.packedRead).Absent?;
            var twice := read && Arises(w, acts, decode, path, walk.packedChecked, walk.plainRead);
            var never := missed && (!read || Arises(w, acts, decode, path, walk.plainRead, walk.packedChecked));
            && Listed(w, acts, decode, path, walk) == (if twice then 2 else if never then 0 else 1)
            && (Reachable(w, decode) && Present(CarrierAt(w, path)) && missed && !read ==>
                  Arises(w, acts, decode, path, walk.plainRead, walk.packedRead))
  {
    ArisesMeaning(w, acts, decode, path, walk.packedChecked, walk.plainRead);
    ArisesMeaning(w, acts, decode, path, walk.plainRead, walk.packedChecked);
    ArisesMeaning(w, acts, decode, path, walk.plainRead, walk.packedRead);
    if Reachable(w, decode) && Present(CarrierAt(w, path)) {
      StaysPresent(w, acts, decode, path, walk.packedRead);
    }
  }

  /** No step of the run publishes or removes the plain file. */
  predicate Undisturbed(w: World, acts: seq<Act>, decode: Decoder, path: Path)
    requires Run(w, acts, decode).Some?
  {
    true !in Publications(w, acts, decode, path) && true !in Recompressions(acts, path)
  }

  /** However a listing goes, a carrier whose plain file neither appears nor disappears is counted once. */
  lemma ListedOnceUndisturbed(w: World, acts: seq<Act>, decode: Decoder, path: Path, walk: Walk)
    requires Reachable(w, decode) && Run(w, acts, decode).Some? && WalkOf(walk, acts) && Present(CarrierAt(w, path))
    requires Undisturbed(w, acts, decode, path)
    ensures Listed(w, acts, decode, path, walk) == 1
  {
    StaysUntil(w, acts, decode, path, walk.plainRead);
    StaysUntil(w, acts, decode, path, walk.packedRead);
    StaysUntil(w, acts, decode, path, walk.packedChecked);
    StaysPresent(w, acts, decode, path, walk.packedRead);
  }

  lemma {:induction false} StaysUntil(w: World, acts: seq<Act>, decode: Decoder, path: Path, n: nat)
    requires Run(w, acts, decode).Some? && n <= |acts| && Undisturbed(w, acts, decode, path)
    ensures PlainAt(w, acts, decode, path, n).Some? == CarrierAt(w, path).plain.Some?
  {
    if n < |acts| {
      StaysUntil(w, acts[..|acts| - 1], decode, path, n);
      assert acts[..|acts| - 1][..n] == acts[..n];
    } else {
      assert acts[..n] == acts;
      PlainEnds(w, acts, decode, path);
    }
  }

  // One carrier with nobody but Codex about, and the listings that go wrong.

  function Quietly(path: Path, c: Carrier): World {
    World(map[path := c], map[], map[])
  }

  /** Both names are read, and recompression removes the plain one before the compressed one is checked. */
  lemma ListedTwice(path: Path, text: Bytes, frame: Bytes, decode: Decoder)
    requires decode(frame) == Ok(text)
    ensures var w, acts := Quietly(path, Carrier(Some(text), File(frame))), [Codex(path, Unlink)];
            Start(w) && Run(w, acts, decode).Some? && Listed(w, acts, decode, path, Walk(0, 0, 1)) == 2
  {
    RunOne(Quietly(path, Carrier(Some(text), File(frame))), Codex(path, Unlink), decode);
  }

  /** The compressed name is read and checked, then the carrier is restored, then the plain name is read. */
  lemma ListedTwiceRestored(path: Path, text: Bytes, frame: Bytes, decode: Decoder)
    requires decode(frame) == Ok(text)
    ensures var w, acts := Quietly(path, Carrier(None, File(frame))), [Codex(path, Restore)];
            Start(w) && Run(w, acts, decode).Some? && Listed(w, acts, decode, path, Walk(1, 0, 0)) == 2
  {
    RunOne(Quietly(path, Carrier(None, File(frame))), Codex(path, Restore), decode);
  }

  /** The compressed name is read, and the carrier is restored before it is checked. */
  lemma ListedNever(path: Path, text: Bytes, frame: Bytes, decode: Decoder)
    requires decode(frame) == Ok(text)
    ensures var w, acts := Quietly(path, Carrier(None, File(frame))), [Codex(path, Restore)];
            Start(w) && Run(w, acts, decode).Some? && Listed(w, acts, decode, path, Walk(0, 0, 1)) == 0
  {
    RunOne(Quietly(path, Carrier(None, File(frame))), Codex(path, Restore), decode);
  }

  /** The walk is past where the plain name would be when the carrier is restored and its copy retired. */
  lemma ListedNeverRetired(path: Path, text: Bytes, frame: Bytes, decode: Decoder)
    requires decode(frame) == Ok(text)
    ensures var w, acts := Quietly(path, Carrier(None, File(frame))), [Codex(path, Restore), Codex(path, Unpack)];
            Start(w) && Run(w, acts, decode).Some? && Listed(w, acts, decode, path, Walk(0, 2, 2)) == 0
  {
    var w, first, second := Quietly(path, Carrier(None, File(frame))), Codex(path, Restore), Codex(path, Unpack);
    RunOne(w, first, decode);
    RunConcat(w, [first], [second], decode);
    RunOne(Run(w, [first], decode).value, second, decode);
    var acts := [first] + [second];
    assert acts == [first, second] && acts[..0] == [] && acts[..2] == acts;
  }

  lemma RunOne(w: World, act: Act, decode: Decoder)
    ensures Run(w, [act], decode) == Step(w, act, decode)
    ensures Run(w, [], decode) == Some(w) && [act][..0] == [] && [act][..1] == [act]
  {
    assert [act][..0] == [];
    assert Run(w, [], decode) == Some(w);
  }
}
