/**
 Every interleaving of restorations, of any number of processes, with Codex and with crashes.

 What is assumed of Codex is its moves here: it decodes exactly, only appends to a plain file,
 removes a compressed copy only while a plain one exists, and removes a plain file in favour of
 its compressed copy only while that copy is there and decodes to the current plain text, at the
 moment of removal, and no restoration has opened the copy it would publish.
 */
module RestoreRuns {
  import opened Wrappers
  import opened Lines
  import opened Restorations

  type Pid = nat

  type Tid = nat

  // ---- Background attempts as callers see them ---------------------------------------------

  datatype Event = Started | Freed | Failed(failure: Failure) | Delivered(failure: Failure)

  datatype Status = Idle | Running | Pending(failure: Failure)

  /** The only order in which attempts may start, end, fail and be reported. */
  function Accept(status: Status, event: Event): Option<Status> {
    match (status, event)
    case (Idle, Started) => Some(Running)
    case (Running, Freed) => Some(Idle)
    case (Running, Failed(failure)) => Some(Pending(failure))
    case (Pending(failure), Delivered(told)) => if failure == told then Some(Idle) else None
    case _ => None
  }

  function Replay(log: seq<Event>): Option<Status> {
    if log == [] then Some(Idle)
    else
      match Replay(log[..|log| - 1])
      case None => None
      case Some(status) => Accept(status, log[|log| - 1])
  }

  // ---- The world ---------------------------------------------------------------------------

  /** One call of `restore`, or one background restoration. */
  datatype Task = Task(pid: Pid, path: Path, background: bool, stage: Stage)

  /** `owner` and `log` record who holds each turn and what became of background attempts. */
  datatype Process = Process(memory: Memory, owner: map<Path, Tid>, log: map<Path, seq<Event>>)

  datatype World = World(files: map<Path, Carrier>, procs: map<Pid, Process>, tasks: map<Tid, Task>)

  datatype CodexMove =
    | Create(text: Bytes)
    | Restore
    | Append(more: Bytes)
    | Pack(frame: Bytes)
    | Unpack
    | Unlink

  datatype Act =
    | Boot(pid: Pid)
    | Crash(pid: Pid)
    | Enter(tid: Tid, pid: Pid, path: Path)
    | Look(tid: Tid, answer: Answer)
    | Take(tid: Tid)
    | BeginRestore(tid: Tid, pid: Pid, path: Path, plainAnswer: Answer, packedAnswer: Answer)
    | Spawn(tid: Tid)
    | Move(tid: Tid, answer: Answer)
    | Leave(tid: Tid)
    | Unwind(tid: Tid)
    | Codex(path: Path, move: CodexMove)

  function CarrierAt(w: World, path: Path): Carrier {
    if path in w.files then w.files[path] else Carrier(None, Absent)
  }

  function LogOf(p: Process, path: Path): seq<Event> {
    if path in p.log then p.log[path] else []
  }

  predicate Holding(stage: Stage) {
    stage.Spawning? || Working(stage) || stage.Finished?
  }

  /** A restoration that has opened the compressed copy. */
  predicate InFlight(stage: Stage) {
    stage.Decode? || stage.Link? || stage.Persist? || stage.Retire?
  }

  function At(w: World, tid: Tid, stage: Stage): World
    requires tid in w.tasks
  {
    w.(tasks := w.tasks[tid := w.tasks[tid].(stage := stage)])
  }

  function Noted(p: Process, path: Path, event: Event): Process {
    p.(log := p.log[path := LogOf(p, path) + [event]])
  }

  function Claim(p: Process, memory: Memory, path: Path, tid: Tid): Process {
    p.(memory := memory, owner := p.owner[path := tid])
  }

  /** The turn ends in one critical section. */
  function Freeing(p: Process, task: Task, failure: Option<Failure>): Process {
    var q := p.(memory := if task.background then Settled(p.memory, task.path, failure)
                          else Released(p.memory, task.path),
                owner := p.owner - {task.path});
    if !task.background then q
    else Noted(q, task.path, if failure.Some? then Failed(failure.value) else Freed)
  }

  function Free(w: World, tid: Tid, failure: Option<Failure>): World
    requires tid in w.tasks && w.tasks[tid].pid in w.procs
  {
    var task := w.tasks[tid];
    w.(tasks := w.tasks - {tid}, procs := w.procs[task.pid := Freeing(w.procs[task.pid], task, failure)])
  }

  function BeginStep(p: Process, tid: Tid, path: Path, cold: bool): Process {
    var memory := Begun(p.memory, path, cold);
    match BeginOf(p.memory, path, cold)
    case Surfaced(failure) => Noted(p.(memory := memory), path, Delivered(failure))
    case Claimed => Noted(Claim(p, memory, path, tid), path, Started)
    case _ => p
  }

  /** A waiter whose carrier is free takes the turn. */
  function TakeAt(w: World, tid: Tid): World
    requires tid in w.tasks && w.tasks[tid].pid in w.procs
  {
    var task := w.tasks[tid];
    var p := w.procs[task.pid];
    At(w, tid, Check).(procs := w.procs[task.pid := Claim(p, Taken(p.memory, task.path), task.path, tid)])
  }

  /** A caller that cannot wait: at most a task that will restore in the background. */
  function BeginAt(w: World, tid: Tid, pid: Pid, path: Path, cold: bool): World
    requires pid in w.procs
  {
    var p := w.procs[pid];
    w.(procs := w.procs[pid := BeginStep(p, tid, path, cold)],
       tasks := if BeginOf(p.memory, path, cold) == Claimed then w.tasks[tid := Task(pid, path, true, Spawning)]
           else w.tasks)
  }

  /** What Codex does to one carrier, or None where it does not. */
  function CodexStep(c: Carrier, move: CodexMove, decode: Decoder): Option<Carrier> {
    match move
    case Create(text) => if c.plain.None? && c.packed.Absent? then Some(c.(plain := Some(text))) else None
    case Restore =>
      if Cold(c) && decode(c.packed.frame).Ok? then Some(c.(plain := Some(decode(c.packed.frame).value))) else None
    case Append(more) => if c.plain.Some? then Some(c.(plain := Some(c.plain.value + more))) else None
    case Pack(frame) =>
      if c.plain.Some? && decode(frame) == Ok(c.plain.value) then Some(c.(packed := File(frame))) else None
    case Unpack => if c.plain.Some? then Some(c.(packed := Absent)) else None
    case Unlink =>
      if c.plain.Some? && c.packed.File? && decode(c.packed.frame) == Ok(c.plain.value) then Some(c.(plain := None))
      else None
  }

  predicate Quiet(w: World, path: Path) {
    forall tid | tid in w.tasks :: w.tasks[tid].path == path ==> !InFlight(w.tasks[tid].stage)
  }

  /** One atomic step of the whole system, or None where it is not enabled. */
  function Step(w: World, act: Act, decode: Decoder): Option<World> {
    match act
    case Boot(pid) =>
      if pid in w.procs then None else Some(w.(procs := w.procs[pid := Process(NO_RESTORATIONS, map[], map[])]))
    case Crash(pid) =>
      Some(w.(procs := w.procs - {pid}, tasks := map tid | tid in w.tasks && w.tasks[tid].pid != pid :: w.tasks[tid]))
    case Enter(tid, pid, path) =>
      if tid in w.tasks || pid !in w.procs then None
      else Some(w.(tasks := w.tasks[tid := Task(pid, path, false, Entering)]))
    case Look(tid, answer) =>
      if tid !in w.tasks || !w.tasks[tid].stage.Entering? then None
      else if answer.Fine? && CarrierAt(w, w.tasks[tid].path).plain.Some? then Some(w.(tasks := w.tasks - {tid}))
      else Some(At(w, tid, Waiting))
    case Take(tid) =>
      if tid !in w.tasks || !w.tasks[tid].stage.Waiting? then None
      else
        var task := w.tasks[tid];
        if task.pid !in w.procs || task.path in w.procs[task.pid].memory.running then None
        else Some(TakeAt(w, tid))
    case BeginRestore(tid, pid, path, plainAnswer, packedAnswer) =>
      if tid in w.tasks || pid !in w.procs then None
      else
        var c := CarrierAt(w, path);
        var cold := (c.plain.None? || plainAnswer.Fault?) && c.packed.File? && packedAnswer.Fine?;
        Some(BeginAt(w, tid, pid, path, cold))
    case Spawn(tid) =>
      if tid !in w.tasks || !w.tasks[tid].stage.Spawning? then None else Some(At(w, tid, Check))
    case Move(tid, answer) =>
      if tid !in w.tasks || !Working(w.tasks[tid].stage) then None
      else
        var task := w.tasks[tid];
        var (stage, c) := Work(task.stage, CarrierAt(w, task.path), answer, decode);
        Some(At(w, tid, stage).(files := w.files[task.path := c]))
    case Leave(tid) =>
      if tid !in w.tasks || !w.tasks[tid].stage.Finished? || w.tasks[tid].pid !in w.procs then None
      else Some(Free(w, tid, w.tasks[tid].stage.failure))
    case Unwind(tid) =>
      if tid !in w.tasks || !Holding(w.tasks[tid].stage) || w.tasks[tid].pid !in w.procs then None
      else Some(Free(w, tid, None))
    case Codex(path, move) =>
      match CodexStep(CarrierAt(w, path), move, decode)
      case None => None
      case Some(c) => if move.Unlink? && !Quiet(w, path) then None else Some(w.(files := w.files[path := c]))
  }

  function Run(w: World, acts: seq<Act>, decode: Decoder): Option<World> {
    if acts == [] then Some(w)
    else
      match Run(w, acts[..|acts| - 1], decode)
      case None => None
      case Some(last) => Step(last, acts[|acts| - 1], decode)
  }

  /** Before any process starts; the directory may hold anything. */
  predicate Start(w: World) {
    w.procs == map[] && w.tasks == map[]
  }

  // ---- The invariant -----------------------------------------------------------------------

  /** A task belongs to a live process, owns the turn it holds, and knows its carrier. */
  predicate TaskOk(w: World, tid: Tid, decode: Decoder) {
    tid in w.tasks ==>
      var task := w.tasks[tid];
      && task.pid in w.procs
      && (task.background ==> Holding(task.stage))
      && (Holding(task.stage) ==> var owner := w.procs[task.pid].owner; task.path in owner && owner[task.path] == tid)
      && Honest(task.stage, CarrierAt(w, task.path), decode)
  }

  predicate Owned(w: World, pid: Pid, path: Path)
    requires pid in w.procs && path in w.procs[pid].owner
  {
    var tid := w.procs[pid].owner[path];
    tid in w.tasks && w.tasks[tid].pid == pid && w.tasks[tid].path == path && Holding(w.tasks[tid].stage)
  }

  function StatusOf(w: World, pid: Pid, path: Path): Status
    requires pid in w.procs
  {
    var p := w.procs[pid];
    if path in p.owner && p.owner[path] in w.tasks && w.tasks[p.owner[path]].background then Running
    else if path in p.memory.failed then Pending(p.memory.failed[path])
    else Idle
  }

  /** The lock's memory of one carrier agrees with who holds it and with its log. */
  predicate TurnOk(w: World, pid: Pid, path: Path) {
    pid in w.procs ==>
      var p := w.procs[pid];
      && (path in p.memory.running <==> path in p.owner)
      && (path in p.owner ==> Owned(w, pid, path))
      && Replay(LogOf(p, path)) == Some(StatusOf(w, pid, path))
      && (StatusOf(w, pid, path) == Running ==> path !in p.memory.failed)
  }

  ghost predicate Sound(w: World, decode: Decoder) {
    && (forall tid :: TaskOk(w, tid, decode))
    && (forall pid, path :: TurnOk(w, pid, path))
  }

  // ---- Carriers, step by step --------------------------------------------------------------

  /** A plain file stays, and while there is none the compressed copy is not touched. */
  predicate Steady(c: Carrier, c': Carrier) {
    && (c.plain.Some? ==> c'.plain.Some?)
    && (c.plain.None? && c'.plain.None? ==> c'.packed == c.packed)
  }

  lemma HonestStays(stage: Stage, c: Carrier, c': Carrier, decode: Decoder)
    requires Honest(stage, c, decode) && (Steady(c, c') || !InFlight(stage))
    ensures Honest(stage, c', decode)
  {
  }

  lemma CodexKeeps(c: Carrier, move: CodexMove, decode: Decoder)
    requires CodexStep(c, move, decode).Some?
    ensures Extends(c, CodexStep(c, move, decode).value, decode)
    ensures !move.Unlink? ==> Steady(c, CodexStep(c, move, decode).value)
  {
  }

  lemma WorkSteady(stage: Stage, c: Carrier, answer: Answer, decode: Decoder)
    requires Honest(stage, c, decode)
    ensures Steady(c, Work(stage, c, answer, decode).1)
  {
  }

  /** Any step of the system extends any carrier. */
  lemma CarrierStep(w: World, act: Act, decode: Decoder, path: Path)
    requires Step(w, act, decode).Some? && (act.Move? ==> TaskOk(w, act.tid, decode))
    ensures var c, c' := CarrierAt(w, path), CarrierAt(Step(w, act, decode).value, path);
            && Extends(c, c', decode)
            && (Steady(c, c') || (act == Codex(path, Unlink) && Quiet(w, path)))
  {
    match act {
      case Move(tid, answer) =>
        var task := w.tasks[tid];
        if task.path == path {
          WorkKeeps(task.stage, CarrierAt(w, path), answer, decode);
          WorkSteady(task.stage, CarrierAt(w, path), answer, decode);
        }
      case Codex(at, move) =>
        if at == path {
          CodexKeeps(CarrierAt(w, path), move, decode);
        }
      case _ =>
    }
  }
}
