/**
 The restorations of one process: which carriers are being restored, and which background
 failures still wait for a caller. Every change is one critical section of a lock.
 */
module Restorations {
  import opened Wrappers
  import opened Lines

  type Path = string

  datatype Failure = Failure(kind: string, message: string)

  /** What the lock protects. */
  datatype Memory = Memory(running: set<Path>, failed: map<Path, Failure>)

  /** What a caller that cannot wait learns. */
  datatype Begin = Surfaced(failure: Failure) | Readable | Busy | Claimed

  const NO_RESTORATIONS := Memory({}, map[])

  function Taken(m: Memory, plain: Path): Memory {
    m.(running := m.running + {plain})
  }

  function Released(m: Memory, plain: Path): Memory {
    m.(running := m.running - {plain})
  }

  /** A background turn ends: its failure, if any, is recorded in the step that frees the carrier. */
  function Settled(m: Memory, plain: Path, failure: Option<Failure>): Memory {
    Memory(m.running - {plain}, if failure.Some? then m.failed[plain := failure.value] else m.failed)
  }

  function BeginOf(m: Memory, plain: Path, cold: bool): Begin {
    if plain in m.failed then Surfaced(m.failed[plain])
    else if !cold then Readable
    else if plain in m.running then Busy
    else Claimed
  }

  function Begun(m: Memory, plain: Path, cold: bool): Memory {
    match BeginOf(m, plain, cold)
    case Surfaced(_) => m.(failed := m.failed - {plain})
    case Claimed => Taken(m, plain)
    case _ => m
  }

  class Lock {
    var running: set<Path>
    var failed: map<Path, Failure>

    function State(): Memory
      reads this
    {
      Memory(running, failed)
    }

    constructor ()
      ensures State() == NO_RESTORATIONS
    {
      running, failed := {}, map[];
    }

    /** One round of a waiter: takes the turn unless another restoration holds it. */
    method TakeTurn(plain: Path) returns (taken: bool)
      modifies this
      ensures taken <==> plain !in old(running)
      ensures State() == if taken then Taken(old(State()), plain) else old(State())
    {
      taken := plain !in running;
      if taken {
        running := running + {plain};
      }
    }

    method DropTurn(plain: Path)
      modifies this
      ensures State() == Released(old(State()), plain)
    {
      running := running - {plain};
    }

    method DropBackground(plain: Path, failure: Option<Failure>)
      modifies this
      ensures State() == Settled(old(State()), plain, failure)
    {
      if failure.Some? {
        failed := failed[plain := failure.value];
      }
      running := running - {plain};
    }

    /** Everything `begin_restore` does before it lets go of the lock. */
    method BeginRestore(plain: Path, cold: bool) returns (begin: Begin)
      modifies this
      ensures begin == BeginOf(old(State()), plain, cold)
      ensures State() == Begun(old(State()), plain, cold)
    {
      if plain in failed {
        begin := Surfaced(failed[plain]);
        failed := failed - {plain};
        return;
      }
      if !cold {
        return Readable;
      }
      if plain in running {
        return Busy;
      }
      running := running + {plain};
      return Claimed;
    }
  }

  // ---- One carrier and one restoration of it -----------------------------------------------

  /** The compressed name: missing, a regular file, or some other kind of entry. */
  datatype Packed = Absent | File(frame: Bytes) | Other

  /** The two names of one carrier. */
  datatype Carrier = Carrier(plain: Option<Bytes>, packed: Packed)

  /** Decoding a compressed copy; the source reads it frame by frame. */
  type Decoder = Bytes -> Result<Bytes, Failure>

  /** What a reader gets: the plain bytes, else the decoded compressed ones. */
  function History(c: Carrier, decode: Decoder): Option<Bytes> {
    if c.plain.Some? then c.plain
    else if c.packed.File? && decode(c.packed.frame).Ok? then Some(decode(c.packed.frame).value)
    else None
  }

  predicate Cold(c: Carrier) {
    c.plain.None? && c.packed.File?
  }

  /** Where a restoration stands. `Check` to `Finished` run while it holds the carrier's turn. */
  datatype Stage =
    | Entering
    | Waiting
    | Spawning
    | Check
    | Open
    | Decode(frame: Bytes)
    | Link(text: Bytes)
    | Persist(text: Bytes)
    | Retire
    | Finished(failure: Option<Failure>)

  /** How the operating system answers: normally, or with an error. */
  datatype Answer = Fine | Fault(failure: Failure)

  /** Publishing never replaces an existing plain file. */
  function Publish(c: Carrier, text: Bytes): Carrier {
    if c.plain.None? then c.(plain := Some(text)) else c
  }

  /** One atomic operation of a restoration that holds the turn. */
  function Work(stage: Stage, c: Carrier, answer: Answer, decode: Decoder): (Stage, Carrier) {
    match stage
    case Check => (if answer.Fine? && c.plain.Some? then Finished(None) else Open, c)
    case Open =>
      (if answer.Fault? then Finished(Some(answer.failure))
       else if c.packed.File? then Decode(c.packed.frame)
       else Finished(None), c)
    case Decode(frame) =>
      (if answer.Fault? then Finished(Some(answer.failure))
       else match decode(frame) case Ok(text) => Link(text) case Err(failure) => Finished(Some(failure)), c)
    case Link(text) => if answer.Fault? then (Persist(text), c) else (Retire, Publish(c, text))
    case Persist(text) =>
      if answer.Fault? then (Finished(Some(answer.failure)), c) else (Retire, Publish(c, text))
    case Retire =>
      if answer.Fault? then (Finished(Some(answer.failure)), c) else (Finished(None), c.(packed := Absent))
    case _ => (stage, c)
  }

  predicate Working(stage: Stage) {
    stage.Check? || stage.Open? || stage.Decode? || stage.Link? || stage.Persist? || stage.Retire?
  }

  function Remaining(stage: Stage): nat {
    match stage
    case Check => 6
    case Open => 5
    case Decode(_) => 4
    case Link(_) => 3
    case Persist(_) => 2
    case Retire => 1
    case _ => 0
  }

  /** What the operating system answers at each stage. */
  type Answers = Stage -> Answer

  /** A restoration that nothing interrupts. */
  function Alone(stage: Stage, c: Carrier, answers: Answers, decode: Decoder): (Stage, Carrier)
    decreases Remaining(stage)
  {
    if !Working(stage) then (stage, c)
    else
      var (next, c') := Work(stage, c, answers(stage), decode);
      Alone(next, c', answers, decode)
  }

  /** What a restoration knows of its carrier, whatever others do to it meanwhile. */
  predicate Honest(stage: Stage, c: Carrier, decode: Decoder) {
    match stage
    case Decode(frame) => c.plain.None? ==> c.packed == File(frame)
    case Link(text) => c.plain.None? ==> History(c, decode) == Some(text)
    case Persist(text) => c.plain.None? ==> History(c, decode) == Some(text)
    case Retire => c.plain.Some?
    case _ => true
  }

  predicate Present(c: Carrier) {
    c.plain.Some? || c.packed.File?
  }

  /**
   Nothing readable is lost or rewritten: a history only grows, a carrier does not vanish, and
   one that cannot be decoded is left exactly as it is.
   */
  predicate Extends(c: Carrier, c': Carrier, decode: Decoder) {
    && (History(c, decode).Some? ==> History(c', decode).Some? && History(c, decode).value <= History(c', decode).value)
    && (Present(c) ==> Present(c'))
    && (c.plain.None? && c.packed.File? && decode(c.packed.frame).Err? ==> c' == c)
  }

  lemma WorkKeeps(stage: Stage, c: Carrier, answer: Answer, decode: Decoder)
    requires Honest(stage, c, decode)
    ensures var (next, c') := Work(stage, c, answer, decode);
            && Honest(next, c', decode) && Extends(c, c', decode) && History(c', decode) == History(c, decode)
            && (c.plain.Some? ==> c'.plain == c.plain)
  {
  }

  /** A restoration that nothing interrupts ends with the same history, or with an error. */
  lemma {:induction false} AloneKeepsHistory(stage: Stage, c: Carrier, answers: Answers, decode: Decoder)
    requires Working(stage) && Honest(stage, c, decode)
    ensures var (end, c') := Alone(stage, c, answers, decode);
            && end.Finished? && Extends(c, c', decode) && History(c', decode) == History(c, decode)
            && (end == Finished(None) ==> !Cold(c'))
    decreases Remaining(stage)
  {
    var (next, c') := Work(stage, c, answers(stage), decode);
    WorkKeeps(stage, c, answers(stage), decode);
    if Working(next) {
      AloneKeepsHistory(next, c', answers, decode);
    }
  }

  class Files {
    var plain: Option<Bytes>
    var packed: Packed

    function Pair(): Carrier
      reads this
    {
      Carrier(plain, packed)
    }

    method PublishNoclobber(text: Bytes, link: Answer, persist: Answer) returns (failure: Option<Failure>)
      modifies this
      ensures failure.Some? <==> link.Fault? && persist.Fault?
      ensures failure.Some? ==> failure.value == persist.failure
      ensures Pair() == if failure.Some? then old(Pair()) else Publish(old(Pair()), text)
    {
      if link.Fine? {
        if plain.None? {
          plain := Some(text);
        }
        return None;
      }
      if persist.Fault? {
        return Some(persist.failure);
      }
      if plain.None? {
        plain := Some(text);
      }
      return None;
    }

    method RestoreHeld(answers: Answers, decode: Decoder) returns (failure: Option<Failure>)
      modifies this
      ensures (Finished(failure), Pair()) == Alone(Check, old(Pair()), answers, decode)
    {
      ghost var c := Pair();
      if answers(Check).Fine? && plain.Some? {
        return None;
      }
      if answers(Open).Fault? {
        return Some(answers(Open).failure);
      }
      if !packed.File? {
        return None;
      }
      var input := packed.frame;
      assert Alone(Check, c, answers, decode) == Alone(Decode(input), c, answers, decode);
      if answers(Decode(input)).Fault? {
        return Some(answers(Decode(input)).failure);
      }
      var decoded := decode(input);
      if decoded.Err? {
        return Some(decoded.error);
      }
      var text := decoded.value;
      assert Alone(Decode(input), c, answers, decode) == Alone(Link(text), c, answers, decode);
      var published := PublishNoclobber(text, answers(Link(text)), answers(Persist(text)));
      if published.Some? {
        assert Work(Persist(text), c, answers(Persist(text)), decode) == (Finished(published), c);
        assert Alone(Persist(text), c, answers, decode) == (Finished(published), c);
        return published;
      }
      assert Alone(Link(text), c, answers, decode) == Alone(Retire, Pair(), answers, decode);
      if answers(Retire).Fault? {
        return Some(answers(Retire).failure);
      }
      packed := Absent;
      return None;
    }
  }
}
