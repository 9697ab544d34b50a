/** The chunk buffer between the receive loop, which pushes, and the generator of server events, which yields. */
module Channel {
  import opened Wrappers

  // This is callAgentSkillStream from the first chunk on. The generator runs until it yields or awaits; in between
  // anything may be pushed.

  datatype Chunk<T> = Chunk(seqNo: nat, text: T)

  /** Runnable also when suspended at a `yield`; Asleep while awaiting the promise `resolveNext` would resolve. */
  datatype Consumer = Runnable | Asleep | Finished

  datatype State<T> = State(
    buffer: seq<Chunk<T>>,
    resolveNext: bool,
    done: bool,
    consumer: Consumer,
    pushed: seq<Chunk<T>>,
    yielded: seq<Chunk<T>>)

  datatype Event<T> = Push(c: Chunk<T>) | Settle | Resume

  function Init<T>(): State<T> {
    State([], false, false, Runnable, [], [])
  }

  function Wake<T>(s: State<T>): State<T> {
    if !s.resolveNext then s
    else s.(resolveNext := false, consumer := if s.consumer.Asleep? then Runnable else s.consumer)
  }

  /** Nothing is pushed once the call has settled; only a runnable consumer resumes. */
  function Step<T>(s: State<T>, e: Event<T>): State<T> {
    match e
    case Push(c) =>
      if s.done then s else Wake(s.(buffer := s.buffer + [c], pushed := s.pushed + [c]))
    case Settle =>
      if s.done then s else Wake(s.(done := true))
    case Resume =>
      if !s.consumer.Runnable? then s
      else if s.buffer != [] then s.(buffer := s.buffer[1..], yielded := s.yielded + [s.buffer[0]])
      else if s.done then s.(consumer := Finished)
      else s.(resolveNext := true, consumer := Asleep)
  }

  function Run<T>(s: State<T>, es: seq<Event<T>>): State<T> {
    if es == [] then s else Step(Run(s, es[..|es| - 1]), es[|es| - 1])
  }

  predicate Inv<T(==)>(s: State<T>) {
    && (s.consumer.Asleep? <==> s.resolveNext)
    && (s.consumer.Asleep? ==> s.buffer == [] && !s.done)
    && (s.consumer.Finished? ==> s.buffer == [] && s.done)
    && s.pushed == s.yielded + s.buffer
  }

  lemma StepKeepsInv<T>(s: State<T>, e: Event<T>)
    requires Inv(s)
    ensures Inv(Step(s, e))
  {
    match e
    case Push(c) => assert s.yielded + s.buffer + [c] == s.yielded + (s.buffer + [c]);
    case Resume =>
      if s.buffer != [] {
        assert s.yielded + s.buffer == (s.yielded + [s.buffer[0]]) + s.buffer[1..];
      }
    case Settle =>
  }

  lemma {:induction false} RunKeepsInv<T>(s: State<T>, es: seq<Event<T>>)
    requires Inv(s)
    ensures Inv(Run(s, es))
  {
    if es != [] {
      RunKeepsInv(s, es[..|es| - 1]);
      StepKeepsInv(Run(s, es[..|es| - 1]), es[|es| - 1]);
    }
  }

  /**
   * Over every interleaving: the consumer is never asleep while a chunk waits or the call is done, what it has
   * yielded is a prefix of what was pushed, and when it finishes it has yielded everything.
   */
  lemma NoLostWakeup<T>(es: seq<Event<T>>)
    ensures var s := Run(Init<T>(), es);
      && (s.buffer != [] || s.done ==> !s.consumer.Asleep?)
      && s.yielded <= s.pushed
      && (s.consumer.Finished? ==> s.done && s.yielded == s.pushed)
  {
    RunKeepsInv(Init<T>(), es);
  }

  predicate HasSettled<T>(es: seq<Event<T>>) {
    es != [] && (es[|es| - 1].Settle? || HasSettled(es[..|es| - 1]))
  }

  /** The chunks pushed before the call settled, read off the schedule. */
  function PushedBy<T>(es: seq<Event<T>>): seq<Chunk<T>> {
    if es == [] then []
    else
      var last := es[|es| - 1];
      PushedBy(es[..|es| - 1]) + (if last.Push? && !HasSettled(es[..|es| - 1]) then [last.c] else [])
  }

  lemma {:induction false} RunPushes<T>(es: seq<Event<T>>)
    ensures Run(Init<T>(), es).pushed == PushedBy(es)
    ensures Run(Init<T>(), es).done <==> HasSettled(es)
  {
    if es != [] {
      RunPushes(es[..|es| - 1]);
    }
  }

  /** A consumer that finished has yielded exactly the chunks pushed before the call settled, in order. */
  lemma FinishedYieldsAll<T>(es: seq<Event<T>>)
    requires Run(Init<T>(), es).consumer.Finished?
    ensures HasSettled(es) && Run(Init<T>(), es).yielded == PushedBy(es)
  {
    NoLostWakeup(es);
    RunPushes(es);
  }

  function Resumes<T>(n: nat): (es: seq<Event<T>>)
    ensures |es| == n && forall i :: 0 <= i < n ==> es[i] == Resume
  {
    seq(n, _ => Resume)
  }

  lemma {:induction false} RunFirst<T>(s: State<T>, e: Event<T>, es: seq<Event<T>>)
    ensures Run(s, [e] + es) == Run(Step(s, e), es)
  {
    if es == [] {
      assert [e] + es == [e] && [e][..0] == [];
      assert Run(s, []) == s;
    } else {
      var front := es[..|es| - 1];
      RunFirst(s, e, front);
      assert ([e] + es)[..|es|] == [e] + front;
    }
  }

  /**
   * Once the call is done, letting the consumer run at most one step per waiting chunk and one more finishes it,
   * with every chunk yielded in order.
   */
  lemma {:induction false} DrainsWhenDone<T>(s: State<T>)
    requires Inv(s) && s.done
    ensures Run(s, Resumes(|s.buffer| + 1)).consumer.Finished?
    ensures Run(s, Resumes(|s.buffer| + 1)).yielded == s.pushed
    decreases |s.buffer|
  {
    var n := |s.buffer|;
    assert Resumes<T>(n + 1) == [Resume] + Resumes<T>(n);
    RunFirst(s, Resume, Resumes<T>(n));
    StepKeepsInv(s, Resume);
    if s.consumer.Finished? {
      assert n == 0;
    } else if n > 0 {
      DrainsWhenDone(Step(s, Resume));
    }
  }

  /** While the call goes on, the consumer yields what is waiting and then sleeps: it does not spin. */
  lemma {:induction false} SleepsWhenDrained<T>(s: State<T>)
    requires Inv(s) && !s.done && s.consumer.Runnable?
    ensures Run(s, Resumes(|s.buffer| + 1)).consumer.Asleep?
    ensures Run(s, Resumes(|s.buffer| + 1)).yielded == s.pushed
    decreases |s.buffer|
  {
    var n := |s.buffer|;
    assert Resumes<T>(n + 1) == [Resume] + Resumes<T>(n);
    RunFirst(s, Resume, Resumes<T>(n));
    StepKeepsInv(s, Resume);
    if n > 0 {
      SleepsWhenDrained(Step(s, Resume));
    }
  }

  // ---- The object ----

  class ChunkChannel<T> {
    var chunkBuffer: seq<Chunk<T>>
    var resolveNext: bool
    var done: bool
    var consumer: Consumer
    ghost var pushed: seq<Chunk<T>>
    ghost var yielded: seq<Chunk<T>>

    ghost function Abs(): State<T>
      reads this
    {
      State(chunkBuffer, resolveNext, done, consumer, pushed, yielded)
    }

    constructor ()
      ensures Abs() == Init()
    {
      chunkBuffer, resolveNext, done, consumer := [], false, false, Runnable;
      pushed, yielded := [], [];
    }

    method WakeUp()
      modifies this`resolveNext, this`consumer
      ensures Abs() == Wake(old(Abs()))
    {
      if resolveNext {
        resolveNext := false;
        if consumer.Asleep? {
          consumer := Runnable;
        }
      }
    }

    method OnChunk(c: Chunk<T>)
      requires !done
      modifies this
      ensures Abs() == Step(old(Abs()), Push(c))
    {
      chunkBuffer := chunkBuffer + [c];
      pushed := pushed + [c];
      WakeUp();
    }

    method OnSettled()
      modifies this
      ensures Abs() == Step(old(Abs()), Settle)
    {
      if !done {
        done := true;
        WakeUp();
      }
    }

    /** The generator from one suspension to the next. */
    method RunToSuspension() returns (out: Option<Chunk<T>>)
      requires consumer.Runnable?
      modifies this
      ensures Abs() == Step(old(Abs()), Resume)
      ensures out == if old(chunkBuffer) == [] then None else Some(old(chunkBuffer)[0])
    {
      if |chunkBuffer| > 0 {
        var c := chunkBuffer[0];
        chunkBuffer := chunkBuffer[1..];
        yielded := yielded + [c];
        return Some(c);
      }
      out := None;
      if done {
        consumer := Finished;
      } else {
        resolveNext := true;
        consumer := Asleep;
      }
    }
  }
}
