/** src/ztee.c: the reading and the processing thread around a locked queue, as a state machine.
    A critical section is one step; a waiting thread may also wake up without a signal. */
module Ztee {

  /** Where the processing thread is: about to lock, waiting, woken, or holding a popped line. */
  datatype Consumer<L> = Top | Waiting | Woken | Writing(line: L) | Exited

  /** rest: lines still to be read; queue: between the threads; done: the reader is finished. */
  datatype State<L> = State(rest: seq<L>, queue: seq<L>, done: bool, consumer: Consumer<L>, written: seq<L>)

  datatype Step = PushLine | FinishReading | Recheck | WriteLine | SpuriousWake

  /** pthread_cond_signal wakes the processing thread if it is waiting. */
  function Signal<L>(c: Consumer<L>): Consumer<L>
  {
    if c.Waiting? then Woken else c
  }

  predicate Enabled<L>(s: State<L>, step: Step)
  {
    match step
    case PushLine => s.rest != []
    case FinishReading => s.rest == [] && !s.done
    case Recheck => s.consumer.Top? || s.consumer.Woken?
    case WriteLine => s.consumer.Writing?
    case SpuriousWake => s.consumer.Waiting?
  }

  function Apply<L>(s: State<L>, step: Step): State<L>
    requires Enabled(s, step)
  {
    match step
    case PushLine => s.(rest := s.rest[1..], queue := s.queue + [s.rest[0]], consumer := Signal(s.consumer))
    case FinishReading => s.(done := true, consumer := Signal(s.consumer))
    case Recheck =>
      if !s.done && s.queue == [] then s.(consumer := Waiting)
      else if s.queue == [] then s.(consumer := Exited)
      else s.(queue := s.queue[1..], consumer := Writing(s.queue[0]))
    case WriteLine => s.(consumer := Top, written := s.written + [s.consumer.line])
    case SpuriousWake => s.(consumer := Woken)
  }

  /** main: the first line is queued before the threads start. */
  function Init<L>(first: L, rest: seq<L>): State<L>
  {
    State(rest, [first], false, Top, [])
  }

  function InHand<L>(c: Consumer<L>): seq<L>
  {
    if c.Writing? then [c.line] else []
  }

  /** What every interleaving keeps, for the input all. */
  ghost predicate Invariant<L>(s: State<L>, all: seq<L>)
  {
    && s.written + InHand(s.consumer) + s.queue + s.rest == all
    && (s.done ==> s.rest == [])
    && (s.consumer.Waiting? ==> s.queue == [] && !s.done)
    && (s.consumer.Exited? ==> s.queue == [] && s.done)
  }

  /** A run: every state follows from the one before by an enabled step. */
  ghost predicate IsRun<L>(states: seq<State<L>>, steps: seq<Step>)
  {
    && |states| == |steps| + 1
    && forall i :: 0 <= i < |steps| ==> Follows(states[i], steps[i], states[i + 1])
  }

  ghost predicate Follows<L>(s: State<L>, step: Step, s': State<L>)
  {
    Enabled(s, step) && s' == Apply(s, step)
  }

  lemma {:induction false} MoveLine<L>(before: seq<L>, queue: seq<L>, rest: seq<L>)
    requires rest != []
    ensures before + queue + rest == before + (queue + [rest[0]]) + rest[1..]
  {
  }

  lemma {:induction false} TakeLine<L>(before: seq<L>, queue: seq<L>)
    requires queue != []
    ensures before + [] + queue == before + [queue[0]] + queue[1..]
  {
  }

  lemma {:induction false} StepKeepsInvariant<L>(s: State<L>, step: Step, all: seq<L>)
    requires Invariant(s, all) && Enabled(s, step)
    ensures Invariant(Apply(s, step), all)
  {
    match step
    case PushLine => MoveLine(s.written + InHand(s.consumer), s.queue, s.rest);
    case FinishReading =>
    case Recheck => if s.queue != [] { TakeLine(s.written, s.queue); }
    case WriteLine => assert s.written + [s.consumer.line] == s.written + [s.consumer.line] + [];
    case SpuriousWake =>
  }

  /** The invariant holds in every state of every run. */
  lemma {:induction false} RunKeepsInvariant<L>(states: seq<State<L>>, steps: seq<Step>, first: L, rest: seq<L>, i: nat)
    requires IsRun(states, steps) && states[0] == Init(first, rest) && i < |states|
    ensures Invariant(states[i], [first] + rest)
  {
    if i > 0 {
      RunKeepsInvariant(states, steps, first, rest, i - 1);
      assert Follows(states[i - 1], steps[i - 1], states[i]);
      StepKeepsInvariant(states[i - 1], steps[i - 1], [first] + rest);
    }
  }

  /** In every state the written lines are a prefix of the input; once the processor has exited they
      are all of it, each once and in order. */
  lemma {:induction false} OutputIsPrefix<L>(states: seq<State<L>>, steps: seq<Step>, first: L, rest: seq<L>, i: nat)
    requires IsRun(states, steps) && states[0] == Init(first, rest) && i < |states|
    ensures states[i].written <= [first] + rest
    ensures states[i].consumer.Exited? ==> states[i].written == [first] + rest
    ensures states[i].consumer.Waiting? ==> states[i].queue == [] && !states[i].done
  {
    RunKeepsInvariant(states, steps, first, rest, i);
  }

  /** No lost wakeup: until the processor has exited, some thread can make a step of its own. */
  lemma {:induction false} NeverStuck<L>(s: State<L>, all: seq<L>)
    requires Invariant(s, all) && !s.consumer.Exited?
    ensures exists step :: step != SpuriousWake && Enabled(s, step)
  {
    if s.consumer.Waiting? {
      assert Enabled(s, if s.rest != [] then PushLine else FinishReading);
    } else {
      assert Enabled(s, if s.consumer.Writing? then WriteLine else Recheck);
    }
  }

  function Rank<L>(c: Consumer<L>): nat
  {
    match c
    case Exited => 0
    case Waiting => 1
    case Woken => 2
    case Top => 2
    case Writing(_) => 3
  }

  /** Work left: each line costs a read, a pop and a write. */
  function Work<L>(s: State<L>): nat
  {
    6 * |s.rest| + (if s.done then 0 else 6) + 4 * |s.queue| + Rank(s.consumer)
  }

  function SpuriousWakes(steps: seq<Step>): nat
  {
    if steps == [] then 0
    else SpuriousWakes(steps[..|steps| - 1]) + if steps[|steps| - 1] == SpuriousWake then 1 else 0
  }

  /** Every run is finite apart from spurious wakeups: it makes at most Work(start) other steps plus
      one for each spurious wakeup. With NeverStuck, the processor exits. */
  lemma {:induction false} RunIsBounded<L>(states: seq<State<L>>, steps: seq<Step>)
    requires IsRun(states, steps)
    ensures |steps| + Work(states[|steps|]) <= Work(states[0]) + 2 * SpuriousWakes(steps)
  {
    if steps != [] {
      var n := |steps| - 1;
      RunIsBounded(states[..n + 1], steps[..n]);
      assert Follows(states[n], steps[n], states[n + 1]);
    }
  }
}
