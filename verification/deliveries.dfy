/** The unbounded buffer between a connection and a consumer (streadway/amqp consumers.go). */
module Deliveries {

  /** Where the goroutine is: waiting for input, offering a delivery it just got, emptying the queue, or finished. */
  datatype Place<D> = Waiting | Offering(hand: D) | Draining | Finished

  /** `received` and `out` are everything that came in and went out so far; `listening` is whether the inner loop still looks at the input. */
  datatype State<D> = State(
    place: Place<D>,
    queue: seq<D>,
    listening: bool,
    inputClosed: bool,
    received: seq<D>,
    out: seq<D>)

  datatype Action<D> =
    | CloseInput
    | Receive(d: D)
    | HandOver
    | Enqueue
    | SendHead
    | ReceiveMore(d: D)
    | NoticeClosed
    | QueueEmpty
    | CloseOutput

  function Start<D>(): State<D> {
    State(Waiting, [], true, false, [], [])
  }

  /**
   * What can happen next: the owner closes the input or sends on it, the consumer takes something or is not
   * ready, the goroutine moves on. When several can, any may.
   */
  predicate Enabled<D(==)>(s: State<D>, a: Action<D>) {
    match a
    case CloseInput => !s.inputClosed
    case Receive(_) => s.place == Waiting && !s.inputClosed
    case HandOver => s.place.Offering?
    case Enqueue => s.place.Offering?
    case SendHead => s.place == Draining && s.queue != []
    case ReceiveMore(_) => s.place == Draining && s.queue != [] && s.listening && !s.inputClosed
    case NoticeClosed => s.place == Draining && s.queue != [] && s.listening && s.inputClosed
    case QueueEmpty => s.place == Draining && s.queue == []
    case CloseOutput => s.place == Waiting && s.inputClosed
  }

  function Next<D(==)>(s: State<D>, a: Action<D>): State<D>
    requires Enabled(s, a)
  {
    match a
    case CloseInput => s.(inputClosed := true)
    case Receive(d) => s.(place := Offering(d), received := s.received + [d])
    case HandOver => s.(place := Draining, out := s.out + [s.place.hand])
    case Enqueue => s.(place := Draining, queue := s.queue + [s.place.hand])
    case SendHead => s.(queue := s.queue[1..], out := s.out + [s.queue[0]])
    case ReceiveMore(d) => s.(queue := s.queue + [d], received := s.received + [d])
    case NoticeClosed => s.(listening := false)
    case QueueEmpty => s.(place := Waiting)
    case CloseOutput => s.(place := Finished)
  }

  /** What is inside: the queue and the delivery in hand. */
  function Held<D>(s: State<D>): seq<D> {
    if s.place.Offering? then s.queue + [s.place.hand] else s.queue
  }

  predicate Lossless<D(==)>(s: State<D>) {
    && s.received == s.out + Held(s)
    && (!s.place.Draining? ==> s.queue == [])
    && (s.place.Finished? ==> s.inputClosed)
    && (!s.listening ==> s.inputClosed)
  }

  lemma StepKeepsLossless<D>(s: State<D>, a: Action<D>)
    requires Lossless(s) && Enabled(s, a)
    ensures Lossless(Next(s, a))
  {
    if a.SendHead? {
      assert s.queue == [s.queue[0]] + s.queue[1..];
    }
  }

  predicate Possible<D(==)>(s: State<D>, run: seq<Action<D>>)
    decreases |run|
  {
    run == [] || (Enabled(s, run[0]) && Possible(Next(s, run[0]), run[1..]))
  }

  function After<D(==)>(s: State<D>, run: seq<Action<D>>): State<D>
    requires Possible(s, run)
    decreases |run|
  {
    if run == [] then s else After(Next(s, run[0]), run[1..])
  }

  lemma {:induction false} RunKeepsLossless<D>(s: State<D>, run: seq<Action<D>>)
    requires Lossless(s) && Possible(s, run)
    ensures Lossless(After(s, run))
    decreases |run|
  {
    if run != [] {
      StepKeepsLossless(s, run[0]);
      RunKeepsLossless(Next(s, run[0]), run[1..]);
    }
  }

  /**
   * Under every schedule, what went out is a prefix of what came in and the rest is held; the output is
   * closed only after the input, and only when everything has gone out.
   */
  lemma {:induction false} NothingLostOrReordered<D>(run: seq<Action<D>>)
    requires Possible(Start(), run)
    ensures var s := After(Start(), run);
            s.out <= s.received && s.received[|s.out|..] == Held(s)
    ensures var s := After(Start(), run);
            s.place.Finished? ==> s.inputClosed && s.out == s.received
  {
    RunKeepsLossless<D>(Start(), run);
  }

  /** How far it is to the end once the input is closed. */
  function Left<D>(s: State<D>): nat {
    3 * |s.queue| + (if s.listening then 1 else 0) +
    (match s.place
     case Waiting => 1
     case Offering(_) => 6
     case Draining => 2
     case Finished => 0)
  }

  /** With the input closed every step comes closer to the end, and there is a step until it is reached. */
  lemma DrainsAndEnds<D>(s: State<D>, a: Action<D>)
    requires Lossless(s) && s.inputClosed && Enabled(s, a)
    ensures Left(Next(s, a)) < Left(s) && Next(s, a).inputClosed
  {
  }

  lemma {:induction false} EveryDrainingRunEnds<D>(s: State<D>, run: seq<Action<D>>)
    requires Lossless(s) && s.inputClosed && Possible(s, run)
    ensures |run| + Left(After(s, run)) <= Left(s)
    decreases |run|
  {
    if run != [] {
      DrainsAndEnds(s, run[0]);
      StepKeepsLossless(s, run[0]);
      EveryDrainingRunEnds(Next(s, run[0]), run[1..]);
    }
  }

  /** It is stuck only while waiting for input, or at the end. */
  lemma NeverStuck<D>(s: State<D>)
    requires Lossless(s) && !s.place.Finished? && (s.place.Waiting? ==> s.inputClosed)
    ensures exists a: Action<D> :: Enabled(s, a) && !a.CloseInput?
  {
    match s.place
    case Waiting => assert Enabled(s, CloseOutput);
    case Offering(_) => assert Enabled(s, HandOver);
    case Draining =>
      if s.queue == [] {
        assert Enabled(s, QueueEmpty);
      } else {
        assert Enabled(s, SendHead);
      }
  }

  /** The goroutine itself, fed with `input` and then closed; each select takes whichever side is ready. */
  method BufferDeliveries<D>(input: seq<D>) returns (out: seq<D>)
    ensures out == input
  {
    out := [];
    var queue: seq<D> := [];
    var queueIn := true;
    var next := 0;
    while next < |input|
      invariant 0 <= next <= |input| && queue == []
      invariant out == input[..next]
    {
      var delivery := input[next];
      next := next + 1;
      var ready := *;
      if ready {
        out := out + [delivery];
      } else {
        queue := queue + [delivery];
      }
      while |queue| > 0
        invariant 0 <= next <= |input| && input[..next] == out + queue
        decreases |input| - next, queueIn, |queue|
      {
        ready := *;
        if ready || !queueIn {
          out := out + [queue[0]];
          queue := queue[1..];
        } else if next < |input| {
          queue := queue + [input[next]];
          next := next + 1;
        } else {
          queueIn := false;
        }
      }
    }
  }
}
