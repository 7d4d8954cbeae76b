/** Runs of the clock sensor: any interleaving of publisher iterations, fixed
    simulation steps, frame starts and send completions, with the properties
    that hold across them (no reordering, no message handled twice, pacing
    that never goes back, at most one send in flight). */
module ClockRuns {
  import opened Sensors
  import opened Subsequences

  /** Something that drives the sensor. */
  datatype Event =
    | PublisherTick(now: int, actionThrows: bool)
    | FixedTick(time: real, connected: bool, fixedDelta: real)
    | FrameStart
    | Completion(send: Message)  // the publish callback of the send of `send` fires

  /** What one event did, as far as messages and sends are concerned:
      `flushed` is the backlog the latch cleared, `enqueued` the new message,
      `send` the send whose callback fired. */
  datatype Log =
    | Published(publication: Publication)
    | Sampled(flushed: seq<Message>, enqueued: Option<Message>)
    | FrameStarted
    | Completed(send: Message)

  function Apply(s: State, e: Event, frequency: nat): (State, Log) {
    match e
    case PublisherTick(now, throws) =>
      var r := PublisherNext(s, now, throws, frequency);
      (r.0, Published(r.1))
    case FixedTick(time, connected, fixedDelta) =>
      var flushed := if s.firstFixedUpdate && connected then s.queue else [];
      var enqueued := if time >= s.lastTimestamp && connected then Some(Message(time, fixedDelta)) else None;
      (FixedUpdateNext(s, time, connected, fixedDelta), Sampled(flushed, enqueued))
    case FrameStart =>
      (UpdateNext(s), FrameStarted)
    case Completion(m) =>
      (CompletionNext(s), Completed(m))
  }

  /** The final state and one log entry per event. */
  function Run(s: State, events: seq<Event>, frequency: nat): (r: (State, seq<Log>))
    ensures |r.1| == |events|
    decreases |events|
  {
    if events == [] then (s, [])
    else
      var prev := Run(s, events[..|events| - 1], frequency);
      var step := Apply(prev.0, events[|events| - 1], frequency);
      (step.0, prev.1 + [step.1])
  }

  function Last<T>(s: seq<T>): T
    requires s != []
  {
    s[|s| - 1]
  }

  function Init<T>(s: seq<T>): seq<T>
    requires s != []
  {
    s[..|s| - 1]
  }

  function EnqueuedBy(l: Log): seq<Message> {
    if l.Sampled? && l.enqueued.Some? then [l.enqueued.value] else []
  }

  function FlushedBy(l: Log): seq<Message> {
    if l.Sampled? then l.flushed else []
  }

  function DequeuedBy(l: Log): seq<Message> {
    if l.Published? && l.publication.Dequeued() then [l.publication.message] else []
  }

  function InvokedBy(l: Log): seq<Message> {
    if l.Published? && (l.publication.Invoked? || l.publication.Threw?) then [l.publication.message] else []
  }

  /** The messages put at the back of the queue, in order. */
  function Enqueued(logs: seq<Log>): seq<Message> {
    if logs == [] then [] else Enqueued(Init(logs)) + EnqueuedBy(Last(logs))
  }

  /** The messages the latch cleared from the queue. */
  function Flushed(logs: seq<Log>): seq<Message> {
    if logs == [] then [] else Flushed(Init(logs)) + FlushedBy(Last(logs))
  }

  /** The messages the publisher took from the queue, sent or dropped. */
  function Dequeued(logs: seq<Log>): seq<Message> {
    if logs == [] then [] else Dequeued(Init(logs)) + DequeuedBy(Last(logs))
  }

  /** The messages whose publish action was invoked. */
  function Invocations(logs: seq<Log>): seq<Message> {
    if logs == [] then [] else Invocations(Init(logs)) + InvokedBy(Last(logs))
  }

  /** The send started by a normal invocation, whose callback is pending. */
  function StartedBy(l: Log): multiset<Message> {
    if l.Published? && l.publication.Invoked? then multiset{l.publication.message} else multiset{}
  }

  /** The send whose callback fired. */
  function CompletedBy(l: Log): multiset<Message> {
    if l.Completed? then multiset{l.send} else multiset{}
  }

  /** The sends invoked normally whose callback has not fired yet. */
  function Outstanding(logs: seq<Log>): multiset<Message> {
    if logs == [] then multiset{} else Outstanding(Init(logs)) + StartedBy(Last(logs)) - CompletedBy(Last(logs))
  }

  /** One event keeps the number of outstanding sends equal to the in-flight
      flag, provided a callback fires only for an outstanding send. */
  lemma StepOutstanding(s: State, e: Event, frequency: nat, pending: multiset<Message>)
    requires |pending| == if s.sending then 1 else 0
    requires e.Completion? ==> e.send in pending
    ensures var r := Apply(s, e, frequency);
      |pending + StartedBy(r.1) - CompletedBy(r.1)| == if r.0.sending then 1 else 0
  {
    var r := Apply(s, e, frequency);
    if e.Completion? {
      assert pending == multiset{e.send} by {
        var rest := pending - multiset{e.send};
        assert pending == rest + multiset{e.send};
      }
      assert pending + StartedBy(r.1) - CompletedBy(r.1) == multiset{};
    } else if r.1.Published? && r.1.publication.Invoked? {
      assert pending == multiset{};
    }
  }

  /** What one event does to the queue: the publisher takes the front
      message, or the latch clears the backlog, and then at most one message
      goes to the back; what is kept keeps its order. An invoked message is
      the one taken. */
  lemma StepQueue(s: State, e: Event, frequency: nat) returns (kept: seq<Message>)
    ensures var r := Apply(s, e, frequency);
      s.queue == DequeuedBy(r.1) + FlushedBy(r.1) + kept &&
      r.0.queue == kept + EnqueuedBy(r.1) &&
      (FlushedBy(r.1) == [] || kept == []) &&
      (DequeuedBy(r.1) == [] || FlushedBy(r.1) == []) &&
      (InvokedBy(r.1) == [] || InvokedBy(r.1) == DequeuedBy(r.1))
  {
    var r := Apply(s, e, frequency);
    match e
    case PublisherTick(now, throws) =>
      kept := r.0.queue;
      assert r.0.queue == kept + [];
    case FixedTick(time, connected, fixedDelta) =>
      kept := Backlog(s, connected);
      assert s.queue == [] + FlushedBy(r.1) + kept;
    case FrameStart =>
      kept := s.queue;
      assert s.queue == [] + [] + kept && r.0.queue == kept + [];
    case Completion(_) =>
      kept := s.queue;
      assert s.queue == [] + [] + kept && r.0.queue == kept + [];
  }

  /** The last event of a run acts on the state the earlier events left,
      and each projection of the log grows by what that event did. */
  lemma RunStep(s: State, events: seq<Event>, frequency: nat)
    requires events != []
    ensures var r, prev := Run(s, events, frequency), Run(s, Init(events), frequency);
      var step := Apply(prev.0, Last(events), frequency);
      r.1 != [] && r.0 == step.0 && Init(r.1) == prev.1 && Last(r.1) == step.1 &&
      Enqueued(r.1) == Enqueued(prev.1) + EnqueuedBy(step.1) &&
      Flushed(r.1) == Flushed(prev.1) + FlushedBy(step.1) &&
      Dequeued(r.1) == Dequeued(prev.1) + DequeuedBy(step.1) &&
      Invocations(r.1) == Invocations(prev.1) + InvokedBy(step.1) &&
      Outstanding(r.1) == Outstanding(prev.1) + StartedBy(step.1) - CompletedBy(step.1)
  {
    var prev := Run(s, Init(events), frequency);
    var step := Apply(prev.0, Last(events), frequency);
    assert (prev.1 + [step.1])[..|prev.1|] == prev.1;
  }

  /** One step of Conservation, on sequences alone: the queue `q` splits into
      the taken `d`, the flushed `f` and the kept `k`, and `e` joins the back. */
  lemma CountStep(init: seq<Message>, enq: seq<Message>, taken: seq<Message>, flushed: seq<Message>,
                  q: seq<Message>, d: seq<Message>, f: seq<Message>, k: seq<Message>, e: seq<Message>)
    requires multiset(init) + multiset(enq) == multiset(taken) + multiset(flushed) + multiset(q)
    requires q == d + f + k
    ensures multiset(init) + multiset(enq + e) == multiset(taken + d) + multiset(flushed + f) + multiset(k + e)
  {
    calc {
      multiset(init) + multiset(enq + e);
      (multiset(init) + multiset(enq)) + multiset(e);
      multiset(taken) + multiset(flushed) + multiset(d + f + k) + multiset(e);
      multiset(taken) + multiset(flushed) + multiset(d) + multiset(f) + multiset(k) + multiset(e);
      (multiset(taken) + multiset(d)) + (multiset(flushed) + multiset(f)) + (multiset(k) + multiset(e));
    }
  }

  /** Every message is accounted for exactly once: taken by the publisher
      (sent or dropped), cleared by the latch, or still waiting. */
  lemma {:induction false} Conservation(s: State, events: seq<Event>, frequency: nat)
    ensures var r := Run(s, events, frequency);
      multiset(s.queue) + multiset(Enqueued(r.1)) ==
      multiset(Dequeued(r.1)) + multiset(Flushed(r.1)) + multiset(r.0.queue)
    decreases |events|
  {
    if events != [] {
      Conservation(s, Init(events), frequency);
      var r, prev := Run(s, events, frequency), Run(s, Init(events), frequency);
      RunStep(s, events, frequency);
      var l := Last(r.1);
      var kept := StepQueue(prev.0, Last(events), frequency);
      CountStep(s.queue, Enqueued(prev.1), Dequeued(prev.1), Flushed(prev.1), prev.0.queue,
                DequeuedBy(l), FlushedBy(l), kept, EnqueuedBy(l));
    }
  }

  /** One step of FifoOrder when the backlog is kept: the front `d` is
      taken, the rest `k` stays and `e` joins the back. */
  lemma TakeAndKeep(taken: seq<Message>, d: seq<Message>, k: seq<Message>, e: seq<Message>, all: seq<Message>)
    requires Subseq(taken + (d + k), all)
    ensures Subseq((taken + d) + (k + e), all + e)
  {
    assert taken + (d + k) == (taken + d) + k;
    SubseqAppend((taken + d) + k, all, e);
    assert (taken + d) + k + e == (taken + d) + (k + e);
  }

  /** One step of FifoOrder when the backlog `f` is cleared and `e` joins
      the back. */
  lemma TakeAndFlush(taken: seq<Message>, d: seq<Message>, f: seq<Message>, e: seq<Message>, all: seq<Message>)
    requires Subseq(taken + (d + f), all)
    ensures Subseq((taken + d) + e, all + e)
  {
    assert taken + (d + f) == (taken + d) + f;
    SubseqPrefix(taken + d, f, all);
    SubseqAppend(taken + d, all, e);
  }

  /** One step of FifoOrder, on sequences alone: the queue `q` splits into
      the taken front `d`, the cleared backlog `f` and the kept rest `k`, at
      most one of `f` and `k` is non-empty, and `e` joins the back. */
  lemma TakeStep(taken: seq<Message>, q: seq<Message>, all: seq<Message>,
                 d: seq<Message>, f: seq<Message>, k: seq<Message>, e: seq<Message>)
    requires Subseq(taken + q, all)
    requires q == d + f + k && (f == [] || k == [])
    ensures Subseq((taken + d) + (k + e), all + e)
  {
    if f == [] {
      assert q == d + k by { assert d + f == d; }
      TakeAndKeep(taken, d, k, e, all);
    } else {
      assert q == d + f by { assert k == []; }
      TakeAndFlush(taken, d, f, e, all);
      assert k + e == e by { assert k == []; }
    }
  }

  /** The sequence algebra of one FifoOrder step, proved apart from any
      `Subseq` fact. */
  lemma FifoAlgebra(init: seq<Message>, enq: seq<Message>, taken: seq<Message>,
                    d: seq<Message>, k: seq<Message>, e: seq<Message>,
                    taken': seq<Message>, q': seq<Message>, enq': seq<Message>)
    requires taken' == taken + d && q' == k + e && enq' == enq + e
    ensures taken' + q' == (taken + d) + (k + e)
    ensures init + enq' == (init + enq) + e
  {
  }

  /** The queue is strict FIFO: what the publisher has taken, followed by what
      is still waiting, appears in enqueue order. */
  lemma {:induction false} FifoOrder(s: State, events: seq<Event>, frequency: nat)
    ensures var r := Run(s, events, frequency);
      Subseq(Dequeued(r.1) + r.0.queue, s.queue + Enqueued(r.1))
    decreases |events|
  {
    var r := Run(s, events, frequency);
    if events == [] {
      assert Dequeued(r.1) + r.0.queue == s.queue + Enqueued(r.1);
      SubseqRefl(s.queue + Enqueued(r.1));
    } else {
      FifoOrder(s, Init(events), frequency);
      var prev := Run(s, Init(events), frequency);
      RunStep(s, events, frequency);
      var l := Last(r.1);
      var kept := StepQueue(prev.0, Last(events), frequency);
      var all := s.queue + Enqueued(prev.1);
      TakeStep(Dequeued(prev.1), prev.0.queue, all, DequeuedBy(l), FlushedBy(l), kept, EnqueuedBy(l));
      FifoAlgebra(s.queue, Enqueued(prev.1), Dequeued(prev.1), DequeuedBy(l), kept, EnqueuedBy(l),
                  Dequeued(r.1), r.0.queue, Enqueued(r.1));
      SubseqEqual((Dequeued(prev.1) + DequeuedBy(l)) + (kept + EnqueuedBy(l)), all + EnqueuedBy(l),
                  Dequeued(r.1) + r.0.queue, s.queue + Enqueued(r.1));
    }
  }

  /** One step of InvocationsInOrder, on sequences alone. */
  lemma InvocationsStep(inv: seq<Message>, taken: seq<Message>, l: Log)
    requires Subseq(inv, taken)
    requires InvokedBy(l) == [] || InvokedBy(l) == DequeuedBy(l)
    ensures Subseq(inv + InvokedBy(l), taken + DequeuedBy(l))
  {
    if InvokedBy(l) == [] {
      SubseqAppendRight(inv, taken, DequeuedBy(l));
      assert inv + InvokedBy(l) == inv;
    } else {
      SubseqAppend(inv, taken, DequeuedBy(l));
    }
  }

  /** The messages whose action was invoked are taken in queue order. */
  lemma {:induction false} InvocationsInOrder(s: State, events: seq<Event>, frequency: nat)
    ensures var r := Run(s, events, frequency);
      Subseq(Invocations(r.1), Dequeued(r.1))
    decreases |events|
  {
    if events != [] {
      InvocationsInOrder(s, Init(events), frequency);
      var r, prev := Run(s, events, frequency), Run(s, Init(events), frequency);
      RunStep(s, events, frequency);
      var kept := StepQueue(prev.0, Last(events), frequency);
      InvocationsStep(Invocations(prev.1), Dequeued(prev.1), Last(r.1));
    }
  }

  /** Actions are invoked in the order their messages were enqueued. */
  lemma InvokedInEnqueueOrder(s: State, events: seq<Event>, frequency: nat)
    ensures var r := Run(s, events, frequency);
      Subseq(Invocations(r.1), s.queue + Enqueued(r.1))
  {
    var r := Run(s, events, frequency);
    FifoOrder(s, events, frequency);
    InvocationsInOrder(s, events, frequency);
    SubseqPrefix(Dequeued(r.1), r.0.queue, s.queue + Enqueued(r.1));
    SubseqTrans(Invocations(r.1), Dequeued(r.1), s.queue + Enqueued(r.1));
  }

  /** Without clearing, nothing is lost: the messages taken by the publisher,
      followed by those still waiting, are exactly the messages enqueued. */
  lemma {:induction false} NothingLostWithoutFlush(s: State, events: seq<Event>, frequency: nat)
    requires Flushed(Run(s, events, frequency).1) == []
    ensures var r := Run(s, events, frequency);
      Dequeued(r.1) + r.0.queue == s.queue + Enqueued(r.1)
    decreases |events|
  {
    if events != [] {
      var r, prev := Run(s, events, frequency), Run(s, Init(events), frequency);
      RunStep(s, events, frequency);
      var l := Last(r.1);
      var kept := StepQueue(prev.0, Last(events), frequency);
      NothingLostWithoutFlush(s, Init(events), frequency);
      NoLossStep(Dequeued(prev.1), prev.0.queue, s.queue + Enqueued(prev.1),
                 DequeuedBy(l), FlushedBy(l), kept, EnqueuedBy(l));
    }
  }

  /** One step of NothingLostWithoutFlush, on sequences alone. */
  lemma NoLossStep(taken: seq<Message>, q: seq<Message>, all: seq<Message>,
                   d: seq<Message>, f: seq<Message>, k: seq<Message>, e: seq<Message>)
    requires taken + q == all && q == d + f + k && f == []
    ensures (taken + d) + (k + e) == all + e
  {
    assert q == d + k;
  }

  /** The backlog is cleared at most once per frame: once the latch is
      consumed, no fixed step clears anything until a new frame starts. */
  lemma {:induction false} NoFlushWithinFrame(s: State, events: seq<Event>, frequency: nat)
    requires !s.firstFixedUpdate
    requires forall i :: 0 <= i < |events| ==> !events[i].FrameStart?
    ensures var r := Run(s, events, frequency);
      Flushed(r.1) == [] && !r.0.firstFixedUpdate
    decreases |events|
  {
    if events != [] {
      NoFlushWithinFrame(s, Init(events), frequency);
      RunStep(s, events, frequency);
    }
  }

  predicate NonNegativeIntervals(q: seq<Message>) {
    forall i :: 0 <= i < |q| ==> q[i].interval >= 0.0
  }

  /** With non-negative fixed steps the publish deadline never moves back. */
  lemma {:induction false} DeadlineNeverDecreases(s: State, events: seq<Event>, frequency: nat)
    requires NonNegativeIntervals(s.queue)
    requires forall i :: 0 <= i < |events| && events[i].FixedTick? ==> events[i].fixedDelta >= 0.0
    ensures var r := Run(s, events, frequency);
      s.nextPublish <= r.0.nextPublish && NonNegativeIntervals(r.0.queue)
    decreases |events|
  {
    if events != [] {
      var prefix := events[..|events| - 1];
      DeadlineNeverDecreases(s, prefix, frequency);
    }
  }

  /** Each callback that fires belongs to a send that is outstanding at
      that point: it was invoked normally and its callback has not fired. */
  predicate CallbacksMatch(s: State, events: seq<Event>, frequency: nat)
    decreases |events|
  {
    events == [] ||
    (CallbacksMatch(s, Init(events), frequency) &&
     (Last(events).Completion? ==> Last(events).send in Outstanding(Run(s, Init(events), frequency).1)))
  }

  /** At most one send is in flight: starting with none, and with every
      callback belonging to an outstanding send, exactly one send is
      outstanding when the flag is set and none otherwise. */
  lemma {:induction false} AtMostOneInFlight(s: State, events: seq<Event>, frequency: nat)
    requires !s.sending
    requires CallbacksMatch(s, events, frequency)
    ensures var r := Run(s, events, frequency);
      |Outstanding(r.1)| == if r.0.sending then 1 else 0
    decreases |events|
  {
    if events != [] {
      AtMostOneInFlight(s, Init(events), frequency);
      RunStep(s, events, frequency);
      var prev := Run(s, Init(events), frequency);
      StepOutstanding(prev.0, Last(events), frequency, Outstanding(prev.1));
    }
  }

  /** A run extended by one event, from a known state and set of
      outstanding sends. */
  lemma RunSnoc(s: State, events: seq<Event>, e: Event, frequency: nat, t: State, pending: multiset<Message>)
    requires Run(s, events, frequency).0 == t && Outstanding(Run(s, events, frequency).1) == pending
    ensures var step := Apply(t, e, frequency);
      Run(s, events + [e], frequency).0 == step.0 &&
      Outstanding(Run(s, events + [e], frequency).1) == pending + StartedBy(step.1) - CompletedBy(step.1)
  {
    assert Init(events + [e]) == events && Last(events + [e]) == e;
    RunStep(s, events + [e], frequency);
  }

  /** The three samples queued before LateCallback, 1 s apart with a zero
      fixed step, and no send in flight. */
  function ThreeSamples(): State {
    State([Message(1.0, 0.0), Message(2.0, 0.0), Message(3.0, 0.0)], false, 0, 0.0, false, None)
  }

  /** The action of the first sample throws; the second is sent; the callback
      of the first fires late; the third is sent. */
  function LateCallback(): seq<Event> {
    [PublisherTick(0, true), PublisherTick(0, false), Completion(Message(1.0, 0.0)), PublisherTick(0, false)]
  }

  /** After the throw and the second send, the second send is outstanding. */
  lemma LateCallbackSecondSent(s: State, events: seq<Event>)
    requires s == ThreeSamples() && events == LateCallback()
    ensures var r := Run(s, events[..2], 1);
      r.0 == State([Message(3.0, 0.0)], true, 0, 2.0, false, None) &&
      Outstanding(r.1) == multiset{Message(2.0, 0.0)}
  {
    var e0, e1 := events[0], events[1];
    assert Run(s, [], 1) == (s, []);
    RunSnoc(s, [], e0, 1, s, multiset{});
    assert [] + [e0] == [e0];
    var t1 := State([Message(2.0, 0.0), Message(3.0, 0.0)], false, 0, 1.0, false, None);
    assert Apply(s, e0, 1).0 == t1;
    RunSnoc(s, [e0], e1, 1, t1, multiset{});
    assert events[..2] == [e0] + [e1];
  }

  /** How LateCallback splits into its prefixes. */
  lemma LateCallbackPrefixes(events: seq<Event>)
    requires events == LateCallback()
    ensures events[..2] + [events[2]] == events[..3]
    ensures events[..3] + [events[3]] == events
    ensures events[2] == Completion(Message(1.0, 0.0)) && events[3] == PublisherTick(0, false)
  {
  }

  /** The callback of the thrown first send clears the flag and completes
      nothing outstanding. */
  lemma LateCallbackFires()
    ensures var step := Apply(State([Message(3.0, 0.0)], true, 0, 2.0, false, None), Completion(Message(1.0, 0.0)), 1);
      step.0 == State([Message(3.0, 0.0)], false, 0, 2.0, false, None) &&
      multiset{Message(2.0, 0.0)} + StartedBy(step.1) - CompletedBy(step.1) == multiset{Message(2.0, 0.0)}
  {
  }

  /** With the flag cleared, the third sample is sent. */
  lemma ThirdSendStarts()
    ensures var step := Apply(State([Message(3.0, 0.0)], false, 0, 2.0, false, None), PublisherTick(0, false), 1);
      multiset{Message(2.0, 0.0)} + StartedBy(step.1) - CompletedBy(step.1) ==
      multiset{Message(2.0, 0.0), Message(3.0, 0.0)}
  {
  }

  /** The late callback of the thrown send clears the flag, yet the second
      send is still outstanding. */
  lemma LateCallbackFlagCleared(s: State, events: seq<Event>)
    requires s == ThreeSamples() && events == LateCallback()
    ensures var r := Run(s, events[..3], 1);
      r.0 == State([Message(3.0, 0.0)], false, 0, 2.0, false, None) &&
      Outstanding(r.1) == multiset{Message(2.0, 0.0)}
  {
    LateCallbackSecondSent(s, events);
    LateCallbackPrefixes(events);
    LateCallbackFires();
    RunSnoc(s, events[..2], events[2], 1,
            State([Message(3.0, 0.0)], true, 0, 2.0, false, None), multiset{Message(2.0, 0.0)});
  }

  /** Without the callback assumption the bound fails: the late callback of
      the thrown send clears the flag while the second send is pending, so
      the third send starts and two sends are outstanding. */
  lemma LateCallbackOverlaps(s: State, events: seq<Event>)
    requires s == ThreeSamples() && events == LateCallback()
    ensures Outstanding(Run(s, events, 1).1) == multiset{Message(2.0, 0.0), Message(3.0, 0.0)}
  {
    LateCallbackFlagCleared(s, events);
    LateCallbackPrefixes(events);
    ThirdSendStarts();
    RunSnoc(s, events[..3], events[3], 1,
            State([Message(3.0, 0.0)], false, 0, 2.0, false, None), multiset{Message(2.0, 0.0)});
  }

  /** The simulation clock never goes back across the fixed steps of `events`,
      and never below a message already queued in `s`. */
  predicate MonotoneClock(s: State, events: seq<Event>) {
    forall i :: 0 <= i < |events| && events[i].FixedTick? ==>
      (forall m :: m in s.queue ==> m.timestamp <= events[i].time) &&
      (forall j :: 0 <= j < i && events[j].FixedTick? ==> events[j].time <= events[i].time)
  }

  /** The queue is in timestamp order and nothing in it is older than the
      last processed message. */
  predicate Ordered(s: State) {
    (forall i, j :: 0 <= i < j < |s.queue| ==> s.queue[i].timestamp <= s.queue[j].timestamp) &&
    (forall m :: m in s.queue ==> s.lastTimestamp <= m.timestamp)
  }

  /** The tail of a queue in timestamp order is in order, and nothing in it
      is older than the head. */
  lemma SortedTail(q: seq<Message>)
    requires q != []
    requires forall i, j :: 0 <= i < j < |q| ==> q[i].timestamp <= q[j].timestamp
    ensures forall i, j :: 0 <= i < j < |q[1..]| ==> q[1..][i].timestamp <= q[1..][j].timestamp
    ensures forall m :: m in q[1..] ==> q[0].timestamp <= m.timestamp
  {
    forall m | m in q[1..] ensures q[0].timestamp <= m.timestamp {
      var i :| 0 <= i < |q[1..]| && q[1..][i] == m;
      assert q[i + 1] == m;
    }
  }

  /** A publisher iteration keeps the queue ordered and moves LastTimestamp
      only forward, to the front message it takes. */
  lemma PublisherKeepsOrder(t: State, now: int, actionThrows: bool, frequency: nat)
    requires Ordered(t)
    ensures var u := PublisherNext(t, now, actionThrows, frequency).0;
      Ordered(u) && t.lastTimestamp <= u.lastTimestamp && multiset(u.queue) <= multiset(t.queue)
  {
    var r := PublisherNext(t, now, actionThrows, frequency);
    if r.1.Dequeued() {
      assert t.queue[0] == r.1.message && r.0.queue == t.queue[1..];
      SortedTail(t.queue);
    }
  }

  /** A fixed step keeps the queue ordered when it does not sample a time
      older than what is queued; the only message it adds carries that time. */
  lemma FixedUpdateKeepsOrder(t: State, time: real, connected: bool, fixedDelta: real)
    requires Ordered(t)
    requires forall m :: m in t.queue ==> m.timestamp <= time
    ensures var u := FixedUpdateNext(t, time, connected, fixedDelta);
      Ordered(u) && t.lastTimestamp == u.lastTimestamp &&
      forall m :: m in u.queue ==> m in t.queue || m.timestamp == time
  {
    var u := FixedUpdateNext(t, time, connected, fixedDelta);
    var kept := Backlog(t, connected);
    if time >= t.lastTimestamp && connected {
      var m := Message(time, fixedDelta);
      assert u.queue == kept + [m];
      assert forall i :: 0 <= i < |kept| ==> kept[i] in t.queue;
    }
  }

  /** One event keeps the queue ordered and does not move LastTimestamp back,
      provided a fixed step does not sample a time older than what is queued;
      the only message it can add carries the sampled time. */
  lemma OrderedStep(t: State, e: Event, frequency: nat)
    requires Ordered(t)
    requires e.FixedTick? ==> forall m :: m in t.queue ==> m.timestamp <= e.time
    ensures var u := Apply(t, e, frequency).0;
      Ordered(u) && t.lastTimestamp <= u.lastTimestamp &&
      forall m :: m in u.queue ==> m in t.queue || (e.FixedTick? && m.timestamp == e.time)
  {
    match e
    case PublisherTick(now, throws) =>
      PublisherKeepsOrder(t, now, throws, frequency);
      var u := PublisherNext(t, now, throws, frequency).0;
      assert forall m :: m in u.queue ==> m in multiset(u.queue);
    case FixedTick(time, connected, fixedDelta) =>
      FixedUpdateKeepsOrder(t, time, connected, fixedDelta);
    case FrameStart =>
    case Completion(_) =>
  }

  lemma {:induction false} OrderedPrefix(s: State, events: seq<Event>, k: nat, frequency: nat)
    requires k <= |events|
    requires Ordered(s) && MonotoneClock(s, events)
    ensures var t := Run(s, events[..k], frequency).0;
      Ordered(t) && s.lastTimestamp <= t.lastTimestamp &&
      forall i :: k <= i < |events| && events[i].FixedTick? ==>
        forall m :: m in t.queue ==> m.timestamp <= events[i].time
    decreases k
  {
    if k == 0 {
      assert events[..k] == [];
    } else {
      OrderedPrefix(s, events, k - 1, frequency);
      var pre := events[..k];
      assert Init(pre) == events[..k - 1] && Last(pre) == events[k - 1];
      RunStep(s, pre, frequency);
      var t0 := Run(s, events[..k - 1], frequency).0;
      var e := events[k - 1];
      OrderedStep(t0, e, frequency);
      var t := Run(s, pre, frequency).0;
      forall i | k <= i < |events| && events[i].FixedTick?
        ensures forall m :: m in t.queue ==> m.timestamp <= events[i].time
      {
        assert e.FixedTick? ==> e.time <= events[i].time;
      }
    }
  }

  /** While the simulation clock does not go back, the last processed
      timestamp does not go back either. */
  lemma LastTimestampNeverDecreases(s: State, events: seq<Event>, frequency: nat)
    requires Ordered(s) && MonotoneClock(s, events)
    ensures s.lastTimestamp <= Run(s, events, frequency).0.lastTimestamp
  {
    OrderedPrefix(s, events, |events|, frequency);
    assert events[..|events|] == events;
  }

  /** Two connected fixed steps whose clock goes back from 2 s to 1 s, then
      two publisher iterations. */
  function ClockGoesBack(): seq<Event> {
    [FixedTick(2.0, true, 0.0), FixedTick(1.0, true, 0.0), PublisherTick(0, false), PublisherTick(0, false)]
  }

  /** Both samples of ClockGoesBack are queued, the newer one first. */
  lemma ClockGoesBackQueues()
    ensures var t := Run(Initial(0), ClockGoesBack()[..2], 1).0;
      t.queue == [Message(2.0, 0.0), Message(1.0, 0.0)] && t.lastTimestamp == 0.0 && t.nextPublish == 0
  {
    var s := Initial(0);
    var first, second := FixedTick(2.0, true, 0.0), FixedTick(1.0, true, 0.0);
    assert ClockGoesBack()[..2] == [first, second];
    assert Init([first]) == [] && Last([first]) == first;
    RunStep(s, [first], 1);
    var t1 := Run(s, [first], 1).0;
    assert t1.queue == [Message(2.0, 0.0)] && t1.lastTimestamp == 0.0;
    assert Init([first, second]) == [first] && Last([first, second]) == second;
    RunStep(s, [first, second], 1);
  }

  /** Without a monotone clock LastTimestamp can go back: two samples queued
      out of order while both are newer than the last processed one. */
  lemma LastTimestampCanDecrease()
    ensures var s, events := Initial(0), ClockGoesBack();
      Run(s, events, 1).0.lastTimestamp < Run(s, events[..3], 1).0.lastTimestamp
  {
    var s, events := Initial(0), ClockGoesBack();
    ClockGoesBackQueues();
    assert Init(events[..3]) == events[..2] && Last(events[..3]) == events[2];
    RunStep(s, events[..3], 1);
    assert Run(s, events[..3], 1).0.lastTimestamp == 2.0;
    assert Init(events) == events[..3] && Last(events) == events[3];
    RunStep(s, events, 1);
  }

  /** The backlog is cleared once per frame, not once per reconnect: a
      disconnected first fixed step of a frame consumes the latch, so after
      a reconnect in the same frame the old backlog is kept and the new
      sample joins it. */
  lemma ReconnectKeepsBacklog()
    ensures var s := State([Message(1.0, 0.02)], false, 0, 0.0, true, None);
      var offline := FixedUpdateNext(s, 1.5, false, 0.02);
      FixedUpdateNext(offline, 1.52, true, 0.02).queue == [Message(1.0, 0.02), Message(1.52, 0.02)]
  {
  }

  /** The clock value published by one publisher iteration, if any. */
  function SentClock(p: Publication): seq<real> {
    if p.Invoked? then [p.message.timestamp] else []
  }

  /** A 20 ms fixed step is 20 ticks of a 1000 Hz stopwatch. */
  lemma TwentyMilliseconds()
    ensures Ticks(1000, 0.02) == 20
  {
    assert 1000 as real * 0.02 == 20.0;
  }

  /** One 20 ms period of the drop window: a connected sample at `time`,
      then the publisher at its deadline `now` while the first send is
      still in flight, so the sample is taken and dropped. */
  method DropPeriod(sensor: ClockSensor, now: int, time: real, last: real) returns (p: Publication)
    requires sensor.Snapshot() == State([], true, now, last, false, Some(last))
    requires last <= time
    modifies sensor
    ensures p == Dropped(Message(time, 0.02))
    ensures sensor.Snapshot() == State([], true, now + 20, time, false, Some(time))
  {
    TwentyMilliseconds();
    sensor.FixedUpdate(time, true, 0.02);
    p := sensor.PublisherStep(now, false, 1000);
  }

  /** The drop-under-backpressure run: a sample every 20 ms, a publisher
      with a 1000 Hz stopwatch that wakes at each deadline, and a transport
      whose first send takes 100 ms. Only the samples at 0 and 100 ms are
      published; those at 20 to 80 ms are dropped, yet LastTimestamp reaches
      80 ms during the drop window. */
  method BackpressureScenario() returns (published: seq<real>, lastDuringDrops: real)
    ensures published == [0.0, 0.1]
    ensures lastDuringDrops == 0.08
  {
    TwentyMilliseconds();
    var sensor := new ClockSensor(0);
    // 0 ms: the first sample is sent and stays in flight
    sensor.FixedUpdate(0.0, true, 0.02);
    var p := sensor.PublisherStep(0, false, 1000);
    published := SentClock(p);
    // 20 ms to 80 ms: each sample is taken at its deadline and dropped
    p := DropPeriod(sensor, 20, 0.02, 0.0);
    p := DropPeriod(sensor, 40, 0.04, 0.02);
    p := DropPeriod(sensor, 60, 0.06, 0.04);
    p := DropPeriod(sensor, 80, 0.08, 0.06);
    lastDuringDrops := sensor.lastTimestamp;
    // 100 ms: the first send completes, and the next sample goes out
    sensor.OnComplete();
    sensor.FixedUpdate(0.1, true, 0.02);
    p := sensor.PublisherStep(100, false, 1000);
    published := published + SentClock(p);
  }
}
