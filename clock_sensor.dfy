/** The clock sensor's pacing and drop-on-busy state machine.

    A producer (FixedUpdate, once per fixed simulation step) samples the
    simulation clock and queues a message; a publisher (one iteration of the
    Publisher loop per PublisherStep) paces itself against a monotonic
    deadline, takes the oldest message and invokes its publish action unless
    a previous send is still in flight, in which case the message is dropped.

    The state is given twice: as the value `State` with one pure transition
    function per operation (the specification, used for multi-step
    reasoning), and as the class `ClockSensor` whose methods update its
    fields in place and are proved to follow those functions. */
module Sensors {

  datatype Option<T> = None | Some(value: T)

  /** One entry of the message queue: the sampled simulation time and the
      fixed step in seconds (the pacing interval). The entry's publish action
      is a closure over the sample taken at `timestamp`, so it is modelled by
      that timestamp: invoking it publishes a clock reading of `timestamp`. */
  datatype Message = Message(timestamp: real, interval: real)

  /** What one iteration of the publisher loop did. */
  datatype Publication =
    | Waiting                    // the deadline has not passed yet
    | Idle                       // the deadline has passed, the queue is empty
    | Invoked(message: Message)  // the action was invoked and returned normally
    | Threw(message: Message)    // the action was invoked and threw
    | Dropped(message: Message)  // a send was in flight: the message is lost
  {
    predicate Dequeued() { Invoked? || Threw? || Dropped? }
  }

  /** The sensor's fields. `nextPublish` is the publisher loop's deadline in
      stopwatch ticks; `latest` is the last sample kept for display. */
  datatype State = State(
    queue: seq<Message>,
    sending: bool,
    nextPublish: int,
    lastTimestamp: real,
    firstFixedUpdate: bool,
    latest: Option<real>)

  /** The state right after initialisation: the publisher's first deadline is
      the stopwatch reading `start` taken when the loop starts. */
  function Initial(start: int): State {
    State([], false, start, 0.0, true, None)
  }

  /** The cast of `frequency * seconds` to a tick count; the conversion
      truncates toward zero, so the sign of the interval is kept. */
  function Ticks(frequency: nat, seconds: real): (t: int)
    ensures seconds >= 0.0 ==> t >= 0
    ensures seconds <= 0.0 ==> t <= 0
  {
    var x := frequency as real * seconds;
    if x >= 0.0 then x.Floor else -((-x).Floor)
  }

  /** The tick count is `frequency * seconds` with its fraction cut off. */
  lemma TicksTruncates(frequency: nat, seconds: real)
    ensures var t, x := Ticks(frequency, seconds), frequency as real * seconds;
      (x >= 0.0 ==> t as real <= x < t as real + 1.0) &&
      (x <= 0.0 ==> t as real - 1.0 < x <= t as real)
  {
  }

  /** One iteration of the body of the publisher loop, at stopwatch time `now`;
      `actionThrows` says whether invoking the front message's action throws. */
  function PublisherNext(s: State, now: int, actionThrows: bool, frequency: nat): (r: (State, Publication))
    // nothing is dequeued, and nothing changes, before the deadline
    ensures r.1 == Waiting <==> now < s.nextPublish
    ensures r.1 == Idle <==> now >= s.nextPublish && s.queue == []
    ensures !r.1.Dequeued() ==> r.0 == s
    // otherwise exactly the front message is taken and the rest keep their order
    ensures r.1.Dequeued() ==> s.queue == [r.1.message] + r.0.queue
    // drop on busy: the action runs only when no send is in flight
    ensures r.1.Dequeued() ==> (r.1.Dropped? <==> s.sending)
    ensures r.1.Threw? <==> r.1.Dequeued() && !s.sending && actionThrows
    // a normal return leaves the send in flight, a throw releases it, a drop keeps it
    ensures r.1.Dequeued() ==> (r.0.sending <==> r.1.Invoked? || r.1.Dropped?)
    // pacing and LastTimestamp advance whether or not the message was sent
    ensures r.1.Dequeued() ==>
      r.0.nextPublish == now + Ticks(frequency, r.1.message.interval) &&
      r.0.lastTimestamp == r.1.message.timestamp
    ensures r.1.Dequeued() && r.1.message.interval >= 0.0 ==> r.0.nextPublish >= s.nextPublish
    // the producer's latch and the displayed sample are not the publisher's
    ensures r.0.firstFixedUpdate == s.firstFixedUpdate && r.0.latest == s.latest
  {
    if now < s.nextPublish then (s, Waiting)
    else if s.queue == [] then (s, Idle)
    else
      var m := s.queue[0];
      var p := if s.sending then Dropped(m) else if actionThrows then Threw(m) else Invoked(m);
      var s' := s.(queue := s.queue[1..],
                   sending := s.sending || !actionThrows,
                   nextPublish := now + Ticks(frequency, m.interval),
                   lastTimestamp := m.timestamp);
      (s', p)
  }

  /** The queue left by the per-frame latch: the backlog is cleared on the
      first fixed step of a frame, and only when connected. */
  function Backlog(s: State, connected: bool): seq<Message> {
    if s.firstFixedUpdate && connected then [] else s.queue
  }

  /** One fixed simulation step at simulation time `time`, with fixed step
      `fixedDelta` seconds; `connected` is the bridge's status. */
  function FixedUpdateNext(s: State, time: real, connected: bool, fixedDelta: real): (r: State)
    // the latch is consumed whether or not the bridge is connected
    ensures !r.firstFixedUpdate
    ensures s.firstFixedUpdate && connected ==> r.queue == [] || r.queue == [Message(time, fixedDelta)]
    ensures !(s.firstFixedUpdate && connected) ==> |s.queue| <= |r.queue| && r.queue[..|s.queue|] == s.queue
    // a stale tick enqueues nothing and keeps the displayed sample
    ensures time < s.lastTimestamp ==> r.queue == Backlog(s, connected) && r.latest == s.latest
    // otherwise the sample is kept and, when connected, exactly one message goes to the back
    ensures time >= s.lastTimestamp ==>
      r.latest == Some(time) &&
      r.queue == Backlog(s, connected) + (if connected then [Message(time, fixedDelta)] else [])
    // the producer never touches the publisher's state
    ensures r.sending == s.sending && r.nextPublish == s.nextPublish && r.lastTimestamp == s.lastTimestamp
  {
    var s1 := s.(queue := Backlog(s, connected), firstFixedUpdate := false);
    if time < s1.lastTimestamp then s1
    else if connected then s1.(latest := Some(time), queue := s1.queue + [Message(time, fixedDelta)])
    else s1.(latest := Some(time))
  }

  /** A new frame re-arms the latch. */
  function UpdateNext(s: State): State {
    s.(firstFixedUpdate := true)
  }

  /** The publish-completion callback releases the in-flight send. */
  function CompletionNext(s: State): State {
    s.(sending := false)
  }

  class ClockSensor {
    var messageQueue: seq<Message>
    var sending: bool
    /** A local of the publisher loop in the program; it is loop state
        carried from one iteration to the next, so it is a field here. */
    var nextPublish: int
    var lastTimestamp: real
    var isFirstFixedUpdate: bool
    var latestData: Option<real>

    function Snapshot(): State
      reads this
    {
      State(messageQueue, sending, nextPublish, lastTimestamp, isFirstFixedUpdate, latestData)
    }

    /** Initialisation; `start` is the stopwatch reading the publisher loop
        takes as its first deadline. */
    constructor (start: int)
      ensures Snapshot() == Initial(start)
    {
      messageQueue := [];
      sending := false;
      nextPublish := start;
      lastTimestamp := 0.0;
      isFirstFixedUpdate := true;
      latestData := None;
    }

    method PublisherStep(now: int, actionThrows: bool, frequency: nat) returns (p: Publication)
      modifies this
      ensures (Snapshot(), p) == PublisherNext(old(Snapshot()), now, actionThrows, frequency)
    {
      if now < nextPublish {
        return Waiting;
      }
      var msg: Option<Message> := None;
      if |messageQueue| > 0 {
        msg := Some(messageQueue[0]);
        messageQueue := messageQueue[1..];
      }
      if msg.None? {
        return Idle;
      }
      var m := msg.value;
      if !sending {
        sending := true;
        if actionThrows {
          sending := false;
          p := Threw(m);
        } else {
          p := Invoked(m);
        }
      } else {
        p := Dropped(m);
      }
      nextPublish := now + Ticks(frequency, m.interval);
      lastTimestamp := m.timestamp;
    }

    method FixedUpdate(time: real, connected: bool, fixedDelta: real)
      modifies this
      ensures Snapshot() == FixedUpdateNext(old(Snapshot()), time, connected, fixedDelta)
    {
      if isFirstFixedUpdate {
        if connected {
          messageQueue := [];
        }
        isFirstFixedUpdate := false;
      }
      if time < lastTimestamp {
        return;
      }
      latestData := Some(time);
      if connected {
        messageQueue := messageQueue + [Message(time, fixedDelta)];
      }
    }

    method Update()
      modifies this`isFirstFixedUpdate
      ensures Snapshot() == UpdateNext(old(Snapshot()))
    {
      isFirstFixedUpdate := true;
    }

    method OnComplete()
      modifies this`sending
      ensures Snapshot() == CompletionNext(old(Snapshot()))
    {
      sending := false;
    }
  }
}
