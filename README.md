# Clock sensor: pacing and drop-on-busy

This project models the core of the simulator's clock sensor (`ClockSensor.cs`).
Two threads share one message queue:

- **The producer** is `FixedUpdate`, run once per fixed simulation step. It
  samples the simulation clock, records the sample for display, and, while the
  bridge is connected, puts a message `(time, fixedDeltaTime, publish action)`
  at the back of the queue. On the first fixed step of each rendered frame
  (`Update` re-arms that latch) the backlog is cleared, but only when the
  bridge is connected. A sample older than the last processed timestamp is
  ignored.
- **The consumer** is the publisher loop. It waits for a stopwatch deadline,
  then takes the oldest message. If no send is in flight, it invokes the
  message's action; a send that throws is released at once. If a send is
  still in flight, it drops the message. Either way, the deadline becomes
  `now + frequency * interval`, truncated to ticks, and `LastTimestamp`
  becomes the message's time. The transport's completion callback releases
  the in-flight send.

The model has three modules:

- `Sensors` (`clock_sensor.dfy`) holds the state as a value (`State`) with
  one pure transition function per operation. It also has the class
  `ClockSensor`, whose fields are updated in place by the methods
  `PublisherStep`, `FixedUpdate`, `Update` and `OnComplete`. Each method is
  proved to follow its transition function.
- `ClockRuns` (`clock_runs.dfy`) covers runs: any interleaving of publisher
  iterations, fixed steps, frame starts and send completions. It logs what
  each event did and proves the properties that hold across whole runs.
- `Subsequences` (`subsequences.dfy`) defines the ordered-subsequence
  relation used to state that the queue never reorders messages.

## Model

| member | source | states |
|---|---|---|
| Sensors.Ticks | ClockSensor.cs:100 | the tick interval has the sign of the fixed step: non-negative for a non-negative step, non-positive for a non-positive one |
| Sensors.TicksTruncates | ClockSensor.cs:100 | the cast to `long` truncates `frequency * seconds` toward zero: the tick count is within one tick of the product, on the side of zero |
| Sensors.PublisherNext | ClockSensor.cs:70-102 | before the deadline nothing happens; with an empty queue nothing happens; otherwise exactly the front message is taken and the rest keep their order; the message is dropped exactly when a send is in flight; the action throws only if it was invoked; afterwards a send is in flight exactly when the message was invoked normally or dropped; the deadline becomes `now` plus the message's interval in ticks whether or not it was sent, and never moves back for a non-negative interval; `LastTimestamp` becomes the message's time; the latch and the displayed sample are untouched |
| Sensors.FixedUpdateNext | ClockSensor.cs:106-141 | the latch is always consumed; the backlog is cleared only on a latched step while connected, and otherwise the old queue stays as a prefix; a sample older than `LastTimestamp` enqueues nothing and keeps the displayed sample; any other sample becomes the displayed one and, exactly when connected, is appended as the only new message; the publisher's flag, deadline and timestamp are untouched |
| Sensors.ClockSensor.constructor | ClockSensor.cs:24-36 | an empty queue, no send in flight, the latch armed, no displayed sample, `LastTimestamp` zero, and the first deadline equal to the stopwatch reading at start (line 66) |
| Sensors.ClockSensor.PublisherStep | ClockSensor.cs:64-104 | one iteration of the publisher loop updates the fields and returns the outcome exactly as `PublisherNext` describes |
| Sensors.ClockSensor.FixedUpdate | ClockSensor.cs:106-141 | updates the fields exactly as `FixedUpdateNext` describes |
| Sensors.ClockSensor.Update | ClockSensor.cs:143-146 | re-arms the latch and changes nothing else |
| Sensors.ClockSensor.OnComplete | ClockSensor.cs:138 | the completion callback clears the in-flight flag and changes nothing else |
| ClockRuns.StepQueue | ClockSensor.cs:77-140 | within one event the queue splits into the taken front, the cleared backlog and the kept rest; an event either takes the front or clears the backlog, never both; at most one of the cleared backlog and the kept rest is non-empty (a clear takes the whole queue); the new queue is the kept rest plus the new message, and an invoked message is the one taken |
| ClockRuns.Conservation | ClockSensor.cs:78-140 | over any run, each message that was initially queued or later enqueued is counted exactly once: as taken by the publisher, as cleared by the latch, or as still queued (multiset equality) |
| ClockRuns.FifoOrder | ClockSensor.cs:78-140 | over any run, the messages taken by the publisher, followed by those still queued, form an ordered subsequence of the initial queue followed by everything enqueued |
| ClockRuns.InvocationsInOrder | ClockSensor.cs:86-99 | over any run, the messages whose action was invoked form an ordered subsequence of the messages taken |
| ClockRuns.InvokedInEnqueueOrder | ClockSensor.cs:82-93 | over any run, actions are invoked in the order their messages were enqueued |
| ClockRuns.NothingLostWithoutFlush | ClockSensor.cs:112-115 | in a run where the latch clears nothing, the messages taken, followed by those still queued, are exactly the initial queue followed by everything enqueued |
| ClockRuns.NoFlushWithinFrame | ClockSensor.cs:108-118 | once the latch is consumed, and until a frame starts, no fixed step clears anything and the latch stays consumed |
| ClockRuns.DeadlineNeverDecreases | ClockSensor.cs:100 | when all fixed steps are non-negative, the publish deadline never moves back over a run, and every queued interval stays non-negative |
| ClockRuns.StepOutstanding | ClockSensor.cs:88-99 | one event keeps the number of outstanding sends equal to the in-flight flag (1 when set, 0 when clear), provided a callback fires only for an outstanding send: a normal invocation needs the flag clear and starts one send, a throw starts none, a drop changes nothing, and the callback at line 138 ends the one outstanding send |
| ClockRuns.AtMostOneInFlight | ClockSensor.cs:88-99 | starting with no send in flight, and with every callback belonging to a send that was invoked normally and has not completed, the outstanding sends number exactly 1 when the flag is set and 0 otherwise, so there is never more than one |
| ClockRuns.LateCallbackOverlaps | ClockSensor.cs:95-98 | without that assumption the bound fails: the first action throws (the flag is cleared at line 97), the second send starts, the thrown send's callback fires late and clears the flag, and the third send starts while the second is outstanding, leaving two sends outstanding |
| ClockRuns.PublisherKeepsOrder | ClockSensor.cs:77-101 | a publisher iteration keeps the queue sorted by time and not older than `LastTimestamp`; it only moves `LastTimestamp` forward and only removes messages |
| ClockRuns.FixedUpdateKeepsOrder | ClockSensor.cs:120-140 | a fixed step whose time is not older than anything queued keeps the queue ordered and `LastTimestamp` unchanged; the only message it adds carries the sampled time |
| ClockRuns.OrderedStep | ClockSensor.cs:70-146 | any single event keeps the queue ordered and does not move `LastTimestamp` back, provided a fixed step does not sample a time older than what is queued |
| ClockRuns.OrderedPrefix | ClockSensor.cs:101 | with a simulation clock that never goes back, every prefix of a run keeps the queue ordered, keeps `LastTimestamp` from moving back, and leaves nothing queued newer than any later sample |
| ClockRuns.LastTimestampNeverDecreases | ClockSensor.cs:101 | with a simulation clock that never goes back, `LastTimestamp` at the end of a run is no smaller than at its start |
| ClockRuns.ClockGoesBackQueues | ClockSensor.cs:120-140 | two connected samples, taken at 2 s and then at 1 s, are both queued, newer first, because both pass the `time < LastTimestamp` guard |
| ClockRuns.LastTimestampCanDecrease | ClockSensor.cs:101 | when the simulation clock goes back, `LastTimestamp` can decrease: the publisher takes 2 s and then 1 s |
| ClockRuns.ReconnectKeepsBacklog | ClockSensor.cs:108-118 | the backlog is cleared once per frame, not once per reconnect: a disconnected first fixed step consumes the latch, so after a reconnect later in the same frame the old backlog is kept and the new sample is appended behind it |
| ClockRuns.DropPeriod | ClockSensor.cs:70-101 | during the backpressure run, one 20 ms period of a connected sample followed by the publisher at its deadline, with the first send still in flight, takes that sample and drops it, and moves the deadline 20 ticks on and `LastTimestamp` to the sample |
| ClockRuns.BackpressureScenario | ClockSensor.cs:88-101 | the class driven with a sample every 20 ms and a first send that takes 100 ms publishes only the samples at 0 and 100 ms; the samples at 20 to 80 ms are dropped, yet `LastTimestamp` reaches 80 ms during the drops |

## Left out

- Threads and locks are not modelled. The producer, the publisher loop and the completion callback are atomic events interleaved in any order (`ClockRuns.Event`). This leaves out the unsynchronised reads and writes of `Sending` and `LastTimestamp` and their races.
- `Thread.Sleep(0)` and the busy-wait are left out: an iteration before the deadline is the `Waiting` outcome and changes nothing.
- The `Destroyed` flag, `OnDestroy`, the outer loop condition and `Task.Run` are left out; a run simply ends. Shutdown latency is not modelled.
- The stopwatch and the simulation clock are not modelled. Their readings are parameters: `now` and `start` in ticks, `time` in seconds. `Stopwatch.Frequency` is the parameter `frequency`.
- `PublisherStep` takes the stopwatch frequency rather than a precomputed tick interval, because in the program the interval comes from the dequeued message itself. `Sensors.Ticks` computes it.
- Floating-point arithmetic is not modelled: `double` and `float` are exact reals. This covers the rounding of `Stopwatch.Frequency * msg.Item2` in single precision, NaN comparisons and infinities.
- The 64-bit overflow of `now + ticks` is not modelled: ticks are unbounded integers.
- `OnBridgeSetup`, the bridge instance and the `Publish` transport are not modelled. Invoking an action is modelled by whether it throws. The publish callback is the separate `Completion` event, which names the send whose callback fires. A synchronous completion inside the action is that event right after the iteration.
- `Sensors.FixedUpdateNext`: `Bridge != null && Bridge.Status == Connected` is read twice in the program, at lines 110 and 133, and the bridge's status can change between the two reads. The model takes each fixed step as atomic and folds both reads into the single parameter `connected`. It therefore leaves out a step that clears the backlog but does not enqueue, and one that enqueues without having cleared.
- `ClockRuns.AtMostOneInFlight` assumes something of the transport that the program does not check: a send whose action threw never calls back, and each callback fires once, for a send still outstanding (`ClockRuns.CallbacksMatch`). Since the callback clears the flag whatever send it belongs to, a late callback from a thrown send lets a second send start while one is outstanding (`ClockRuns.LateCallbackOverlaps`).
- The backlog is cleared on the first fixed step of every frame while the bridge is connected, not once per reconnect. A reconnect within a frame whose first step was disconnected keeps the old backlog (`ClockRuns.ReconnectKeepsBacklog`). The model follows the program.
- A queued action is a closure over the sample taken at its message's time, so a message is modelled as `(timestamp, interval)`. The published `ClockData` is modelled by its `Clock` value only, and `latestData` by `Option<real>`.
- `OnVisualize`, `OnVisualizeToggle`, `SimulationDuration`, `RealtimeDuration`, `DistributionType`, `PerformanceLoad`, `Initialize`'s `realTimeStart` and `Deinitialize` are display or analysis code and are left out.
- `LastTimestamp` is often described as never decreasing. The code guards only against samples older than the last *processed* timestamp, not the last *enqueued* one. The model follows the code: `ClockRuns.LastTimestampNeverDecreases` needs a simulation clock that never goes back, and `ClockRuns.LastTimestampCanDecrease` shows that the assumption is needed.
- `ClockRuns.DeadlineNeverDecreases` assumes non-negative fixed steps; the program does not check the sign of `Time.fixedDeltaTime`.
