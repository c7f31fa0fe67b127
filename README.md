# rtmp-fallback: the failover controller

rtmp-fallback relays a live RTMP feed through two `ffmpeg` stages. The relay
sits between the ingest stage and the output stage. It forwards every chunk
the ingest stage produces to the output stage's stdin. When no chunk arrives
for `timeoutLength` ms (`-t`, 5000 by default), it writes a fallback clip. As
long as the stall lasts, a self-rescheduling timer re-writes the clip based on
the clip's duration `noDataDur`.

This project models that controller. Node runs every handler to completion on
one thread, so the controller is a sequential state machine driven by two
kinds of event: a chunk arrives at time `t`, or a pending timer fires at time
`t`. Times are integer milliseconds passed in as parameters.

- `failover.dfy` (module `Failover`) holds the controller state as a value
  (`State`) and one function per handler: `OnData`, `Fire` (which covers
  `noData` and the re-injection callback) and `SetNoDateTimeout`, plus the
  start-up state `InitState` and the `-t` default `TimeoutLength`. It also
  holds `Run`, which applies a sequence of events. Node's set of pending
  timers is a sequence of `Timer(id, kind, due)`. `setTimeout` appends a timer
  with a fresh handle, and `clearTimeout` removes the timer with the given
  handle. So "at most one pending timer" is something the invariant `Valid`
  proves, not something the representation assumes.
- `controller.dfy` (class `Controller.Controller`) has the source's own form.
  Its fields are the module-level variables `noDataTimeout`, `lastNoData` and
  the output stream. Its methods reassign those fields statement by
  statement, the way the handlers do. Each method's `ensures` ties the new
  state to the matching `Failover` function of the old state.
- `failover_props.dfy` (module `FailoverProps`) proves what the controller
  promises about its output, its timers and its schedule.
- `log_suffix.dfy` (module `LogSuffix`) is the persistent-log file suffix
  built from `Date.toISOString()`.

A re-injection tick reads the clock twice, at index.js:87 and at index.js:89.
`Fire(i, now, later)` takes both reads: `now` becomes `lastNoData`, and
`later` is when the next timer is armed. The delay at index.js:89 is modelled
exactly as written (`ArmDelay`). Since `lastNoData` was set just before, the
delay is `noDataDur + (later - now)`. The next tick is therefore due
`noDataDur + 2 * (later - now)` after `now` (`ReinjectPeriod`). The time
between the two clock reads is counted twice. The write of the payload at
index.js:86 happens before `now` is read, so its duration delays the next
tick only once.

Facts about the code that the model keeps as they are:
- The comment at index.js:83-84 says the recomputed delay keeps the period from growing. The expression at line 89 adds the elapsed time instead of subtracting it, and it has no clamp.
- There is no mode variable. Whether the relay is live or on the fallback clip shows only in the kind of timer that is pending.
- Only `onData` calls `clearTimeout` (index.js:70). The callbacks arm their next timer after their own timer has already fired. `ArmingFindsNothingPending` proves that nothing is pending at any arming site.
- `noDataTimeout` is never reset to null. So `onData`'s test `if (noDataTimeout)` is false only before the first timer is ever armed. `Valid` proves that this is exactly the case where nothing is pending.
- The return value of `write` is ignored (index.js:68, 78, 86).

## Model

| member | source | states |
|---|---|---|
| `Failover.TimeoutLength` | index.js:19 | the stall timeout is `-t` when it is given and non-zero, and 5000 otherwise |
| `Failover.InitState` | index.js:47-49 | the start-up state keeps the invariant, has written nothing and has no injection recorded; with `-f` exactly one stall timer (handle 0) is pending, due `timeoutLength` after start; without `-f` nothing is pending and the handle is null |
| `Controller.Controller.constructor` | index.js:47-49 | start-up: nothing written and no injection recorded; `-f` arms one stall timer due `timeoutLength` after start; without `-f` nothing is pending and the handle is null |
| `Failover.Cancel` | index.js:70 | `clearTimeout(h)` leaves exactly the pending timers whose handle is not `h` |
| `Failover.Arm` | index.js:73 | `setTimeout` adds exactly one timer with the given callback and due time and keeps the timers already pending; `noDataTimeout` names the new timer; when every pending handle is below the next handle, the new handle differs from every pending one and the property is kept; `lastNoData` and the output do not change |
| `Failover.OnData` | index.js:67-74 | keeps the invariant; appends the chunk unchanged; afterwards the only pending timer is a new stall timer due at `now + timeoutLength`; `lastNoData` is null |
| `Controller.Controller.OnData` | index.js:67-74 | the in-place handler computes the `Failover.OnData` state and keeps the invariant |
| `Controller.Controller.SetTimeout` | index.js:73 | the pending timers gain one timer under the next handle |
| `Controller.Controller.ClearTimeout` | index.js:70 | the pending timers lose the one with the given handle |
| `Failover.ArmDelay` | index.js:89 | the delay is `noDataDur` when `lastNoData` is null, and at least `noDataDur` when `lastNoData` is not after the clock |
| `Failover.SetNoDateTimeout` | index.js:82-90 | arms exactly one re-injection timer, due no earlier than `noDataDur` after the arming clock and exactly then when `lastNoData` is null; when nothing was pending it leaves a state that keeps the invariant; the output and `lastNoData` do not change |
| `Controller.Controller.SetNoDateTimeout` | index.js:82-90 | the in-place version computes the `Failover.SetNoDateTimeout` state |
| `Failover.Fire` | index.js:76-90 | keeps the invariant; only timer 0 can fire; appends exactly one fallback copy; afterwards a new re-injection timer is the only one pending, due at least `noDataDur` after the firing; after a stall timer `lastNoData` stays null and the delay is exactly `noDataDur`; after a re-injection `lastNoData` is the firing time and the delay is `noDataDur + (later - now)` |
| `Controller.Controller.Fire` | index.js:76-90 | a timer firing in place computes the `Failover.Fire` state, with the same payload and rescheduling facts stated on the fields |
| `Failover.Step` | index.js:67-90 | one event keeps the invariant and appends exactly the piece that event writes |
| `Failover.Run` | index.js:67-90 | every state reached by a sequence of events satisfies the invariant: at most one pending timer, named by `noDataTimeout` |
| `FailoverProps.ArmDelayAtLeastDuration` | index.js:89 | the delay is never below `noDataDur`, and it equals `noDataDur` exactly when `lastNoData` is null or equal to the clock |
| `FailoverProps.ReinjectPeriod` | index.js:85-89 | the next re-injection is due `noDataDur + 2 * (later - now)` after the clock read of line 87, so the period equals `noDataDur` exactly when the clock does not advance between the reads of lines 87 and 89 |
| `FailoverProps.ArmingFindsNothingPending` | index.js:67-90 | nothing is pending at any arming site: after `clearTimeout` in `onData`, after the firing timer has left inside a callback, and at startup |
| `FailoverProps.ArrivalCancels` | index.js:69-73 | no timer pending before an arrival survives it, and the next expiry can only be the new stall timer, no earlier than `now + timeoutLength` |
| `FailoverProps.EmittedCounts` | index.js:68-86 | the pieces written by a sequence of events are the arrivals' chunks in order, plus one fallback copy per expiry |
| `FailoverProps.RunOutput` | index.js:67-90 | the output is append-only; a run appends one piece per event, in event order |
| `FailoverProps.ForwardedUnchanged` | index.js:67-90 | the live chunks in the output are exactly the arrived chunks, unchanged and in order; the fallback copies are exactly the expiries; the bytes on stdin are the old bytes followed by the run's chunks and whole payloads |
| `FailoverProps.ArrivalsNeverInject` | index.js:67-74 | arrivals alone never inject, and afterwards the only pending timer is the stall timer due `timeoutLength` after the last arrival |
| `FailoverProps.NoForceNoInjection` | index.js:47-49 | without `-f` and with no arrival, no timer can fire and nothing is written |
| `FailoverProps.IdleStep` | index.js:76-90 | with `-f` and no arrivals, an expiry handled at its due time moves the controller one injection further along the schedule |
| `FailoverProps.ForcedStartSchedule` | index.js:47-90 | with `-f`, no arrivals, and every expiry handled at its due time with no clock advance inside the handler, the `k`-th injection happens at `start + timeoutLength + k * noDataDur` |
| `FailoverProps.ForcedStartExample` | index.js:47-90 | with `timeoutLength` 5000 and `noDataDur` 10000, handling the expiries at 5000, 15000 and 25000 writes three fallback copies and leaves the next tick due at 35000 |
| `FailoverProps.ForcedStartNotAtTimeoutPeriod` | index.js:47-90 | with `timeoutLength` 5000 and `noDataDur` 10000, no second injection can happen at 10000: the period is the clip duration, not the timeout |
| `FailoverProps.ForcedIdleStart` | index.js:47-49 | start-up under `-f` is the schedule's state after zero injections |
| `FailoverProps.IdleTickNext` | index.js:85-89 | consecutive ticks of the zero-latency schedule are `noDataDur` apart |
| `FailoverProps.IdleSpacing` | index.js:76-90 | in any arrival-free run, the first expiry is no earlier than the pending timer's due time, and each later expiry comes at least `noDataDur` after the previous one, whatever time the handlers take |
| `FailoverProps.SpacedNotEarly` | index.js:76-90 | times spaced at least `noDataDur` apart, the first no earlier than the `m`-th schedule tick, are each no earlier than the matching tick |
| `FailoverProps.IdleNotEarly` | index.js:76-90 | from a state whose one pending timer is due no earlier than the `m`-th schedule tick, the `k`-th expiry of an arrival-free run is no earlier than the `(m + k)`-th tick |
| `FailoverProps.ForcedStartNeverEarly` | index.js:47-90 | with `-f` and no arrivals, whatever time the handlers take, every expiry writes one fallback copy and the `k`-th happens no earlier than `start + timeoutLength + k * noDataDur` |
| `FailoverProps.ArrivalExample` | index.js:67-74 | a chunk at 3000 cancels the stall timer due at 5000 and arms one due at 8000; nothing can fire at 5000 |
| `LogSuffix.BeforeFirst` | index.js:55 | `split('.')[0]` is the longest prefix without a `.` |
| `LogSuffix.ReplaceFirst` | index.js:55 | `replace('T', '_')` replaces only the first `T` |
| `LogSuffix.ReplaceAll` | index.js:55 | `replaceAll(':', '-')` replaces every `:` and keeps every other character |
| `LogSuffix.Suffix` | index.js:55-56 | whatever the clock string, the suffix starts with `.`, ends with `.log` and contains no `:` |
| `LogSuffix.IsoBeforeDot` | index.js:55 | for an ISO timestamp, the part before the first `.` is the date and the time of day |
| `LogSuffix.IsoReplaceT` | index.js:55 | the date-time separator is the only `T` before the first `.`, and it becomes `_` |
| `LogSuffix.IsoReplaceColons` | index.js:55 | the two colons of the time of day become `-` |
| `LogSuffix.IsoSuffix` | index.js:55-56 | for an ISO timestamp the suffix is `.<date>_<hh>-<mm>-<ss>.log`: the fractional seconds are dropped, and it contains no `:` and no `T` |

## Left out

- Spawning `rtmpdump` and the two `ffmpeg` stages, and piping between them (index.js:36-45): these are external processes and stream plumbing.
- The exit handlers (index.js:37, 40, 44): process teardown that exits with the first stage's code.
- Probing the clip's duration (index.js:25-32): an asynchronous foreign call that produces a float. While the probe is unresolved, `noDataDur` is `undefined`, and Node then fires the timer after about 1 ms. The model instead takes `noDataDur` as a known positive integer, so it does not capture a re-injection scheduled before the probe resolves.
- Reading the fallback file (index.js:24): file I/O. The payload is an opaque byte sequence, and the output records whole copies of it as `Fallback` pieces.
- Command-line parsing and the usage text (index.js:2, 7-17): library code and console output. `-t` is taken as an optional natural number. A negative or non-numeric `-t` is not modelled.
- Log stream creation and the copying of stderr (index.js:51-65, apart from the suffix at line 55): file I/O. The clock read `new Date()` becomes the ISO string passed to `LogSuffix.Suffix`. The extended year format of `toISOString` (years after 9999) is not modelled.
- Console logging (index.js:77, 92): output only.
- Backpressure: the code ignores the return values of `write`, so there is nothing to model.
- Node's timer clamping: a delay below 1 or above 2147483647 becomes 1. It is not modelled. Under the monotone clock assumed below, every delay is at least 1, so only delays above the 32-bit limit would be affected.
- A clock that steps back: `Fire` requires the clock read at index.js:89 to be no earlier than the read at index.js:87. `Date.now()` is a wall clock and can step back. The delay could then fall below `noDataDur`, or below 1, and the model does not cover that case.
- Time order of events: `Run` does not require event times to be non-decreasing. An arrival may carry an earlier time than an expiry before it. The properties about runs hold for any order, but `Run` also admits orders that a real clock cannot produce.
- Node's order of firing for several due timers: `Fire` lets any due pending timer fire. The invariant shows that there is never more than one.
- Wall-clock reads: every `Date.now()` and every handler's start time is a parameter.
