/** The failover controller of the relay, as a state machine over values.

    The relay forwards each chunk that the ingest transcoder produces to the
    output transcoder.  When no chunk arrives for `timeoutLength` ms it writes
    the fallback clip, and while the stall lasts it re-writes the clip on a
    self-rescheduling timer based on the clip's duration `noDataDur`.

    Node runs every handler to completion on one thread, so the controller is a
    sequential machine driven by two kinds of event: a chunk arriving and a
    pending timer expiring.  Times are integer milliseconds passed in as
    parameters.  Node's set of pending timers is modelled as a sequence, so
    that "at most one timer is pending" is a proved invariant rather than a
    consequence of the representation. */
module Failover {

  datatype Option<T> = None | Some(value: T)

  newtype byte = x: int | 0 <= x < 256

  /** A positive number of milliseconds. */
  type Pos = n: nat | 0 < n witness 1

  /** Which callback a pending timer runs: `noData` (the stall timer) or the
      anonymous re-injection callback armed by `setNoDateTimeout`. */
  datatype Kind = Stall | Reinject

  /** A pending Node timer: its handle, its callback and its due time. */
  datatype Timer = Timer(id: nat, kind: Kind, due: nat)

  /** What one write to the output transcoder's stdin carries: a live chunk,
      unchanged, or one whole copy of the fallback payload. */
  datatype Piece = Live(chunk: seq<byte>) | Fallback

  datatype Config = Config(timeoutLength: Pos, noDataDur: Pos)

  /** The controller's state between two handlers.
      handle     -- `noDataTimeout`: null, or the handle of the timer armed last
      timers     -- the timers Node holds pending for the controller
      nextId     -- the handle the next `setTimeout` returns
      lastNoData -- `lastNoData`: time of the last periodic injection, or null
      out        -- everything written to the output transcoder, in order */
  datatype State = State(handle: Option<nat>, timers: seq<Timer>, nextId: nat,
                         lastNoData: Option<nat>, out: seq<Piece>)

  /** An event the controller reacts to.  `Expire(i, at, later)` runs the
      callback of pending timer `i` at time `at`; `later` is the clock read
      when the handler arms its next timer (the handler may take time). */
  datatype Event = Arrive(at: nat, chunk: seq<byte>) | Expire(index: nat, at: nat, later: nat)

  const DefaultTimeout: Pos := 5000

  /** `-t` when given and non-zero (JavaScript truthiness), otherwise 5000. */
  function TimeoutLength(t: Option<nat>): (r: Pos)
    ensures t.Some? && t.value != 0 ==> r == t.value
    ensures t.None? || t.value == 0 ==> r == DefaultTimeout
  {
    if t.Some? && t.value != 0 then t.value else DefaultTimeout
  }

  /** The invariant every reachable state keeps: at most one timer is pending,
      `noDataTimeout` is set exactly when one is and names it, and a recorded
      injection time belongs to a re-injection period of at least `noDataDur`. */
  predicate Valid(c: Config, s: State) {
    |s.timers| <= 1
    && (s.handle.Some? <==> |s.timers| == 1)
    && (|s.timers| == 1 ==> s.handle == Some(s.timers[0].id) && s.timers[0].id < s.nextId)
    && (s.lastNoData.Some? ==>
          |s.timers| == 1 && s.timers[0].kind == Reinject
          && s.lastNoData.value + c.noDataDur <= s.timers[0].due)
  }

  // ---------------------------------------------------------------------
  // Node's timer primitives

  /** `setTimeout(cb, delay)` followed by `noDataTimeout = <handle>`: one
      more pending timer, under a handle no pending timer already has; the
      timers already pending, `lastNoData` and the output are unchanged. */
  function Arm(s: State, kind: Kind, due: nat): (r: State)
    ensures |r.timers| == |s.timers| + 1 && r.timers[..|s.timers|] == s.timers
    ensures r.timers[|s.timers|].kind == kind && r.timers[|s.timers|].due == due
    ensures r.handle == Some(r.timers[|s.timers|].id)
    ensures (forall x :: x in s.timers ==> x.id < s.nextId) ==>
              (forall x :: x in r.timers ==> x.id < r.nextId)
              && (forall x :: x in s.timers ==> Some(x.id) != r.handle)
    ensures r.lastNoData == s.lastNoData && r.out == s.out
  {
    s.(timers := s.timers + [Timer(s.nextId, kind, due)], nextId := s.nextId + 1,
       handle := Some(s.nextId))
  }

  /** `clearTimeout(h)`: the pending timers without the one whose handle is `h`. */
  function Cancel(ts: seq<Timer>, h: nat): (r: seq<Timer>)
    ensures |r| <= |ts|
    ensures forall x :: x in r <==> x in ts && x.id != h
  {
    if ts == [] then []
    else if ts[0].id == h then Cancel(ts[1..], h)
    else [ts[0]] + Cancel(ts[1..], h)
  }

  /** The pending timers once timer `i` has fired. */
  function RemoveAt(ts: seq<Timer>, i: nat): (r: seq<Timer>)
    requires i < |ts|
    ensures |r| == |ts| - 1
    ensures forall x :: x in r ==> x in ts
  {
    ts[..i] + ts[i + 1..]
  }

  // ---------------------------------------------------------------------
  // The handlers

  /** The delay expression of index.js:89, exactly as written:
      `lastNoData == null ? noDataDur : (now - lastNoData + noDataDur)`. */
  function ArmDelay(lastNoData: Option<nat>, clock: nat, noDataDur: Pos): (d: int)
    ensures lastNoData.None? ==> d == noDataDur
    ensures lastNoData.Some? && lastNoData.value <= clock ==> noDataDur <= d
  {
    if lastNoData.None? then noDataDur else clock - lastNoData.value + noDataDur
  }

  /** Startup: nothing pending, unless `-f` arms the stall timer at once. */
  function InitState(c: Config, forceStart: bool, now: nat): (r: State)
    ensures Valid(c, r)
    ensures r.out == [] && r.lastNoData == None
    ensures forceStart ==> r.timers == [Timer(0, Stall, now + c.timeoutLength)] && r.handle == Some(0)
    ensures !forceStart ==> r.timers == [] && r.handle == None
  {
    var s := State(None, [], 0, None, []);
    if forceStart then Arm(s, Stall, now + c.timeoutLength) else s
  }

  /** `onData`: forward the chunk, cancel the pending timer (if a handle
      exists) and forget the last injection, then arm a fresh stall timer. */
  function OnData(c: Config, s: State, now: nat, chunk: seq<byte>): (r: State)
    requires Valid(c, s)
    ensures Valid(c, r)
    ensures r.out == s.out + [Live(chunk)]
    ensures r.timers == [Timer(s.nextId, Stall, now + c.timeoutLength)]
    ensures r.lastNoData == None
  {
    var s1 := s.(out := s.out + [Live(chunk)]);
    var s2 := if s1.handle.Some? then s1.(timers := Cancel(s1.timers, s1.handle.value), lastNoData := None)
              else s1;
    Arm(s2, Stall, now + c.timeoutLength)
  }

  /** `setNoDateTimeout`: arm the re-injection timer, the delay computed from
      the clock `clock` read at the moment of arming. */
  function SetNoDateTimeout(c: Config, s: State, clock: nat): (r: State)
    requires s.lastNoData.None? || s.lastNoData.value <= clock
    ensures |r.timers| == |s.timers| + 1 && r.timers[..|s.timers|] == s.timers
    ensures r.timers[|s.timers|].kind == Reinject
    ensures clock + c.noDataDur <= r.timers[|s.timers|].due
    ensures s.lastNoData.None? ==> r.timers[|s.timers|].due == clock + c.noDataDur
    ensures s.timers == [] ==> Valid(c, r)
    ensures r.out == s.out && r.lastNoData == s.lastNoData
  {
    Arm(s, Reinject, clock + ArmDelay(s.lastNoData, clock, c.noDataDur))
  }

  /** Timer `i` fires at `now`; `later` is the clock when the next timer is
      armed.  A stall timer runs `noData`: one payload, then `setNoDateTimeout`.
      A re-injection timer writes the payload, sets `lastNoData := now`, then
      calls `setNoDateTimeout`. */
  function Fire(c: Config, s: State, i: nat, now: nat, later: nat): (r: State)
    requires Valid(c, s)
    requires i < |s.timers| && s.timers[i].due <= now <= later
    ensures Valid(c, r)
    ensures i == 0 && r.out == s.out + [Fallback]
    ensures |r.timers| == 1 && r.timers[0].id == s.nextId && r.timers[0].kind == Reinject
    ensures now + c.noDataDur <= r.timers[0].due
    ensures s.timers[i].kind == Stall ==>
              r.lastNoData == None && r.timers[0].due == later + c.noDataDur
    ensures s.timers[i].kind == Reinject ==>
              r.lastNoData == Some(now) && r.timers[0].due == later + (later - now) + c.noDataDur
  {
    var t := s.timers[i];
    var s1 := s.(timers := RemoveAt(s.timers, i));
    match t.kind
    case Stall =>
      SetNoDateTimeout(c, s1.(out := s1.out + [Fallback]), later)
    case Reinject =>
      SetNoDateTimeout(c, s1.(out := s1.out + [Fallback], lastNoData := Some(now)), later)
  }

  // ---------------------------------------------------------------------
  // Runs of events

  predicate Enabled(s: State, e: Event) {
    e.Arrive? || (e.index < |s.timers| && s.timers[e.index].due <= e.at <= e.later)
  }

  /** The piece an event writes to the output. */
  function PieceOf(e: Event): Piece {
    if e.Arrive? then Live(e.chunk) else Fallback
  }

  function Step(c: Config, s: State, e: Event): (r: State)
    requires Valid(c, s) && Enabled(s, e)
    ensures Valid(c, r)
    ensures r.out == s.out + [PieceOf(e)]
  {
    match e
    case Arrive(at, chunk) => OnData(c, s, at, chunk)
    case Expire(i, at, later) => Fire(c, s, i, at, later)
  }

  /** The state after a sequence of events, or None when some event could not
      happen (it names a timer that is not pending or not yet due). */
  function Run(c: Config, s: State, evs: seq<Event>): (r: Option<State>)
    requires Valid(c, s)
    ensures r.Some? ==> Valid(c, r.value)
    decreases |evs|
  {
    if evs == [] then Some(s)
    else if !Enabled(s, evs[0]) then None
    else Run(c, Step(c, s, evs[0]), evs[1..])
  }

  /** The pieces a sequence of events writes, in order. */
  function Emitted(evs: seq<Event>): seq<Piece> {
    if evs == [] then [] else [PieceOf(evs[0])] + Emitted(evs[1..])
  }

  /** The chunks carried by the arrivals of a sequence of events. */
  function Arrivals(evs: seq<Event>): seq<seq<byte>> {
    if evs == [] then []
    else (if evs[0].Arrive? then [evs[0].chunk] else []) + Arrivals(evs[1..])
  }

  function Expiries(evs: seq<Event>): nat {
    if evs == [] then 0 else (if evs[0].Expire? then 1 else 0) + Expiries(evs[1..])
  }

  /** The live chunks of an output, in order. */
  function Lives(ps: seq<Piece>): seq<seq<byte>> {
    if ps == [] then [] else (if ps[0].Live? then [ps[0].chunk] else []) + Lives(ps[1..])
  }

  /** The number of fallback copies in an output. */
  function Injections(ps: seq<Piece>): nat {
    if ps == [] then 0 else (if ps[0].Fallback? then 1 else 0) + Injections(ps[1..])
  }

  /** The bytes an output puts on the transcoder's stdin. */
  function Written(ps: seq<Piece>, payload: seq<byte>): seq<byte> {
    if ps == [] then []
    else (if ps[0].Live? then ps[0].chunk else payload) + Written(ps[1..], payload)
  }
}
