/** The failover controller as the source has it: module-level variables that
    the data handler and the timer callbacks reassign in place. */
module Controller {
  import opened Failover

  class Controller {
    /** `timeoutLength` and the clip duration `noDataDur`, fixed at startup. */
    const timeoutLength: Pos
    const noDataDur: Pos
    /** `noDataTimeout`: null, or the handle of the timer armed last. */
    var noDataTimeout: Option<nat>
    /** The timers Node holds pending for the controller, and the next handle. */
    var timers: seq<Timer>
    var nextId: nat
    var lastNoData: Option<nat>
    /** Everything written to the output transcoder's stdin, in order. */
    var out: seq<Piece>

    function Cfg(): Config {
      Config(timeoutLength, noDataDur)
    }

    function State(): State
      reads this
    {
      Failover.State(noDataTimeout, timers, nextId, lastNoData, out)
    }

    predicate Valid()
      reads this
    {
      Failover.Valid(Cfg(), State())
    }

    /** Startup: with `-f`, `noDataTimeout = setTimeout(noData, timeoutLength)`. */
    constructor (timeoutLength: Pos, noDataDur: Pos, forceStart: bool, now: nat)
      ensures this.timeoutLength == timeoutLength && this.noDataDur == noDataDur
      ensures Valid() && State() == InitState(Cfg(), forceStart, now)
      ensures out == [] && lastNoData == None
      ensures forceStart ==> timers == [Timer(0, Stall, now + timeoutLength)]
      ensures !forceStart ==> timers == [] && noDataTimeout == None
    {
      this.timeoutLength := timeoutLength;
      this.noDataDur := noDataDur;
      noDataTimeout := None;
      timers := [];
      nextId := 0;
      lastNoData := None;
      out := [];
      new;
      if forceStart {
        var h := SetTimeout(Stall, now + timeoutLength);
        noDataTimeout := Some(h);
      }
    }

    /** Node's `setTimeout`: a new pending timer with a fresh handle. */
    method SetTimeout(kind: Kind, due: nat) returns (h: nat)
      modifies this`timers, this`nextId
      ensures h == old(nextId) && nextId == old(nextId) + 1
      ensures timers == old(timers) + [Timer(h, kind, due)]
    {
      h := nextId;
      timers := timers + [Timer(h, kind, due)];
      nextId := nextId + 1;
    }

    /** Node's `clearTimeout`. */
    method ClearTimeout(h: nat)
      modifies this`timers
      ensures timers == Cancel(old(timers), h)
    {
      timers := Cancel(timers, h);
    }

    /** `onData(videoData)`. */
    method OnData(now: nat, chunk: seq<byte>)
      requires Valid()
      modifies this
      ensures Valid() && State() == Failover.OnData(Cfg(), old(State()), now, chunk)
      ensures out == old(out) + [Live(chunk)]
      ensures timers == [Timer(old(nextId), Stall, now + timeoutLength)]
      ensures lastNoData == None
    {
      out := out + [Live(chunk)];
      if noDataTimeout.Some? {
        ClearTimeout(noDataTimeout.value);
        lastNoData := None;
      }
      var h := SetTimeout(Stall, now + timeoutLength);
      noDataTimeout := Some(h);
    }

    /** `setNoDateTimeout()`; `clock` is `Date.now()` when it runs. */
    method SetNoDateTimeout(clock: nat)
      requires lastNoData.None? || lastNoData.value <= clock
      modifies this`timers, this`nextId, this`noDataTimeout
      ensures State() == Failover.SetNoDateTimeout(Cfg(), old(State()), clock)
    {
      var delay := if lastNoData.None? then noDataDur else clock - lastNoData.value + noDataDur;
      var h := SetTimeout(Reinject, clock + delay);
      noDataTimeout := Some(h);
    }

    /** Pending timer `i` fires at `now`; `later` is the clock when the next
        timer is armed.  A stall timer runs `noData`; a re-injection timer runs
        the callback of index.js:85-89. */
    method Fire(i: nat, now: nat, later: nat)
      requires Valid()
      requires i < |timers| && timers[i].due <= now <= later
      modifies this
      ensures Valid() && State() == Failover.Fire(Cfg(), old(State()), i, now, later)
      ensures out == old(out) + [Fallback]
      ensures |timers| == 1 && timers[0].kind == Reinject
      ensures old(timers[i].kind) == Stall ==> lastNoData == None && timers[0].due == later + noDataDur
      ensures old(timers[i].kind) == Reinject ==>
                lastNoData == Some(now) && timers[0].due == later + (later - now) + noDataDur
    {
      var t := timers[i];
      timers := timers[..i] + timers[i + 1..];
      match t.kind
      case Stall =>
        out := out + [Fallback];
        SetNoDateTimeout(later);
      case Reinject =>
        out := out + [Fallback];
        lastNoData := Some(now);
        SetNoDateTimeout(later);
    }
  }
}
