/** Properties of the failover controller: what it writes, when it injects,
    and how its single timer is scheduled. */
module FailoverProps {
  import opened Failover

  // ---------------------------------------------------------------------
  // The delay expression

  /** The delay of index.js:89 is never below `noDataDur`, and equals it
      exactly when no injection is recorded or the clock has not moved since. */
  lemma ArmDelayAtLeastDuration(lastNoData: Option<nat>, clock: nat, noDataDur: Pos)
    requires lastNoData.None? || lastNoData.value <= clock
    ensures noDataDur <= ArmDelay(lastNoData, clock, noDataDur)
    ensures (ArmDelay(lastNoData, clock, noDataDur) == noDataDur)
              <==> (lastNoData.None? || lastNoData.value == clock)
  {
  }

  /** A re-injection tick that fires at `now` and arms at `later` schedules
      the next tick `noDataDur + 2 * (later - now)` after `now`: the time
      between the clock reads of index.js:87 and index.js:89 is counted
      twice, once by arming late and once by the elapsed term of the delay.
      (The write of index.js:86 happens before `now` is read and delays the
      next tick once.)  The period measured from `now` is `noDataDur` exactly
      when the clock does not advance between the two reads. */
  lemma ReinjectPeriod(c: Config, s: State, now: nat, later: nat)
    requires Valid(c, s) && |s.timers| == 1 && s.timers[0].kind == Reinject
    requires s.timers[0].due <= now <= later
    ensures Fire(c, s, 0, now, later).timers[0].due - now == c.noDataDur + 2 * (later - now)
    ensures Fire(c, s, 0, now, later).timers[0].due - now == c.noDataDur <==> later == now
  {
  }

  // ---------------------------------------------------------------------
  // At most one pending timer

  /** Every arming site finds nothing pending: `onData` arms after
      `clearTimeout` has removed the only pending timer, and a callback arms
      after its own timer has left the pending set. */
  lemma ArmingFindsNothingPending(c: Config, s: State, i: nat)
    requires Valid(c, s)
    ensures s.handle.Some? ==> Cancel(s.timers, s.handle.value) == []
    ensures s.handle.None? ==> s.timers == []
    ensures i < |s.timers| ==> RemoveAt(s.timers, i) == []
  {
  }

  /** An arrival cancels whatever was pending: no old timer survives it, and
      the only timer that can fire next is the new stall timer, not before
      `now + timeoutLength`. */
  lemma ArrivalCancels(c: Config, s: State, now: nat, chunk: seq<byte>)
    requires Valid(c, s)
    ensures forall x :: x in s.timers ==> x !in OnData(c, s, now, chunk).timers
    ensures forall e: Event :: e.Expire? && Enabled(OnData(c, s, now, chunk), e) ==>
              e.index == 0 && now + c.timeoutLength <= e.at
  {
    var r := OnData(c, s, now, chunk);
    forall x | x in s.timers ensures x !in r.timers {
      assert x.id < s.nextId;
    }
  }

  // ---------------------------------------------------------------------
  // What is written

  lemma {:induction false} LivesConcat(a: seq<Piece>, b: seq<Piece>)
    ensures Lives(a + b) == Lives(a) + Lives(b)
  {
    if a != [] {
      assert (a + b)[1..] == a[1..] + b;
      LivesConcat(a[1..], b);
    } else {
      assert a + b == b;
    }
  }

  lemma {:induction false} InjectionsConcat(a: seq<Piece>, b: seq<Piece>)
    ensures Injections(a + b) == Injections(a) + Injections(b)
  {
    if a != [] {
      assert (a + b)[1..] == a[1..] + b;
      InjectionsConcat(a[1..], b);
    } else {
      assert a + b == b;
    }
  }

  lemma {:induction false} WrittenConcat(a: seq<Piece>, b: seq<Piece>, payload: seq<byte>)
    ensures Written(a + b, payload) == Written(a, payload) + Written(b, payload)
  {
    if a != [] {
      assert (a + b)[1..] == a[1..] + b;
      WrittenConcat(a[1..], b, payload);
    } else {
      assert a + b == b;
    }
  }

  /** The pieces written by a run are its arrivals' chunks and one fallback
      copy per expiry. */
  lemma {:induction false} EmittedCounts(evs: seq<Event>)
    ensures Lives(Emitted(evs)) == Arrivals(evs)
    ensures Injections(Emitted(evs)) == Expiries(evs)
  {
    if evs != [] {
      EmittedCounts(evs[1..]);
      LivesConcat([PieceOf(evs[0])], Emitted(evs[1..]));
      InjectionsConcat([PieceOf(evs[0])], Emitted(evs[1..]));
    }
  }

  /** The output is append-only, and a run appends exactly one piece per
      event, in event order. */
  lemma {:induction false} RunOutput(c: Config, s: State, evs: seq<Event>)
    requires Valid(c, s) && Run(c, s, evs).Some?
    ensures Run(c, s, evs).value.out == s.out + Emitted(evs)
    decreases |evs|
  {
    if evs != [] {
      var s1 := Step(c, s, evs[0]);
      RunOutput(c, s1, evs[1..]);
      assert s1.out + Emitted(evs[1..]) == s.out + Emitted(evs);
    }
  }

  /** Nothing but live chunks and whole fallback copies ever reaches the
      output: every arriving chunk is forwarded unchanged and in order, every
      injection is the whole payload and happens only when a timer fires. */
  lemma ForwardedUnchanged(c: Config, s: State, evs: seq<Event>, payload: seq<byte>)
    requires Valid(c, s) && Run(c, s, evs).Some?
    ensures Lives(Run(c, s, evs).value.out) == Lives(s.out) + Arrivals(evs)
    ensures Injections(Run(c, s, evs).value.out) == Injections(s.out) + Expiries(evs)
    ensures Written(Run(c, s, evs).value.out, payload) == Written(s.out, payload) + Written(Emitted(evs), payload)
  {
    RunOutput(c, s, evs);
    EmittedCounts(evs);
    LivesConcat(s.out, Emitted(evs));
    InjectionsConcat(s.out, Emitted(evs));
    WrittenConcat(s.out, Emitted(evs), payload);
  }

  // ---------------------------------------------------------------------
  // Runs

  lemma {:induction false} RunAppend(c: Config, s: State, a: seq<Event>, b: seq<Event>)
    requires Valid(c, s)
    ensures Run(c, s, a + b) ==
              if Run(c, s, a).None? then None else Run(c, Run(c, s, a).value, b)
    decreases |a|
  {
    if a == [] {
      assert a + b == b;
    } else {
      assert (a + b)[0] == a[0];
      assert (a + b)[1..] == a[1..] + b;
      if Enabled(s, a[0]) {
        RunAppend(c, Step(c, s, a[0]), a[1..], b);
      }
    }
  }

  predicate AllArrivals(evs: seq<Event>) {
    forall k :: 0 <= k < |evs| ==> evs[k].Arrive?
  }

  /** Repeated arrivals never inject: after any non-empty run of arrivals the
      output holds no new fallback copy and the only pending timer is the
      stall timer due `timeoutLength` after the last arrival. */
  lemma {:induction false} ArrivalsNeverInject(c: Config, s: State, evs: seq<Event>)
    requires Valid(c, s) && evs != [] && AllArrivals(evs)
    ensures Run(c, s, evs).Some?
    ensures Injections(Run(c, s, evs).value.out) == Injections(s.out)
    ensures |Run(c, s, evs).value.timers| == 1
    ensures Run(c, s, evs).value.timers[0].kind == Stall
    ensures Run(c, s, evs).value.timers[0].due == evs[|evs| - 1].at + c.timeoutLength
    decreases |evs|
  {
    var s1 := Step(c, s, evs[0]);
    InjectionsConcat(s.out, [PieceOf(evs[0])]);
    if |evs| > 1 {
      ArrivalsNeverInject(c, s1, evs[1..]);
    }
  }

  /** Without `-f`, nothing is pending at startup, so until a chunk arrives no
      timer can fire and nothing is injected. */
  lemma NoForceNoInjection(c: Config, now: nat, evs: seq<Event>)
    requires Arrivals(evs) == [] && Run(c, InitState(c, false, now), evs).Some?
    ensures evs == []
    ensures Run(c, InitState(c, false, now), evs).value.out == []
  {
  }

  // ---------------------------------------------------------------------
  // Forced start with no arrivals

  function Fallbacks(n: nat): (r: seq<Piece>)
    ensures |r| == n
  {
    if n == 0 then [] else Fallbacks(n - 1) + [Fallback]
  }

  /** The `k`-th injection time (from 0) under `-f` with no arrivals, when
      each handler runs in zero time. */
  function IdleTick(c: Config, start: nat, k: nat): nat {
    start + c.timeoutLength + k * c.noDataDur
  }

  /** Consecutive idle ticks are one clip duration apart. */
  lemma IdleTickNext(c: Config, start: nat, k: nat)
    ensures IdleTick(c, start, k) + c.noDataDur == IdleTick(c, start, k + 1)
  {
    assert k * c.noDataDur + c.noDataDur == (k + 1) * c.noDataDur;
  }

  /** The first `n` idle expiries, each handled at its due time. */
  function IdleEvents(c: Config, start: nat, n: nat): (r: seq<Event>)
    ensures |r| == n
  {
    if n == 0 then []
    else IdleEvents(c, start, n - 1) + [Expire(0, IdleTick(c, start, n - 1), IdleTick(c, start, n - 1))]
  }

  /** The state after `n` idle injections under `-f`. */
  function ForcedIdleState(c: Config, start: nat, n: nat): State {
    State(Some(n), [Timer(n, if n == 0 then Stall else Reinject, IdleTick(c, start, n))], n + 1,
          if n <= 1 then None else Some(IdleTick(c, start, n - 1)), Fallbacks(n))
  }

  /** One idle expiry, handled at its due time, leads from the state after
      `n` injections to the state after `n + 1`. */
  lemma IdleStep(c: Config, start: nat, n: nat)
    ensures Enabled(ForcedIdleState(c, start, n), Expire(0, IdleTick(c, start, n), IdleTick(c, start, n)))
    ensures Step(c, ForcedIdleState(c, start, n), Expire(0, IdleTick(c, start, n), IdleTick(c, start, n)))
            == ForcedIdleState(c, start, n + 1)
  {
    var t := IdleTick(c, start, n);
    IdleTickNext(c, start, n);
    var s := ForcedIdleState(c, start, n);
    var r := Step(c, s, Expire(0, t, t));
    assert r.out == Fallbacks(n + 1);
  }

  /** With `-f` and no arrivals the first injection is at `timeoutLength`
      after startup and each later one `noDataDur` after the previous: the
      `k`-th is at `start + timeoutLength + k * noDataDur`. */
  /** Startup under `-f` is the state after no injections. */
  lemma ForcedIdleStart(c: Config, start: nat)
    ensures InitState(c, true, start) == ForcedIdleState(c, start, 0)
  {
    assert IdleTick(c, start, 0) == start + c.timeoutLength;
  }

  lemma {:induction false} ForcedStartSchedule(c: Config, start: nat, n: nat)
    ensures Run(c, InitState(c, true, start), IdleEvents(c, start, n)) == Some(ForcedIdleState(c, start, n))
  {
    var s0 := InitState(c, true, start);
    if n == 0 {
      ForcedIdleStart(c, start);
    } else {
      var prev := IdleEvents(c, start, n - 1);
      var e := Expire(0, IdleTick(c, start, n - 1), IdleTick(c, start, n - 1));
      assert IdleEvents(c, start, n) == prev + [e];
      ForcedStartSchedule(c, start, n - 1);
      var sp := ForcedIdleState(c, start, n - 1);
      assert Run(c, s0, prev) == Some(sp);
      RunAppend(c, s0, prev, [e]);
      assert Run(c, s0, prev + [e]) == Run(c, sp, [e]);
      IdleStep(c, start, n - 1);
      RunOne(c, sp, e);
    }
  }

  lemma RunOne(c: Config, s: State, e: Event)
    requires Valid(c, s) && Enabled(s, e)
    ensures Run(c, s, [e]) == Some(Step(c, s, e))
  {
    assert [e][1..] == [];
  }

  /** Under `-f` with no arrivals no injection is ever early, whatever time
      the handlers take: the `k`-th expiry (from 0) of any such run happens
      no earlier than `start + timeoutLength + k * noDataDur`. */
  lemma ForcedStartNeverEarly(c: Config, start: nat, evs: seq<Event>)
    requires Arrivals(evs) == [] && Run(c, InitState(c, true, start), evs).Some?
    ensures Injections(Run(c, InitState(c, true, start), evs).value.out) == |evs|
    ensures forall k :: 0 <= k < |evs| ==> IdleTick(c, start, k) <= evs[k].at
  {
    var s0 := InitState(c, true, start);
    IdleNotEarly(c, start, s0, evs, 0);
    ForwardedUnchanged(c, s0, evs, []);
    ExpiriesWithoutArrivals(evs);
  }

  lemma {:induction false} ExpiriesWithoutArrivals(evs: seq<Event>)
    requires Arrivals(evs) == []
    ensures Expiries(evs) == |evs|
  {
    if evs != [] {
      assert !evs[0].Arrive?;
      ExpiriesWithoutArrivals(evs[1..]);
    }
  }

  /** In an arrival-free run from a state with one pending timer, the first
      expiry is no earlier than that timer's due time and each later expiry
      comes at least `noDataDur` after the one before: every tick re-arms at
      least `noDataDur` after it fired. */
  lemma {:induction false} IdleSpacing(c: Config, s: State, evs: seq<Event>)
    requires Valid(c, s) && |s.timers| == 1
    requires Arrivals(evs) == [] && Run(c, s, evs).Some?
    ensures evs != [] ==> s.timers[0].due <= evs[0].at
    ensures forall k :: 0 < k < |evs| ==> evs[k - 1].at + c.noDataDur <= evs[k].at
    decreases |evs|
  {
    if evs != [] {
      assert !evs[0].Arrive?;
      RunTail(c, s, evs);
      var s1 := Step(c, s, evs[0]);
      IdleSpacing(c, s1, evs[1..]);
      forall k | 0 < k < |evs| ensures evs[k - 1].at + c.noDataDur <= evs[k].at {
        if k > 1 {
          assert evs[k - 1] == evs[1..][k - 2] && evs[k] == evs[1..][k - 1];
        }
      }
    }
  }

  /** Times spaced at least `noDataDur` apart, the first no earlier than the
      `m`-th idle tick, are each no earlier than the matching idle tick. */
  lemma {:induction false} SpacedNotEarly(c: Config, start: nat, ts: seq<Event>, m: nat)
    requires ts != [] ==> IdleTick(c, start, m) <= ts[0].at
    requires forall k :: 0 < k < |ts| ==> ts[k - 1].at + c.noDataDur <= ts[k].at
    ensures forall k :: 0 <= k < |ts| ==> IdleTick(c, start, m + k) <= ts[k].at
    decreases |ts|
  {
    if ts != [] {
      var rest := ts[1..];
      if rest != [] {
        IdleTickNext(c, start, m);
        assert rest[0] == ts[1];
      }
      forall k | 0 < k < |rest| ensures rest[k - 1].at + c.noDataDur <= rest[k].at {
        assert rest[k - 1] == ts[k] && rest[k] == ts[k + 1];
      }
      SpacedNotEarly(c, start, rest, m + 1);
      ShiftTicks(c, start, ts, m);
    }
  }

  /** From a state whose only pending timer is due no earlier than the
      `m`-th idle tick, the `k`-th expiry of an arrival-free run happens no
      earlier than the `(m + k)`-th. */
  lemma IdleNotEarly(c: Config, start: nat, s: State, evs: seq<Event>, m: nat)
    requires Valid(c, s) && |s.timers| == 1 && IdleTick(c, start, m) <= s.timers[0].due
    requires Arrivals(evs) == [] && Run(c, s, evs).Some?
    ensures forall k :: 0 <= k < |evs| ==> IdleTick(c, start, m + k) <= evs[k].at
  {
    IdleSpacing(c, s, evs);
    SpacedNotEarly(c, start, evs, m);
  }

  /** A run that succeeds starts with an enabled event and goes on from the
      state that event leads to. */
  lemma RunTail(c: Config, s: State, evs: seq<Event>)
    requires Valid(c, s) && evs != [] && Run(c, s, evs).Some?
    ensures Enabled(s, evs[0])
    ensures Run(c, s, evs) == Run(c, Step(c, s, evs[0]), evs[1..])
  {
  }

  lemma ShiftTicks(c: Config, start: nat, evs: seq<Event>, m: nat)
    requires evs != [] && IdleTick(c, start, m) <= evs[0].at
    requires forall k :: 0 <= k < |evs[1..]| ==> IdleTick(c, start, m + 1 + k) <= evs[1..][k].at
    ensures forall k :: 0 <= k < |evs| ==> IdleTick(c, start, m + k) <= evs[k].at
  {
    forall k | 0 <= k < |evs| ensures IdleTick(c, start, m + k) <= evs[k].at {
      if k > 0 {
        assert evs[k] == evs[1..][k - 1];
        assert m + k == m + 1 + (k - 1);
      }
    }
  }

  /** Forced start with a 5000 ms timeout and a 10000 ms clip: injections at
      5000, 15000 and 25000. */
  lemma ForcedStartExample()
    ensures var c := Config(5000, 10000);
            Run(c, InitState(c, true, 0),
                [Expire(0, 5000, 5000), Expire(0, 15000, 15000), Expire(0, 25000, 25000)])
            == Some(State(Some(3), [Timer(3, Reinject, 35000)], 4, Some(25000),
                          [Fallback, Fallback, Fallback]))
  {
    var c := Config(5000, 10000);
    assert IdleTick(c, 0, 0) == 5000 && IdleTick(c, 0, 1) == 15000;
    assert IdleTick(c, 0, 2) == 25000 && IdleTick(c, 0, 3) == 35000;
    assert IdleEvents(c, 0, 1) == [Expire(0, 5000, 5000)];
    assert IdleEvents(c, 0, 2) == [Expire(0, 5000, 5000), Expire(0, 15000, 15000)];
    assert IdleEvents(c, 0, 3) ==
           [Expire(0, 5000, 5000), Expire(0, 15000, 15000), Expire(0, 25000, 25000)];
    assert Fallbacks(3) == [Fallback, Fallback, Fallback] by {
      assert Fallbacks(1) == [Fallback];
      assert Fallbacks(2) == [Fallback, Fallback];
    }
    ForcedStartSchedule(c, 0, 3);
  }

  /** With the same settings no second injection can happen at 10000: the
      period is the clip's duration, not the timeout. */
  lemma ForcedStartNotAtTimeoutPeriod()
    ensures var c := Config(5000, 10000);
            Run(c, InitState(c, true, 0), [Expire(0, 5000, 5000), Expire(0, 10000, 10000)]) == None
  {
    var c := Config(5000, 10000);
    var s1 := Step(c, InitState(c, true, 0), Expire(0, 5000, 5000));
    assert s1.timers[0].due == 15000;
  }

  /** A chunk at 3000 while the stall timer armed at 0 is due at 5000: that
      timer is cancelled, a stall timer due at 8000 replaces it, and nothing
      can fire at 5000. */
  lemma ArrivalExample(chunk: seq<byte>)
    ensures var c := Config(5000, 10000);
            Run(c, InitState(c, true, 0), [Arrive(3000, chunk)])
            == Some(State(Some(1), [Timer(1, Stall, 8000)], 2, None, [Live(chunk)]))
    ensures var c := Config(5000, 10000);
            Run(c, InitState(c, true, 0), [Arrive(3000, chunk), Expire(0, 5000, 5000)]) == None
  {
    var c := Config(5000, 10000);
    var s0 := InitState(c, true, 0);
    var a := Arrive(3000, chunk);
    var s1 := Step(c, s0, a);
    assert s1 == State(Some(1), [Timer(1, Stall, 8000)], 2, None, [Live(chunk)]);
    assert Run(c, s0, [a]) == Run(c, s1, []);
    RunAppend(c, s0, [a], [Expire(0, 5000, 5000)]);
  }
}
