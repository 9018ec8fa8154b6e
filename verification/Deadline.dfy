/**
 The pair against the 60 second clock of each call. A peer gives up only at the loop head and only
 once its own clock has run out; if passes are quick enough for the bound on their number, neither
 ever does, and both calls return 0.
 */
module Deadline {
  import opened Common
  import opened Handshake
  import opened PunchPair
  import opened Progress

  /** A call's clock: when it starts, its first reading at the loop head, and how long its passes take. */
  datatype Timing = Timing(start: nat, first: nat, inputs: nat -> Input)

  ghost predicate OnTime(e: Timing, n: nat) {
    !Expired(e.start, Clock(e.first, e.inputs, n))
  }

  datatype Timings = Timings(a: Timing, b: Timing)
  {
    function Of(x: Side): Timing {
      if x.A? then a else b
    }
  }

  /** The loop test: another PUNCH_REQ while the clock has not run out, giving up once it has. */
  ghost predicate Obeys(v: Timed, act: Action, e: Timing) {
    match act
    case Send(x) => OnTime(e, v.Passes(x))
    case Quit(x) => !OnTime(e, v.Passes(x))
    case _ => true
  }

  ghost predicate ClockedStep(v: Timed, act: Action, d: nat, delay: nat, es: Timings) {
    && Enabled(Fifo, v.s, act)
    && Timely(v, act, delay)
    && WithinSkew(Next(v, act).s, d)
    && Obeys(v, act, es.Of(act.who))
  }

  ghost predicate ClockedRun(v: Timed, acts: seq<Action>, w: Timed, d: nat, delay: nat, es: Timings)
    decreases acts
  {
    if acts == [] then v == w
    else ClockedStep(v, acts[0], d, delay, es) && ClockedRun(Next(v, acts[0]), acts[1..], w, d, delay, es)
  }

  /** The longest that n passes take, at most `each` microseconds apiece. */
  function Span(n: nat, each: nat): nat {
    if n == 0 then 0 else Span(n - 1, each) + each
  }

  lemma {:induction false} SpanIsProduct(n: nat, each: nat)
    ensures Span(n, each) == n * each
  {
    if n == 0 {
    } else {
      SpanIsProduct(n - 1, each);
      assert n * each == (n - 1) * each + each;
    }
  }

  /**
   Passes last at most `each` microseconds, so few enough that `most` of them fit before the
   timeout; a second of it may be lost because `time` counts whole seconds.
   */
  ghost predicate Swift(e: Timing, most: nat, each: nat) {
    && (forall i :: PUNCH_INTERVAL + e.inputs(i).slack <= each)
    && e.first + Span(most, each) <= e.start + 59_000_000
  }

  lemma {:induction false} SlowestClock(e: Timing, n: nat, each: nat)
    requires forall i :: PUNCH_INTERVAL + e.inputs(i).slack <= each
    ensures Clock(e.first, e.inputs, n) <= e.first + Span(n, each)
  {
    if n == 0 {
    } else {
      SlowestClock(e, n - 1, each);
    }
  }

  lemma {:induction false} FewerTakeLess(n: nat, most: nat, each: nat)
    requires n <= most
    ensures Span(n, each) <= Span(most, each)
  {
    if n == most {
    } else {
      FewerTakeLess(n, most - 1, each);
    }
  }

  lemma StaysOnTime(e: Timing, n: nat, most: nat, each: nat)
    requires Swift(e, most, each) && n <= most
    ensures OnTime(e, n)
  {
    SlowestClock(e, n, each);
    FewerTakeLess(n, most, each);
  }

  // ---------------------------------------------------------------- nobody times out

  ghost predicate BothSwift(es: Timings, d: nat, delay: nat, each: nat) {
    Swift(es.a, MostPasses(d, delay), each) && Swift(es.b, MostPasses(d, delay), each)
  }

  /** While the pair is steady the clock forbids exactly giving up. */
  lemma ClockedStepIsSteady(v: Timed, act: Action, d: nat, delay: nat, es: Timings, each: nat)
    requires Steady(v, d, delay) && BothSwift(es, d, delay, each)
    ensures ClockedStep(v, act, d, delay, es) <==> SteadyStep(v, act, d, delay)
  {
    var x := act.who;
    FewPasses(v, x, d, delay);
    if v.s.At(x).peer.Punching() {
      StaysOnTime(es.Of(x), v.Passes(x), MostPasses(d, delay), each);
    }
  }

  lemma {:induction false} ClockedIsSteady(v: Timed, acts: seq<Action>, w: Timed, d: nat, delay: nat, es: Timings,
                                           each: nat)
    requires Steady(v, d, delay) && BothSwift(es, d, delay, each)
    ensures ClockedRun(v, acts, w, d, delay, es) <==> SteadyRun(v, acts, w, d, delay)
    decreases acts
  {
    if acts == [] {
    } else {
      ClockedStepIsSteady(v, acts[0], d, delay, es, each);
      if SteadyStep(v, acts[0], d, delay) {
        StepKeepsSteady(v, acts[0], d, delay);
        ClockedIsSteady(Next(v, acts[0]), acts[1..], w, d, delay, es, each);
      }
    }
  }

  // ---------------------------------------------------------------- what the calls return

  /** What x's polls yield along a run. */
  function Heard(v: Timed, acts: seq<Action>, x: Side): seq<Option<Message>>
    decreases acts
  {
    if acts == [] || !Enabled(Fifo, v.s, acts[0]) then []
    else HeardNow(v, acts[0], x) + Heard(Next(v, acts[0]), acts[1..], x)
  }

  function HeardNow(v: Timed, act: Action, x: Side): seq<Option<Message>> {
    var inbox := v.s.At(x).inbox;
    if act != Recv(x) then [] else [if inbox == [] then None else Some(inbox[0])]
  }

  /** The environment hands the call just that, from the given poll on. */
  ghost predicate Yields(inputs: nat -> Input, n: nat, heard: seq<Option<Message>>) {
    forall i :: 0 <= i < |heard| ==> inputs(n + i).recv == heard[i]
  }

  /** The peer is where the call is after as many passes. */
  ghost predicate Follows(p: Peer, inputs: nat -> Input) {
    match p.stage
    case Sending => p == Handshake.Passes(inputs, p.passes)
    case Receiving => p.passes + 1 == p.attempts && Handshake.Passes(inputs, p.passes).stage.Sending?
      && p == SendReq(Handshake.Passes(inputs, p.passes))
    case Succeeded => Handshake.Passes(inputs, p.passes).stage.Succeeded?
    case TimedOut => true
  }

  lemma PollFollows(p: Peer, inputs: nat -> Input, r: Option<Message>)
    requires p.stage.Receiving? && Follows(p, inputs) && inputs(p.passes).recv == r
    ensures Follows(Receive(p, r), inputs)
  {
    var q := Handshake.Passes(inputs, p.passes);
    assert Handshake.Passes(inputs, p.passes + 1) == Receive(SendReq(q), r);
  }

  lemma {:induction false} PassesCount(inputs: nat -> Input, n: nat)
    ensures var p := Handshake.Passes(inputs, n); p.attempts == p.passes <= n && (p.stage.Sending? ==> p.passes == n)
  {
    if n == 0 {
    } else {
      PassesCount(inputs, n - 1);
    }
  }

  lemma RecvFollows(v: Timed, x: Side, inputs: nat -> Input)
    requires Enabled(Fifo, v.s, Recv(x)) && Follows(v.s.At(x).peer, inputs)
    requires inputs(v.Passes(x)).recv == HeardNow(v, Recv(x), x)[0]
    ensures Follows(Next(v, Recv(x)).s.At(x).peer, inputs) && Next(v, Recv(x)).Passes(x) == v.Passes(x) + 1
  {
    PollFollows(v.s.At(x).peer, inputs, HeardNow(v, Recv(x), x)[0]);
  }

  lemma OtherFollows(v: Timed, act: Action, x: Side, inputs: nat -> Input)
    requires Enabled(Fifo, v.s, act) && act != Recv(x) && Follows(v.s.At(x).peer, inputs)
    ensures Follows(Next(v, act).s.At(x).peer, inputs) && Next(v, act).Passes(x) == v.Passes(x)
  {
    PassesCount(inputs, v.Passes(x));
    match act
    case Send(_) =>
    case _ =>
  }

  lemma StepFollows(v: Timed, act: Action, x: Side, inputs: nat -> Input)
    requires Enabled(Fifo, v.s, act) && Follows(v.s.At(x).peer, inputs)
    requires Yields(inputs, v.Passes(x), HeardNow(v, act, x))
    ensures Follows(Next(v, act).s.At(x).peer, inputs)
    ensures Next(v, act).Passes(x) == v.Passes(x) + |HeardNow(v, act, x)|
  {
    if act == Recv(x) {
      assert inputs(v.Passes(x) + 0).recv == HeardNow(v, act, x)[0];
      RecvFollows(v, x, inputs);
    } else {
      OtherFollows(v, act, x, inputs);
    }
  }

  lemma YieldsBoth(inputs: nat -> Input, n: nat, heard: seq<Option<Message>>, more: seq<Option<Message>>)
    requires Yields(inputs, n, heard + more)
    ensures Yields(inputs, n, heard) && Yields(inputs, n + |heard|, more)
  {
    assert forall i :: 0 <= i < |heard| ==> (heard + more)[i] == heard[i];
    forall i | 0 <= i < |more| ensures inputs(n + |heard| + i).recv == more[i] {
      assert inputs(n + (|heard| + i)).recv == (heard + more)[|heard| + i];
    }
  }

  lemma RunFirst(v: Timed, acts: seq<Action>, t: Pair, x: Side) returns (u: Timed)
    requires acts != [] && Run(Fifo, v.s, acts, t)
    ensures Enabled(Fifo, v.s, acts[0]) && u == Next(v, acts[0]) && Run(Fifo, u.s, acts[1..], t)
    ensures Heard(v, acts, x) == HeardNow(v, acts[0], x) + Heard(u, acts[1..], x)
  {
    u := Next(v, acts[0]);
  }

  lemma FirstFollows(v: Timed, acts: seq<Action>, t: Pair, x: Side, inputs: nat -> Input) returns (u: Timed)
    requires acts != [] && Run(Fifo, v.s, acts, t) && Follows(v.s.At(x).peer, inputs)
    requires Yields(inputs, v.Passes(x), Heard(v, acts, x))
    ensures Run(Fifo, u.s, acts[1..], t) && Follows(u.s.At(x).peer, inputs)
    ensures Yields(inputs, u.Passes(x), Heard(u, acts[1..], x))
  {
    u := RunFirst(v, acts, t, x);
    YieldsBoth(inputs, v.Passes(x), HeardNow(v, acts[0], x), Heard(u, acts[1..], x));
    StepFollows(v, acts[0], x, inputs);
  }

  /** The peers of the pair are calls of perform_nat_punching, each with the other as part of its environment. */
  lemma {:induction false} RunFollows(v: Timed, acts: seq<Action>, t: Pair, x: Side, inputs: nat -> Input)
    requires Run(Fifo, v.s, acts, t) && Follows(v.s.At(x).peer, inputs)
    requires Yields(inputs, v.Passes(x), Heard(v, acts, x))
    ensures Follows(t.At(x).peer, inputs)
    decreases acts
  {
    if acts == [] {
    } else {
      var u := FirstFollows(v, acts, t, x, inputs);
      RunFollows(u, acts[1..], t, x, inputs);
    }
  }

  lemma {:induction false} SuccessStays(inputs: nat -> Input, m: nat, n: nat)
    requires m <= n && Handshake.Passes(inputs, m).stage.Succeeded?
    ensures Handshake.Passes(inputs, n).stage.Succeeded?
  {
    if m == n {
    } else {
      SuccessStays(inputs, m, n - 1);
    }
  }

  /** A call that gets its PUNCH_ACK in a pass begun on time, as all before it, returns 0. */
  lemma ReturnsZero(e: Timing, n: nat, rc: int, peer: Peer)
    requires n > 0 && Handshake.Passes(e.inputs, n).stage.Succeeded?
    requires forall i :: 0 <= i < n ==> OnTime(e, i)
    requires Ends(e.start, e.first, e.inputs, rc, peer)
    ensures rc == 0
  {
    assert peer.passes < n ==> OnTime(e, peer.passes);
    if peer.passes >= n {
      SuccessStays(e.inputs, n, peer.passes);
    }
  }

  lemma SucceededInTime(e: Timing, n: nat, most: nat, each: nat)
    requires Swift(e, most, each) && n <= most + 1
    ensures forall i :: 0 <= i < n ==> OnTime(e, i)
  {
    forall i | 0 <= i < n ensures OnTime(e, i) {
      StaysOnTime(e, i, most, each);
    }
  }

  /** Somebody who succeeded made a pass. */
  lemma SucceededAfterPass(inputs: nat -> Input, n: nat)
    requires Handshake.Passes(inputs, n).stage.Succeeded?
    ensures n > 0
  {
  }

  /**
   Two calls in time. If passes are at most `each` microseconds long and the 2(d + delay) + 1 that
   may be made before the last fit into each call's 60 seconds, then on every run neither peer gives
   up, one that has made 2(d + delay) + 2 passes has succeeded, and the call of one that has
   succeeded returns 0.
   */
  lemma NeitherTimesOut(acts: seq<Action>, w: Timed, d: nat, delay: nat, es: Timings, each: nat, x: Side)
    requires ClockedRun(TIMED_START, acts, w, d, delay, es) && BothSwift(es, d, delay, each)
    ensures !w.s.At(x).peer.stage.TimedOut?
    ensures w.Passes(x) <= 2 * (d + delay) + 2
    ensures w.Passes(x) == 2 * (d + delay) + 2 ==> w.s.At(x).peer.stage.Succeeded?
    ensures w.s.At(x).peer.stage.Succeeded? && Yields(es.Of(x).inputs, 0, Heard(TIMED_START, acts, x)) ==>
      forall rc, peer :: Ends(es.Of(x).start, es.Of(x).first, es.Of(x).inputs, rc, peer) ==> rc == 0
  {
    StartsSteady(d, delay);
    ClockedIsSteady(TIMED_START, acts, w, d, delay, es, each);
    SteadyRunKeeps(TIMED_START, acts, w, d, delay);
    FewPasses(w, x, d, delay);
    var e := es.Of(x);
    if w.s.At(x).peer.stage.Succeeded? && Yields(e.inputs, 0, Heard(TIMED_START, acts, x)) {
      SteadyRunIsRun(TIMED_START, acts, w, d, delay);
      RunFollows(TIMED_START, acts, w.s, x, e.inputs);
      SucceededAfterPass(e.inputs, w.Passes(x));
      SucceededInTime(e, w.Passes(x), MostPasses(d, delay), each);
      forall rc, peer | Ends(e.start, e.first, e.inputs, rc, peer) ensures rc == 0 {
        ReturnsZero(e, w.Passes(x), rc, peer);
      }
    }
  }

  /** And from wherever such a run has got to, the clocks leave time for both to succeed. */
  lemma BothStillCan(acts: seq<Action>, v: Timed, d: nat, delay: nat, es: Timings, each: nat)
    returns (more: seq<Action>, w: Timed)
    requires d > 0 && ClockedRun(TIMED_START, acts, v, d, delay, es) && BothSwift(es, d, delay, each)
    ensures ClockedRun(v, more, w, d, delay, es) && BothSucceeded(w.s)
  {
    StartsSteady(d, delay);
    ClockedIsSteady(TIMED_START, acts, v, d, delay, es, each);
    SteadyRunKeeps(TIMED_START, acts, v, d, delay);
    SteadyRunsFinish(acts, v, d, delay);
    more, w :| SteadyRun(v, more, w, d, delay) && BothSucceeded(w.s);
    ClockedIsSteady(v, more, w, d, delay, es, each);
  }
}
