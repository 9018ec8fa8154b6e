/**
 Both calls on one time line. How far the peers may drift apart and how many passes a datagram may
 take follow from when the calls start, how long passes last, and how long datagrams are under way;
 if those leave the needed passes room before the timeout, both calls return 0.
 */
module Timeline {
  import opened Common
  import opened Handshake
  import opened PunchPair
  import opened Stranding
  import opened Progress
  import opened Deadline

  /** The pair at a point in time, with when each datagram was sent. */
  datatype Moment = Moment(v: Timed, now: nat, aSent: seq<nat>, bSent: seq<nat>)
  {
    function SentAt(x: Side): seq<nat> {
      if x.A? then aSent else bSent
    }
  }

  datatype Happening = At(act: Action, time: nat)

  function Actions(hs: seq<Happening>): seq<Action> {
    if hs == [] then [] else [hs[0].act] + Actions(hs[1..])
  }

  /** When pass n begins, and by when it polls: the sleep of half a second comes behind that. */
  ghost function Begins(e: Timing, n: nat): nat {
    Clock(e.first, e.inputs, n)
  }

  ghost function PollBy(e: Timing, n: nat): nat {
    Begins(e, n) + e.inputs(n).slack
  }

  /** No peer still punching has let the time for its poll pass. */
  ghost predicate NotLate(v: Timed, time: nat, es: Timings) {
    && (v.s.a.peer.Punching() ==> time <= PollBy(es.a, v.Passes(A)))
    && (v.s.b.peer.Punching() ==> time <= PollBy(es.b, v.Passes(B)))
  }

  /** Whatever was sent to x at least `lag` microseconds ago has arrived. */
  ghost predicate Delivered(m: Moment, x: Side, time: nat, lag: nat) {
    forall i :: 0 <= i < |m.SentAt(Opp(x))| && m.SentAt(Opp(x))[i] + lag <= time ==> i < m.v.s.At(x).arrived
  }

  ghost predicate TimeStep(m: Moment, h: Happening, lag: nat, es: Timings) {
    var x := h.act.who;
    && Enabled(Fifo, m.v.s, h.act)
    && m.now <= h.time && NotLate(m.v, h.time, es)
    && (m.v.s.At(x).peer.Punching() && !h.act.Arrive? ==> h.time >= Begins(es.Of(x), m.v.Passes(x)))
    && Obeys(m.v, h.act, es.Of(x))
    && (h.act.Recv? ==> Delivered(m, x, h.time, lag))
  }

  function Stamped(sent: seq<nat>, before: nat, after: nat, time: nat): seq<nat> {
    if after > before then sent + seq(after - before, _ => time) else sent
  }

  function Later(m: Moment, h: Happening): Moment
    requires Enabled(Fifo, m.v.s, h.act)
  {
    var w := Next(m.v, h.act);
    Moment(w, h.time,
           Stamped(m.aSent, |m.v.s.Sent(A)|, |w.s.Sent(A)|, h.time),
           Stamped(m.bSent, |m.v.s.Sent(B)|, |w.s.Sent(B)|, h.time))
  }

  ghost predicate TimeRun(m: Moment, hs: seq<Happening>, n: Moment, lag: nat, es: Timings)
    decreases hs
  {
    if hs == [] then m == n
    else TimeStep(m, hs[0], lag, es) && TimeRun(Later(m, hs[0]), hs[1..], n, lag, es)
  }

  const BEGINNING := Moment(TIMED_START, 0, [], [])

  /** The times agree with the passes: what x's poll k found sent was sent before the time for that poll was over. */
  ghost predicate DatedSide(m: Moment, x: Side, e: Timing) {
    var times := m.SentAt(Opp(x));
    && |times| == |m.v.Coming(x)|
    && (forall i :: 0 <= i < |times| ==> times[i] <= m.now)
    && (forall k, i :: 0 <= k < |m.v.Marks(x)| && 0 <= i < m.v.Marks(x)[k] && i < |times| ==> times[i] <= PollBy(e, k))
  }

  ghost predicate Dated(m: Moment, es: Timings) {
    DatedSide(m, A, es.a) && DatedSide(m, B, es.b)
  }

  // ---------------------------------------------------------------- clocks

  lemma {:induction false} ClockBetween(e: Timing, m: nat, n: nat)
    requires m <= n
    ensures Begins(e, n) >= Begins(e, m) + PUNCH_INTERVAL * (n - m)
  {
    if m == n {
    } else {
      ClockBetween(e, m, n - 1);
    }
  }

  /** A poll made n passes later comes at least n half seconds later. */
  lemma PollsApart(e: Timing, k: nat, n: nat)
    requires k < n
    ensures Begins(e, n) >= PollBy(e, k) + PUNCH_INTERVAL * (n - k)
  {
    ClockBetween(e, k + 1, n);
  }

  lemma PollEarly(e: Timing, n: nat, each: nat)
    requires forall i :: PUNCH_INTERVAL + e.inputs(i).slack <= each
    ensures PollBy(e, n) + PUNCH_INTERVAL <= e.first + Span(n + 1, each)
  {
    SlowestClock(e, n + 1, each);
  }

  // ---------------------------------------------------------------- delay in passes

  lemma MarkArrived(times: seq<nat>, mark: nat, arrived: nat, time: nat, lag: nat)
    requires mark <= |times|
    requires forall i :: 0 <= i < mark ==> times[i] + lag <= time
    requires forall i :: 0 <= i < |times| && times[i] + lag <= time ==> i < arrived
    ensures mark <= arrived
  {
    if mark > 0 {
      assert times[mark - 1] + lag <= time;
    }
  }

  lemma TimesDelay(lag: nat, delay: nat, k: nat, n: nat)
    requires lag <= PUNCH_INTERVAL * delay && k + delay == n
    ensures PUNCH_INTERVAL * (n - k) >= lag
  {
  }

  lemma OldMark(m: Moment, h: Happening, x: Side, k: nat, lag: nat, es: Timings, delay: nat)
    requires TimeStep(m, h, lag, es) && h.act == Recv(x) && DatedSide(m, x, es.Of(x))
    requires 0 < delay && lag <= PUNCH_INTERVAL * delay && |m.v.Marks(x)| == m.v.Passes(x) == k + delay
    requires m.v.Marks(x)[k] <= |m.v.Coming(x)|
    ensures m.v.Marks(x)[k] <= m.v.s.At(x).arrived
  {
    var times := m.SentAt(Opp(x));
    PollsApart(es.Of(x), k, k + delay);
    TimesDelay(lag, delay, k, k + delay);
    forall i | 0 <= i < m.v.Marks(x)[k] ensures times[i] + lag <= h.time {
      assert times[i] <= PollBy(es.Of(x), k);
    }
    MarkArrived(times, m.v.Marks(x)[k], m.v.s.At(x).arrived, h.time, lag);
  }

  lemma NoDelay(m: Moment, h: Happening, x: Side, lag: nat, es: Timings)
    requires TimeStep(m, h, lag, es) && h.act == Recv(x) && DatedSide(m, x, es.Of(x)) && lag == 0
    ensures |m.v.Coming(x)| <= m.v.s.At(x).arrived
  {
    MarkArrived(m.SentAt(Opp(x)), |m.v.Coming(x)|, m.v.s.At(x).arrived, h.time, lag);
  }

  lemma PollTimely(m: Moment, h: Happening, x: Side, lag: nat, es: Timings, delay: nat)
    requires TimeStep(m, h, lag, es) && h.act == Recv(x) && DatedSide(m, x, es.Of(x))
    requires |m.v.Marks(x)| == m.v.Passes(x) && lag <= PUNCH_INTERVAL * delay
    requires forall k :: 0 <= k < |m.v.Marks(x)| ==> m.v.Marks(x)[k] <= |m.v.Coming(x)|
    ensures Timely(m.v, Recv(x), delay)
  {
    if delay == 0 {
      NoDelay(m, h, x, lag, es);
    } else if delay <= m.v.Passes(x) {
      OldMark(m, h, x, m.v.Passes(x) - delay, lag, es, delay);
    }
  }

  lemma MarksWithin(v: Timed, x: Side, d: nat, delay: nat)
    requires Steady(v, d, delay)
    ensures |v.Marks(x)| == v.Passes(x)
    ensures forall k :: 0 <= k < |v.Marks(x)| ==> v.Marks(x)[k] <= |v.Coming(x)|
  {
    assert SteadySide(v, x, d, delay);
  }

  lemma LagMeansDelay(m: Moment, h: Happening, lag: nat, es: Timings, d: nat, delay: nat)
    requires TimeStep(m, h, lag, es) && Dated(m, es) && Steady(m.v, d, delay)
    requires lag <= PUNCH_INTERVAL * delay
    ensures Timely(m.v, h.act, delay)
  {
    if h.act.Recv? {
      MarksWithin(m.v, h.act.who, d, delay);
      PollTimely(m, h, h.act.who, lag, es, delay);
    }
  }

  // ---------------------------------------------------------------- skew in passes

  ghost predicate Together(es: Timings, spread: nat) {
    es.a.first <= es.b.first + spread && es.b.first <= es.a.first + spread
  }

  /** What n passes take beyond half a second each. */
  lemma {:induction false} Overrun(n: nat, each: nat)
    requires each >= PUNCH_INTERVAL
    ensures Span(n, each) == PUNCH_INTERVAL * n + Span(n, each - PUNCH_INTERVAL)
  {
    if n == 0 {
    } else {
      Overrun(n - 1, each);
    }
  }

  lemma Drift(p: nat, q: nat, most: nat, d: nat, spread: nat, each: nat)
    requires q <= most && each >= PUNCH_INTERVAL
    requires spread + Span(most + 1, each - PUNCH_INTERVAL) < d * PUNCH_INTERVAL
    requires PUNCH_INTERVAL * p + PUNCH_INTERVAL <= spread + Span(q + 1, each)
    ensures p + 1 <= q + d
  {
    Overrun(q + 1, each);
    FewerTakeLess(q + 1, most + 1, each - PUNCH_INTERVAL);
  }

  /** A poll of x while y is punching: x is not further ahead than the drift allows. */
  lemma NotAhead(e: Timing, f: Timing, p: nat, q: nat, time: nat, most: nat, d: nat, spread: nat, each: nat)
    requires Begins(e, p) <= time <= PollBy(f, q) && f.first <= e.first + spread
    requires forall i :: PUNCH_INTERVAL + f.inputs(i).slack <= each
    requires q <= most && spread + Span(most + 1, each - PUNCH_INTERVAL) < d * PUNCH_INTERVAL
    ensures p + 1 <= q + d
  {
    ClockBetween(e, 0, p);
    PollEarly(f, q, each);
    assert PUNCH_INTERVAL + f.inputs(0).slack <= each;
    Drift(p, q, most, d, spread, each);
  }

  /** What makes d and delay bounds on skew and delay, and leaves the passes they ask for room. */
  ghost predicate OnSchedule(es: Timings, d: nat, delay: nat, each: nat, spread: nat, lag: nat) {
    && BothSwift(es, d, delay, each) && each >= PUNCH_INTERVAL
    && Together(es, spread)
    && lag <= PUNCH_INTERVAL * delay
    && spread + Span(MostPasses(d, delay) + 1, each - PUNCH_INTERVAL) < d * PUNCH_INTERVAL
  }

  lemma PollWithin(m: Moment, h: Happening, x: Side, lag: nat, es: Timings, most: nat, d: nat, each: nat, spread: nat)
    requires TimeStep(m, h, lag, es) && h.act == Recv(x) && Together(es, spread)
    requires m.v.s.At(Opp(x)).peer.Punching() && m.v.Passes(Opp(x)) <= most
    requires Swift(es.a, most, each) && Swift(es.b, most, each)
    requires spread + Span(most + 1, each - PUNCH_INTERVAL) < d * PUNCH_INTERVAL
    ensures m.v.Passes(x) + 1 <= m.v.Passes(Opp(x)) + d
  {
    NotAhead(es.Of(x), es.Of(Opp(x)), m.v.Passes(x), m.v.Passes(Opp(x)), h.time, most, d, spread, each);
  }

  lemma PollKeepsSkew(v: Timed, x: Side, d: nat)
    requires Enabled(Fifo, v.s, Recv(x)) && WithinSkew(v.s, d)
    requires v.s.At(Opp(x)).peer.Punching() ==> v.Passes(x) + 1 <= v.Passes(Opp(x)) + d
    ensures WithinSkew(Next(v, Recv(x)).s, d)
  {
  }

  lemma OthersKeepSkew(v: Timed, act: Action, d: nat)
    requires Enabled(Fifo, v.s, act) && !act.Recv? && WithinSkew(v.s, d)
    ensures WithinSkew(Next(v, act).s, d)
  {
  }

  lemma TimeMeansSkew(m: Moment, h: Happening, lag: nat, es: Timings, d: nat, delay: nat, each: nat, spread: nat)
    requires TimeStep(m, h, lag, es) && OnSchedule(es, d, delay, each, spread, lag)
    requires Steady(m.v, d, delay) && WithinSkew(m.v.s, d)
    ensures WithinSkew(Next(m.v, h.act).s, d)
  {
    var x := h.act.who;
    if h.act.Recv? {
      if m.v.s.At(Opp(x)).peer.Punching() {
        FewPasses(m.v, Opp(x), d, delay);
        PollWithin(m, h, x, lag, es, MostPasses(d, delay), d, each, spread);
      }
      PollKeepsSkew(m.v, x, d);
    } else {
      OthersKeepSkew(m.v, h.act, d);
    }
  }

  // ---------------------------------------------------------------- whole runs

  lemma SentCounts(v: Timed, act: Action, x: Side)
    requires Enabled(Fifo, v.s, act)
    ensures v.s.Sent(x) <= Next(v, act).s.Sent(x)
    ensures Next(v, act).Marks(x) == if act == Recv(x) then v.MarksNow(x) else v.Marks(x)
  {
    match act
    case Recv(_) =>
    case _ =>
  }

  /** What the step adds to the dates carries its own time, and a new mark points behind nothing later. */
  lemma NewDates(m: Moment, h: Happening, x: Side)
    requires Enabled(Fifo, m.v.s, h.act) && |m.SentAt(x)| == |m.v.s.Sent(x)|
    ensures var n := Later(m, h);
      && m.SentAt(x) <= n.SentAt(x) && |n.SentAt(x)| == |n.v.s.Sent(x)|
      && forall i :: |m.SentAt(x)| <= i < |n.SentAt(x)| ==> n.SentAt(x)[i] == h.time
  {
    SentCounts(m.v, h.act, x);
  }

  lemma StepKeepsDates(m: Moment, h: Happening, x: Side, lag: nat, es: Timings)
    requires TimeStep(m, h, lag, es) && DatedSide(m, x, es.Of(x)) && |m.v.Marks(x)| == m.v.Passes(x)
    requires forall k :: 0 <= k < |m.v.Marks(x)| ==> m.v.Marks(x)[k] <= |m.v.Coming(x)|
    ensures DatedSide(Later(m, h), x, es.Of(x))
  {
    var n := Later(m, h);
    NewDates(m, h, Opp(x));
    SentCounts(m.v, h.act, x);
    MarksStayDated(m.v.Marks(x), n.v.Marks(x), m.SentAt(Opp(x)), n.SentAt(Opp(x)), h.time, es.Of(x));
  }

  lemma MarksStayDated(marks: seq<nat>, more: seq<nat>, times: seq<nat>, later: seq<nat>, time: nat, e: Timing)
    requires times <= later && (more == marks || (more == marks + [|times|] && time <= PollBy(e, |marks|)))
    requires forall i :: 0 <= i < |times| ==> times[i] <= time
    requires forall k :: 0 <= k < |marks| ==> marks[k] <= |times|
    requires forall k, i :: 0 <= k < |marks| && 0 <= i < marks[k] && i < |times| ==> times[i] <= PollBy(e, k)
    ensures forall k, i :: 0 <= k < |more| && 0 <= i < more[k] && i < |later| ==> later[i] <= PollBy(e, k)
  {
    forall k, i | 0 <= k < |more| && 0 <= i < more[k] && i < |later| ensures later[i] <= PollBy(e, k) {
      assert later[i] == times[i];
    }
  }

  lemma StepKeepsAllDates(m: Moment, h: Happening, lag: nat, es: Timings, d: nat, delay: nat)
    requires TimeStep(m, h, lag, es) && Dated(m, es) && Steady(m.v, d, delay)
    ensures Dated(Later(m, h), es)
  {
    assert SteadySide(m.v, A, d, delay) && SteadySide(m.v, B, d, delay);
    StepKeepsDates(m, h, A, lag, es);
    StepKeepsDates(m, h, B, lag, es);
  }

  lemma TimeStepIsClocked(m: Moment, h: Happening, lag: nat, es: Timings, d: nat, delay: nat, each: nat, spread: nat)
    requires TimeStep(m, h, lag, es) && OnSchedule(es, d, delay, each, spread, lag)
    requires Steady(m.v, d, delay) && WithinSkew(m.v.s, d) && Dated(m, es)
    ensures ClockedStep(m.v, h.act, d, delay, es)
    ensures Steady(Later(m, h).v, d, delay) && WithinSkew(Later(m, h).v.s, d) && Dated(Later(m, h), es)
  {
    LagMeansDelay(m, h, lag, es, d, delay);
    TimeMeansSkew(m, h, lag, es, d, delay, each, spread);
    ClockedStepIsSteady(m.v, h.act, d, delay, es, each);
    StepKeepsSteady(m.v, h.act, d, delay);
    StepKeepsAllDates(m, h, lag, es, d, delay);
  }

  /** Skew and delay need not be assumed: on the time line they follow from the clocks. */
  lemma {:induction false} TimeRunIsClocked(m: Moment, hs: seq<Happening>, n: Moment, lag: nat, es: Timings,
                                            d: nat, delay: nat, each: nat, spread: nat)
    requires TimeRun(m, hs, n, lag, es) && OnSchedule(es, d, delay, each, spread, lag)
    requires Steady(m.v, d, delay) && WithinSkew(m.v.s, d) && Dated(m, es)
    ensures ClockedRun(m.v, Actions(hs), n.v, d, delay, es)
    decreases hs
  {
    if hs == [] {
    } else {
      TimeStepIsClocked(m, hs[0], lag, es, d, delay, each, spread);
      TimeRunIsClocked(Later(m, hs[0]), hs[1..], n, lag, es, d, delay, each, spread);
      assert Actions(hs)[1..] == Actions(hs[1..]);
    }
  }

  /** The peer has succeeded, and its call, given what the peer polled, ends with 0 and in no other way. */
  ghost predicate ReturnedZero(v: Timed, acts: seq<Action>, es: Timings, x: Side) {
    var e := es.Of(x);
    && v.s.At(x).peer.stage.Succeeded?
    && (Yields(e.inputs, 0, Heard(TIMED_START, acts, x)) ==>
      forall rc, peer :: Ends(e.start, e.first, e.inputs, rc, peer) ==> rc == 0)
  }

  lemma PollBeforeThen(e: Timing, n: nat, most: nat, each: nat)
    requires Swift(e, most, each) && n <= most
    ensures PollBy(e, n) < e.first + Span(most + 1, each)
  {
    PollEarly(e, n, each);
    FewerTakeLess(n + 1, most + 1, each);
  }

  /** By the time the last of the passes is due the peer has returned. */
  lemma DueByThen(v: Timed, x: Side, until: nat, es: Timings, d: nat, delay: nat, each: nat)
    requires Steady(v, d, delay) && BothSwift(es, d, delay, each) && NotLate(v, until, es)
    requires until >= es.Of(x).first + Span(MostPasses(d, delay) + 1, each)
    ensures v.s.At(x).peer.stage.Succeeded?
  {
    FewPasses(v, x, d, delay);
    if v.s.At(x).peer.Punching() {
      PollBeforeThen(es.Of(x), v.Passes(x), MostPasses(d, delay), each);
    }
  }

  /** On schedule both calls return 0 by the time their 2(d + delay) + 2 passes take. */
  lemma ReturnsInTime(hs: seq<Happening>, m: Moment, until: nat, lag: nat, es: Timings,
                      d: nat, delay: nat, each: nat, spread: nat, x: Side)
    requires TimeRun(BEGINNING, hs, m, lag, es) && OnSchedule(es, d, delay, each, spread, lag)
    requires NotLate(m.v, until, es) && until >= es.Of(x).first + Span(MostPasses(d, delay) + 1, each)
    ensures ReturnedZero(m.v, Actions(hs), es, x)
  {
    StartsSteady(d, delay);
    TimeRunIsClocked(BEGINNING, hs, m, lag, es, d, delay, each, spread);
    ClockedIsSteady(TIMED_START, Actions(hs), m.v, d, delay, es, each);
    SteadyRunKeeps(TIMED_START, Actions(hs), m.v, d, delay);
    DueByThen(m.v, x, until, es, d, delay, each);
    NeitherTimesOut(Actions(hs), m.v, d, delay, es, each, x);
  }

  // ---------------------------------------------------------------- skew and delay from the times

  /** Passes that fit into a datagram's way, rounded up. */
  function DelayFor(lag: nat): nat {
    (lag + 499_999) / 500_000
  }

  function Quotient(x: nat, y: nat): nat
    requires y > 0
  {
    x / y
  }

  /** Least skew that covers the starts and what passes overrun half a second by. */
  function SkewFor(lag: nat, each: nat, spread: nat): nat
    requires 500_000 <= each < 750_000
  {
    var over := each - 500_000;
    Quotient(spread + Span(2 * DelayFor(lag) + 2, over), 500_000 - 2 * over) + 1
  }

  lemma NextMultiple(x: nat, y: nat)
    requires y > 0
    ensures x < (Quotient(x, y) + 1) * y
  {
  }

  lemma Distribute(d: nat, over: nat, k: nat)
    requires 2 * over <= 500_000
    ensures d * (500_000 - 2 * over) + (2 * d + k) * over == d * 500_000 + k * over
  {
  }

  lemma SkewSuffices(lag: nat, each: nat, spread: nat)
    requires 500_000 <= each < 750_000
    ensures var d, delay := SkewFor(lag, each, spread), DelayFor(lag);
      && lag <= PUNCH_INTERVAL * delay
      && spread + Span(MostPasses(d, delay) + 1, each - PUNCH_INTERVAL) < d * PUNCH_INTERVAL
  {
    var d, over, k := SkewFor(lag, each, spread), each - 500_000, 2 * DelayFor(lag) + 2;
    NextMultiple(spread + Span(k, over), 500_000 - 2 * over);
    Distribute(d, over, k);
    SpanIsProduct(k, over);
    SpanIsProduct(2 * d + k, over);
  }

  /** The number of passes that is then enough. */
  function Needed(lag: nat, each: nat, spread: nat): nat
    requires 500_000 <= each < 750_000
  {
    2 * (SkewFor(lag, each, spread) + DelayFor(lag)) + 2
  }

  /**
   Two calls that start within `spread` microseconds, make passes of half a second to `each`, less
   than three quarters of a second, and whose datagrams arrive in order within `lag`: both return 0 by
   the end of the passes needed, provided all but the last of these end within 59 seconds of each start.
   */
  lemma BothCallsReturnZero(hs: seq<Happening>, m: Moment, until: nat, lag: nat, es: Timings, each: nat, spread: nat)
    requires 500_000 <= each < 750_000 && TimeRun(BEGINNING, hs, m, lag, es) && NotLate(m.v, until, es)
    requires Together(es, spread)
    requires Swift(es.a, Needed(lag, each, spread) - 1, each) && Swift(es.b, Needed(lag, each, spread) - 1, each)
    requires until >= es.a.first + Span(Needed(lag, each, spread), each)
    requires until >= es.b.first + Span(Needed(lag, each, spread), each)
    ensures ReturnedZero(m.v, Actions(hs), es, A) && ReturnedZero(m.v, Actions(hs), es, B)
  {
    var d, delay := SkewFor(lag, each, spread), DelayFor(lag);
    SkewSuffices(lag, each, spread);
    ReturnsInTime(hs, m, until, lag, es, d, delay, each, spread, A);
    ReturnsInTime(hs, m, until, lag, es, d, delay, each, spread, B);
  }

  /**
   For instance ten seconds between the starts, passes of up to 510 ms and a second under way need
   at most 48 passes.
   */
  lemma TenSecondsApart()
    ensures Needed(1_000_000, 510_000, 10_000_000) == 48
    ensures Span(48, 510_000) < 25_000_000
  {
    SpanIsProduct(6, 10_000);
    SpanIsProduct(48, 510_000);
  }

  // ---------------------------------------------------------------- time can always go on

  lemma LaterPoll(e: Timing, n: nat)
    ensures PollBy(e, n + 1) >= PollBy(e, n)
  {
  }

  lemma SideStaysPunctual(v: Timed, act: Action, x: Side, time: nat, e: Timing)
    requires Enabled(Fifo, v.s, act) && (v.s.At(x).peer.Punching() ==> time <= PollBy(e, v.Passes(x)))
    ensures var w := Next(v, act); w.s.At(x).peer.Punching() ==> time <= PollBy(e, w.Passes(x))
  {
    LaterPoll(e, v.Passes(x));
    match act
    case Recv(_) =>
    case _ =>
  }

  /** After each step both peers still have time for their polls. */
  lemma StepStaysPunctual(m: Moment, h: Happening, lag: nat, es: Timings)
    requires TimeStep(m, h, lag, es)
    ensures NotLate(Later(m, h).v, Later(m, h).now, es)
  {
    SideStaysPunctual(m.v, h.act, A, h.time, es.a);
    SideStaysPunctual(m.v, h.act, B, h.time, es.b);
  }

  /** A moment of a run on schedule. */
  ghost predicate Ongoing(m: Moment, es: Timings, d: nat, delay: nat) {
    Steady(m.v, d, delay) && WithinSkew(m.v.s, d) && Dated(m, es) && NotLate(m.v, m.now, es)
  }

  lemma StaysOngoing(m: Moment, h: Happening, lag: nat, es: Timings, d: nat, delay: nat, each: nat, spread: nat)
    requires TimeStep(m, h, lag, es) && OnSchedule(es, d, delay, each, spread, lag) && Ongoing(m, es, d, delay)
    ensures Ongoing(Later(m, h), es, d, delay)
  {
    TimeStepIsClocked(m, h, lag, es, d, delay, each, spread);
    StepStaysPunctual(m, h, lag, es);
  }

  lemma {:induction false} RunStaysOngoing(m: Moment, hs: seq<Happening>, n: Moment, lag: nat, es: Timings,
                                           d: nat, delay: nat, each: nat, spread: nat)
    requires TimeRun(m, hs, n, lag, es) && OnSchedule(es, d, delay, each, spread, lag) && Ongoing(m, es, d, delay)
    ensures Ongoing(n, es, d, delay)
    decreases hs
  {
    if hs == [] {
    } else {
      StaysOngoing(m, hs[0], lag, es, d, delay, each, spread);
      RunStaysOngoing(Later(m, hs[0]), hs[1..], n, lag, es, d, delay, each, spread);
    }
  }

  lemma BeginsOngoing(es: Timings, d: nat, delay: nat)
    ensures Ongoing(BEGINNING, es, d, delay)
  {
    StartsSteady(d, delay);
  }

  /** The punching peer that must poll first. */
  ghost function Pressed(v: Timed, es: Timings): (x: Side)
    requires v.s.a.peer.Punching() || v.s.b.peer.Punching()
    ensures v.s.At(x).peer.Punching()
    ensures v.s.At(Opp(x)).peer.Punching() ==>
      PollBy(es.Of(x), v.Passes(x)) <= PollBy(es.Of(Opp(x)), v.Passes(Opp(x)))
  {
    if v.s.a.peer.Punching()
      && (v.s.b.peer.Punching() ==> PollBy(es.a, v.Passes(A)) <= PollBy(es.b, v.Passes(B))) then A else B
  }

  /** Its next move, as soon as it can be. */
  ghost function Soonest(m: Moment, x: Side, es: Timings): Happening {
    var begins := Begins(es.Of(x), m.v.Passes(x));
    At(NextMove(m.v.s, x), if m.now < begins then begins else m.now)
  }

  lemma SoonEnough(m: Moment, es: Timings, x: Side)
    requires NotLate(m.v, m.now, es) && (m.v.s.a.peer.Punching() || m.v.s.b.peer.Punching()) && x == Pressed(m.v, es)
    ensures NotLate(m.v, Soonest(m, x, es).time, es)
  {
  }

  lemma NextMoveEnabled(v: Timed, x: Side, d: nat, delay: nat)
    requires SteadySide(v, x, d, delay) && v.s.At(x).peer.Punching()
    ensures Enabled(Fifo, v.s, NextMove(v.s, x))
    ensures NextMove(v.s, x).Recv? ==> v.s.At(x).arrived == |v.Coming(x)|
  {
  }

  lemma MoveObeys(v: Timed, x: Side, es: Timings, d: nat, delay: nat, each: nat)
    requires Steady(v, d, delay) && BothSwift(es, d, delay, each) && v.s.At(x).peer.Punching()
    ensures Obeys(v, NextMove(v.s, x), es.Of(x))
  {
    FewPasses(v, x, d, delay);
    StaysOnTime(es.Of(x), v.Passes(x), MostPasses(d, delay), each);
  }

  /** While a peer is punching, something can happen. */
  lemma SomethingHappens(m: Moment, lag: nat, es: Timings, d: nat, delay: nat, each: nat, spread: nat)
    returns (h: Happening)
    requires OnSchedule(es, d, delay, each, spread, lag) && Ongoing(m, es, d, delay)
    requires m.v.s.a.peer.Punching() || m.v.s.b.peer.Punching()
    ensures TimeStep(m, h, lag, es) && h.act == NextMove(m.v.s, h.act.who)
  {
    var x := Pressed(m.v, es);
    h := Soonest(m, x, es);
    SoonEnough(m, es, x);
    assert SteadySide(m.v, x, d, delay) && DatedSide(m, x, es.Of(x));
    NextMoveEnabled(m.v, x, d, delay);
    MoveObeys(m.v, x, es, d, delay, each);
  }

  lemma {:induction false} TimeFinishes(m: Moment, lag: nat, es: Timings, d: nat, delay: nat, each: nat, spread: nat,
                                        left: int, due: nat, underWay: int)
    returns (hs: seq<Happening>, n: Moment)
    requires OnSchedule(es, d, delay, each, spread, lag) && Ongoing(m, es, d, delay)
    requires left == PassesLeft(m.v.s, MostPasses(d, delay)) && due == SendsDue(m.v.s) && underWay == UnderWay(m.v.s)
    ensures TimeRun(m, hs, n, lag, es) && BothSucceeded(n.v.s)
    decreases left, due, underWay
  {
    RoomLeft(m.v, d, delay);
    if !m.v.s.a.peer.Punching() && !m.v.s.b.peer.Punching() {
      FewPasses(m.v, A, d, delay);
      FewPasses(m.v, B, d, delay);
      hs, n := [], m;
    } else {
      var h := SomethingHappens(m, lag, es, d, delay, each, spread);
      StaysOngoing(m, h, lag, es, d, delay, each, spread);
      NextMoveShrinks(m.v, h.act.who, MostPasses(d, delay));
      var u := Later(m, h);
      hs, n := TimeFinishes(u, lag, es, d, delay, each, spread,
                            PassesLeft(u.v.s, MostPasses(d, delay)), SendsDue(u.v.s), UnderWay(u.v.s));
      hs := PutFirst(m, h, hs, n, lag, es);
    }
  }

  lemma PutFirst(m: Moment, h: Happening, hs: seq<Happening>, n: Moment, lag: nat, es: Timings)
    returns (all: seq<Happening>)
    requires TimeStep(m, h, lag, es) && TimeRun(Later(m, h), hs, n, lag, es)
    ensures TimeRun(m, all, n, lag, es)
  {
    all := [h] + hs;
    assert all[1..] == hs;
  }

  /** Every run on such a schedule, however far it has gone, goes on to one in which both have succeeded. */
  lemma BothCallsGoOn(hs: seq<Happening>, m: Moment, lag: nat, es: Timings, each: nat, spread: nat)
    returns (more: seq<Happening>, n: Moment)
    requires 500_000 <= each < 750_000 && TimeRun(BEGINNING, hs, m, lag, es) && Together(es, spread)
    requires Swift(es.a, Needed(lag, each, spread) - 1, each) && Swift(es.b, Needed(lag, each, spread) - 1, each)
    ensures TimeRun(m, more, n, lag, es) && BothSucceeded(n.v.s)
  {
    var d, delay := SkewFor(lag, each, spread), DelayFor(lag);
    SkewSuffices(lag, each, spread);
    BeginsOngoing(es, d, delay);
    RunStaysOngoing(BEGINNING, hs, m, lag, es, d, delay, each, spread);
    more, n := TimeFinishes(m, lag, es, d, delay, each, spread,
                            PassesLeft(m.v.s, MostPasses(d, delay)), SendsDue(m.v.s), UnderWay(m.v.s));
  }
}
