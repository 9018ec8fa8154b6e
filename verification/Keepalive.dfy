/**
 The keepalive timer of the chat loop in test2 and test3. One pass wakes up, reads the clock in
 whole seconds, takes what was typed and what arrived, and sends KEEPALIVE after five idle seconds.
 */
module Keepalive {
  const KEEPALIVE_INTERVAL := 5

  /** A line sent (or an iperf client run, which keeps the reading made before it), or input that ends the loop. */
  datatype Typed = Silence | Line | Leave

  /** The socket was not ready, the read failed, or it gave KEEPALIVE or anything else. */
  datatype Arrived = Nothing | Failure | KeepaliveText | OtherText

  datatype Pass = Pass(now: int, typed: Typed, arrived: Arrived)

  /** last_activity, and when keepalives were sent. */
  datatype Timer = Timer(last: int, sent: seq<int>)

  /** A pass that comes to the keepalive check; a failed read skips it. */
  predicate Checks(p: Pass) {
    !p.typed.Leave? && !p.arrived.Failure?
  }

  /** Something other than a keepalive was typed or received. */
  predicate Active(p: Pass) {
    p.typed.Line? || p.arrived.OtherText?
  }

  function Touched(t: Timer, p: Pass): Timer {
    if Active(p) then t.(last := p.now) else t
  }

  function Tick(t: Timer, p: Pass): Timer
    requires !p.typed.Leave?
  {
    var u := Touched(t, p);
    if Checks(p) && p.now - u.last >= KEEPALIVE_INTERVAL then Timer(p.now, u.sent + [p.now]) else u
  }

  ghost predicate Stays(ps: seq<Pass>) {
    forall i :: 0 <= i < |ps| ==> !ps[i].typed.Leave?
  }

  function After(start: int, ps: seq<Pass>): Timer
    requires Stays(ps)
  {
    if ps == [] then Timer(start, []) else Tick(After(start, ps[..|ps| - 1]), ps[|ps| - 1])
  }

  class ChatLoop {
    var lastActivity: int
    var sent: seq<int>

    ghost function View(): Timer
      reads this
    {
      Timer(lastActivity, sent)
    }

    constructor (now: int)
      ensures View() == Timer(now, [])
    {
      lastActivity, sent := now, [];
    }

    method Once(p: Pass) returns (goOn: bool)
      modifies this
      ensures goOn == !p.typed.Leave?
      ensures View() == if goOn then Tick(old(View()), p) else old(View())
    {
      match p.typed {
        case Leave => return false;
        case Line => lastActivity := p.now;
        case Silence =>
      }
      match p.arrived {
        case Failure => return true;
        case OtherText => lastActivity := p.now;
        case _ =>
      }
      if p.now - lastActivity >= KEEPALIVE_INTERVAL {
        sent := sent + [p.now];
        lastActivity := p.now;
      }
      return true;
    }

    /** The loop over these passes, up to the one that leaves it if there is one. */
    method Run(ps: seq<Pass>) returns (n: nat)
      requires sent == []
      modifies this
      ensures n <= |ps| && Stays(ps[..n]) && (n < |ps| ==> ps[n].typed.Leave?)
      ensures View() == After(old(lastActivity), ps[..n])
    {
      n := 0;
      while n < |ps|
        invariant n <= |ps| && Stays(ps[..n])
        invariant View() == After(old(lastActivity), ps[..n])
      {
        var goOn := Once(ps[n]);
        if !goOn {
          return;
        }
        assert ps[..n + 1][..n] == ps[..n];
        n := n + 1;
      }
    }
  }

  // ---------------------------------------------------------------- timing

  /** The clock does not run backwards. */
  ghost predicate Ordered(start: int, ps: seq<Pass>) {
    ps == [] || (Ordered(start, ps[..|ps| - 1]) && ps[|ps| - 1].now >= LastReading(start, ps[..|ps| - 1]))
  }

  function LastReading(start: int, ps: seq<Pass>): int {
    if ps == [] then start else ps[|ps| - 1].now
  }

  /** After every pass that reaches the check less than five seconds have passed since the last activity. */
  lemma {:induction false} IdleBelowFive(start: int, ps: seq<Pass>)
    requires Stays(ps) && Ordered(start, ps)
    ensures LastReading(start, ps) >= After(start, ps).last >= start
    ensures ps != [] && !ps[|ps| - 1].arrived.Failure? ==> LastReading(start, ps) - After(start, ps).last < 5
  {
    if ps == [] {
    } else {
      IdleBelowFive(start, ps[..|ps| - 1]);
    }
  }

  /** When the last keepalive was sent, or the start if none was. */
  function Newest(start: int, sent: seq<int>): int {
    if sent == [] then start else sent[|sent| - 1]
  }

  /** Each keepalive comes at least `least` seconds after the one before, the first after the start. */
  ghost predicate Spaced(start: int, sent: seq<int>, least: int) {
    sent == [] ||
    (var n := |sent| - 1; Spaced(start, sent[..n], least) && sent[n] >= Newest(start, sent[..n]) + least)
  }

  /** And at most `most` seconds. */
  ghost predicate Dense(start: int, sent: seq<int>, most: int) {
    sent == [] ||
    (var n := |sent| - 1; Dense(start, sent[..n], most) && sent[n] <= Newest(start, sent[..n]) + most)
  }

  lemma SentGrows(sent: seq<int>, now: int)
    ensures (sent + [now])[..|sent|] == sent
  {
  }

  /** Keepalives are at least five seconds apart, the first at least five after the start. */
  lemma {:induction false} KeepalivesSpaced(start: int, ps: seq<Pass>)
    requires Stays(ps) && Ordered(start, ps)
    ensures var t := After(start, ps); Spaced(start, t.sent, 5) && t.last >= Newest(start, t.sent)
  {
    if ps == [] {
    } else {
      KeepalivesSpaced(start, ps[..|ps| - 1]);
      IdleBelowFive(start, ps[..|ps| - 1]);
      SentGrows(After(start, ps[..|ps| - 1]).sent, ps[|ps| - 1].now);
    }
  }

  function Mute(p: Pass): Pass {
    if p.arrived.KeepaliveText? then p.(arrived := Nothing) else p
  }

  function Muted(ps: seq<Pass>): seq<Pass> {
    if ps == [] then [] else Muted(ps[..|ps| - 1]) + [Mute(ps[|ps| - 1])]
  }

  /** Received keepalives neither postpone nor bring forward anything: without them the timer does the same. */
  lemma {:induction false} KeepalivesIgnored(start: int, ps: seq<Pass>)
    requires Stays(ps)
    ensures Stays(Muted(ps)) && After(start, Muted(ps)) == After(start, ps)
  {
    if ps == [] {
    } else {
      var earlier := ps[..|ps| - 1];
      KeepalivesIgnored(start, earlier);
      assert Muted(ps)[..|Muted(ps)| - 1] == Muted(earlier);
    }
  }

  /** No activity and no failed read, and the clock moves at most g seconds from pass to pass. */
  ghost predicate Quiet(start: int, ps: seq<Pass>, g: nat) {
    ps == [] ||
    (var p, earlier := ps[|ps| - 1], ps[..|ps| - 1];
     Quiet(start, earlier, g) && Checks(p) && !Active(p) && p.now <= LastReading(start, earlier) + g)
  }

  /** On a quiet line keepalives are at most 4 + g seconds apart, and the latest is at most four seconds old. */
  lemma {:induction false} KeepalivesRegular(start: int, ps: seq<Pass>, g: nat)
    requires Stays(ps) && Ordered(start, ps) && Quiet(start, ps, g)
    ensures var t := After(start, ps);
      && Dense(start, t.sent, 4 + g)
      && t.last == Newest(start, t.sent)
      && LastReading(start, ps) - t.last <= 4
  {
    if ps == [] {
    } else {
      KeepalivesRegular(start, ps[..|ps| - 1], g);
      SentGrows(After(start, ps[..|ps| - 1]).sent, ps[|ps| - 1].now);
    }
  }

  // ---------------------------------------------------------------- exactly when a keepalive is sent

  /** Nothing but keepalives has been sent or received for five seconds at this reading, nor has one been sent. */
  ghost predicate Idle(start: int, ps: seq<Pass>, sent: seq<int>, now: int) {
    && now - start >= 5
    && (forall j :: 0 <= j < |ps| && (ps[j].typed.Line? || ps[j].arrived.OtherText?) ==> now - ps[j].now >= 5)
    && (forall k :: 0 <= k < |sent| ==> now - sent[k] >= 5)
  }

  /** The latest of the start, the passes with a line or other text, and the keepalives. */
  ghost predicate Latest(start: int, ps: seq<Pass>, t: Timer) {
    && t.last >= start
    && (forall j :: 0 <= j < |ps| && (ps[j].typed.Line? || ps[j].arrived.OtherText?) ==> t.last >= ps[j].now)
    && (forall k :: 0 <= k < |t.sent| ==> t.last >= t.sent[k])
    && (|| t.last == start
        || (exists j :: 0 <= j < |ps| && (ps[j].typed.Line? || ps[j].arrived.OtherText?) && t.last == ps[j].now)
        || (exists k :: 0 <= k < |t.sent| && t.last == t.sent[k]))
  }

  lemma LatestMeansIdle(start: int, ps: seq<Pass>, t: Timer, now: int)
    requires Latest(start, ps, t)
    ensures Idle(start, ps, t.sent, now) <==> now - t.last >= 5
  {
  }

  /** What one pass makes of the timer, told from what was typed and received. */
  lemma TickExactly(t: Timer, p: Pass)
    requires !p.typed.Leave?
    ensures var active := p.typed.Line? || p.arrived.OtherText?; var u := Tick(t, p);
      if !active && !p.arrived.Failure? && p.now - t.last >= 5 then u == Timer(p.now, t.sent + [p.now])
      else u == Timer(if active then p.now else t.last, t.sent)
  {
  }

  lemma LatestStays(start: int, ps: seq<Pass>, p: Pass, t: Timer)
    requires Latest(start, ps, t) && !p.typed.Line? && !p.arrived.OtherText?
    ensures Latest(start, ps + [p], t)
  {
    if exists j :: 0 <= j < |ps| && (ps[j].typed.Line? || ps[j].arrived.OtherText?) && t.last == ps[j].now {
      var j :| 0 <= j < |ps| && (ps[j].typed.Line? || ps[j].arrived.OtherText?) && t.last == ps[j].now;
      assert (ps + [p])[j] == ps[j];
    }
  }

  lemma LatestMoves(start: int, ps: seq<Pass>, p: Pass, t: Timer)
    requires Latest(start, ps, t) && p.now >= t.last
    ensures p.typed.Line? || p.arrived.OtherText? ==> Latest(start, ps + [p], Timer(p.now, t.sent))
    ensures !p.typed.Line? && !p.arrived.OtherText? ==> Latest(start, ps + [p], Timer(p.now, t.sent + [p.now]))
  {
    assert (ps + [p])[|ps|] == p;
    assert (t.sent + [p.now])[|t.sent|] == p.now;
  }

  lemma {:induction false} LastIsLatest(start: int, ps: seq<Pass>)
    requires Stays(ps) && Ordered(start, ps)
    ensures Latest(start, ps, After(start, ps))
  {
    if ps == [] {
    } else {
      var earlier, p := ps[..|ps| - 1], ps[|ps| - 1];
      var t := After(start, earlier);
      LastIsLatest(start, earlier);
      IdleBelowFive(start, earlier);
      TickExactly(t, p);
      assert earlier + [p] == ps;
      LatestMoves(start, earlier, p, t);
      if !p.typed.Line? && !p.arrived.OtherText? {
        LatestStays(start, earlier, p, t);
      }
    }
  }

  /**
   Exactly when a pass sends a keepalive: when its read has not failed, it neither sends a line nor
   receives other text, and five seconds have passed since the start, since every pass that did,
   and since every keepalive.
   */
  lemma SentExactly(start: int, ps: seq<Pass>, p: Pass)
    requires Stays(ps + [p]) && Ordered(start, ps + [p])
    ensures Stays(ps) && !p.typed.Leave?
    ensures After(start, ps + [p]).sent ==
      if !p.arrived.Failure? && !p.typed.Line? && !p.arrived.OtherText? && Idle(start, ps, After(start, ps).sent, p.now)
      then After(start, ps).sent + [p.now] else After(start, ps).sent
  {
    assert (ps + [p])[..|ps|] == ps && (ps + [p])[|ps|] == p;
    forall i | 0 <= i < |ps| ensures !ps[i].typed.Leave? {
      assert !(ps + [p])[i].typed.Leave?;
    }
    LastIsLatest(start, ps);
    LatestMeansIdle(start, ps, After(start, ps), p.now);
    TickExactly(After(start, ps), p);
  }

  /** Lines and text do postpone them: while every pass sends or receives some no keepalive is ever sent. */
  lemma {:induction false} TextPostpones(start: int, ps: seq<Pass>)
    requires Stays(ps) && forall i :: 0 <= i < |ps| ==> ps[i].typed.Line? || ps[i].arrived.OtherText?
    ensures After(start, ps).sent == []
  {
    if ps == [] {
    } else {
      TextPostpones(start, ps[..|ps| - 1]);
    }
  }
}
