/**
 What becomes of the second peer once the first has returned success. From then on the first
 never answers a PUNCH_REQ again (its chat loop prints it), so everything hangs on whether it
 acknowledged one before it left.
 */
module Stranding {
  import opened Common
  import opened Handshake
  import opened PunchPair

  /** Some continuation of the run, of whatever length, lets y succeed. */
  ghost predicate CanSucceed(net: Network, s: Pair, y: Side) {
    exists acts, t :: Run(net, s, acts, t) && t.At(y).peer.stage.Succeeded?
  }

  // ---------------------------------------------------------------- no way out

  ghost predicate Stranded(s: Pair, y: Side) {
    && s.At(Opp(y)).peer.stage.Succeeded?
    && !s.At(y).peer.stage.Succeeded?
    && Ack !in s.Sent(Opp(y))
    && Ack !in s.At(y).inbox
  }

  lemma StepKeepsStranded(net: Network, s: Pair, act: Action, y: Side)
    requires Enabled(net, s, act) && Stranded(s, y)
    ensures Stranded(Step(net, s, act), y)
  {
    match act
    case Recv(_) =>
    case _ =>
  }

  lemma {:induction false} StrandedForGood(net: Network, s: Pair, acts: seq<Action>, t: Pair, y: Side)
    requires Stranded(s, y) && Run(net, s, acts, t)
    ensures Stranded(t, y)
    decreases acts
  {
    if acts == [] {
    } else {
      StepKeepsStranded(net, s, acts[0], y);
      StrandedForGood(net, Step(net, s, acts[0]), acts[1..], t, y);
    }
  }

  // ---------------------------------------------------------------- a way out

  lemma FirstStep(net: Network, s: Pair, act: Action, y: Side)
    requires Enabled(net, s, act) && CanSucceed(net, Step(net, s, act), y)
    ensures CanSucceed(net, s, y)
  {
    var acts, t :| Run(net, Step(net, s, act), acts, t) && t.At(y).peer.stage.Succeeded?;
    assert ([act] + acts)[1..] == acts;
    assert Run(net, s, [act] + acts, t);
  }

  lemma DoneAlready(net: Network, s: Pair, y: Side)
    requires s.At(y).peer.stage.Succeeded?
    ensures CanSucceed(net, s, y)
  {
    assert Run(net, s, [], s);
  }

  /** A PUNCH_ACK in the socket buffer is enough: y only has to keep looping. */
  lemma {:induction false} DrainSucceeds(net: Network, s: Pair, y: Side)
    requires s.At(y).peer.Punching() && Ack in s.At(y).inbox
    requires net.Prompt? ==> s.At(y).arrived == |s.Sent(Opp(y))|
    ensures CanSucceed(net, s, y)
    decreases |s.At(y).inbox|, s.At(y).peer.stage.Sending?
  {
    var act := if s.At(y).peer.stage.Sending? then Send(y) else Recv(y);
    var t := Step(net, s, act);
    if t.At(y).peer.stage.Succeeded? {
      DoneAlready(net, t, y);
    } else {
      DrainSucceeds(net, t, y);
    }
    FirstStep(net, s, act, y);
  }

  /** A sent PUNCH_ACK that has not been dropped or taken yet can still be made to arrive. */
  lemma {:induction false} ArrivalSucceeds(net: Network, s: Pair, y: Side)
    requires s.At(y).peer.Punching()
    requires s.At(y).arrived <= |s.Sent(Opp(y))|
    requires Ack in s.At(y).inbox + s.Sent(Opp(y))[s.At(y).arrived..]
    requires net.Filtered? ==> s.At(y).peer.sent != []
    ensures CanSucceed(net, s, y)
    decreases |s.Sent(Opp(y))| - s.At(y).arrived
  {
    var k := s.At(y).arrived;
    if k == |s.Sent(Opp(y))| {
      DrainSucceeds(net, s, y);
    } else {
      var t := Step(net, s, Arrive(y, k));
      assert s.Sent(Opp(y))[k..] == [s.Sent(Opp(y))[k]] + s.Sent(Opp(y))[k + 1..];
      ArrivalSucceeds(net, t, y);
      FirstStep(net, s, Arrive(y, k), y);
    }
  }

  /** The adversary may deliver any PUNCH_ACK ever sent. */
  lemma AdversaryDelivers(s: Pair, y: Side)
    requires s.At(y).peer.Punching() && Ack in s.Sent(Opp(y))
    ensures CanSucceed(Adversarial, s, y)
  {
    var k: nat :| k < |s.Sent(Opp(y))| && s.Sent(Opp(y))[k] == Ack;
    DrainSucceeds(Adversarial, Step(Adversarial, s, Arrive(y, k)), y);
    FirstStep(Adversarial, s, Arrive(y, k), y);
  }

  // ---------------------------------------------------------------- order of arrival

  /** In the FIFO networks y has taken or holds exactly what arrived and its NAT let through. */
  ghost predicate InOrder(net: Network, s: Pair, y: Side) {
    var h := s.At(y);
    var coming := s.Sent(Opp(y));
    && h.dropped <= h.arrived <= |coming|
    && h.peer.got + h.inbox == coming[h.dropped..h.arrived]
    && Ack !in coming[..h.dropped]
    && (net.Filtered? && h.peer.sent == [] ==> h.arrived == h.dropped)
    && (!net.Filtered? ==> h.dropped == 0)
  }

  /** An acknowledgement answers a request, so the requester had sent something. */
  lemma AckNeedsRequest(s: Pair, x: Side)
    requires Sound(s) && Ack in s.Sent(x)
    ensures s.Sent(Opp(x)) != []
  {
    var k :| 0 <= k < |s.log| && s.log[k] == Sent(x, Ack);
    ExplainedAt(s.log, k);
    ExplainedAt(s.log, k - 1);
  }

  lemma OtherSideMoves(net: Network, s: Pair, act: Action, y: Side)
    requires !net.Adversarial? && Enabled(net, s, act) && InOrder(net, s, y) && act.who != y
    ensures InOrder(net, Step(net, s, act), y)
  {
    var h := s.At(y);
    var before, after := s.Sent(Opp(y)), Step(net, s, act).Sent(Opp(y));
    assert before == after[..|before|];
    assert after[h.dropped..h.arrived] == before[h.dropped..h.arrived];
    assert after[..h.dropped] == before[..h.dropped];
  }

  lemma OwnReceive(net: Network, s: Pair, y: Side)
    requires !net.Adversarial? && Enabled(net, s, Recv(y)) && InOrder(net, s, y)
    ensures InOrder(net, Step(net, s, Recv(y)), y)
  {
    var h := s.At(y);
    if h.inbox != [] {
      assert h.peer.got + [h.inbox[0]] + h.inbox[1..] == h.peer.got + h.inbox;
    }
  }

  lemma OwnArrival(net: Network, s: Pair, y: Side, k: nat)
    requires !net.Adversarial? && Enabled(net, s, Arrive(y, k)) && InOrder(net, s, y)
    ensures InOrder(net, Step(net, s, Arrive(y, k)), y)
  {
    var h := s.At(y);
    var coming := s.Sent(Opp(y));
    assert coming[h.dropped..k + 1] == coming[h.dropped..k] + [coming[k]];
    assert h.peer.got + (h.inbox + [coming[k]]) == h.peer.got + h.inbox + [coming[k]];
  }

  lemma OwnRefusal(net: Network, s: Pair, y: Side)
    requires !net.Adversarial? && Sound(s) && Enabled(net, s, Drop(y)) && InOrder(net, s, y)
    ensures InOrder(net, Step(net, s, Drop(y)), y)
  {
    var h := s.At(y);
    var coming := s.Sent(Opp(y));
    if Ack in coming {
      AckNeedsRequest(s, Opp(y));
    }
    assert coming[..h.dropped + 1] == coming[..h.dropped] + [coming[h.dropped]];
  }

  lemma OwnSideMoves(net: Network, s: Pair, act: Action)
    requires !net.Adversarial? && Sound(s) && Enabled(net, s, act) && InOrder(net, s, act.who)
    ensures InOrder(net, Step(net, s, act), act.who)
  {
    match act
    case Recv(y) => OwnReceive(net, s, y);
    case Arrive(y, k) => OwnArrival(net, s, y, k);
    case Drop(y) => OwnRefusal(net, s, y);
    case _ =>
  }

  lemma {:induction false} RunKeepsOrder(net: Network, s: Pair, acts: seq<Action>, t: Pair, y: Side)
    requires !net.Adversarial? && Sound(s) && InOrder(net, s, y) && Run(net, s, acts, t)
    ensures InOrder(net, t, y)
    decreases acts
  {
    if acts == [] {
    } else {
      StepKeepsSound(net, s, acts[0]);
      if acts[0].who == y {
        OwnSideMoves(net, s, acts[0]);
      } else {
        OtherSideMoves(net, s, acts[0], y);
      }
      RunKeepsOrder(net, Step(net, s, acts[0]), acts[1..], t, y);
    }
  }

  lemma StartsInOrder(net: Network, y: Side)
    ensures InOrder(net, START, y)
  {
    assert START.At(y) == Host(FRESH, [], 0, 0) && START.Sent(Opp(y)) == [];
  }

  lemma ReachableInOrder(net: Network, s: Pair, y: Side)
    requires !net.Adversarial? && Reachable(net, s)
    ensures InOrder(net, s, y)
  {
    StartsSound();
    StartsInOrder(net, y);
    var acts :| Run(net, START, acts, s);
    RunKeepsOrder(net, START, acts, s, y);
  }

  // ---------------------------------------------------------------- the exact condition

  lemma InThirds(s: seq<Message>, i: nat, j: nat, m: Message)
    requires i <= j <= |s| && m in s
    ensures m in s[..i] || m in s[i..j] || m in s[j..]
  {
    assert s == s[..i] + s[i..j] + s[j..];
  }

  /** What y has not yet taken of an acknowledgement sent to it is in its buffer or still to arrive. */
  lemma StillToCome(net: Network, s: Pair, y: Side)
    requires Sound(s) && InOrder(net, s, y) && s.At(y).peer.Punching() && Ack in s.Sent(Opp(y))
    ensures var h := s.At(y); h.arrived <= |s.Sent(Opp(y))| && Ack in h.inbox + s.Sent(Opp(y))[h.arrived..]
  {
    var h, coming := s.At(y), s.Sent(Opp(y));
    assert SideSound(s, y);
    InThirds(coming, h.dropped, h.arrived, Ack);
  }

  lemma AckLeavesAWay(net: Network, s: Pair, y: Side)
    requires Reachable(net, s)
    requires s.At(y).peer.Punching() && Ack in s.Sent(Opp(y))
    ensures CanSucceed(net, s, y)
  {
    if net.Adversarial? {
      AdversaryDelivers(s, y);
    } else {
      ReachableSound(net, s);
      ReachableInOrder(net, s, y);
      AckNeedsRequest(s, Opp(y));
      StillToCome(net, s, y);
      ArrivalSucceeds(net, s, y);
    }
  }

  /**
   On every network, once x has returned success the other can still succeed exactly when x had
   sent a PUNCH_ACK before returning, which is exactly when x had received a PUNCH_REQ.
   */
  lemma StrandingExact(net: Network, s: Pair, x: Side)
    requires Reachable(net, s)
    requires s.At(x).peer.stage.Succeeded? && s.At(Opp(x)).peer.Punching()
    ensures CanSucceed(net, s, Opp(x)) <==> Ack in s.Sent(x)
    ensures Ack in s.Sent(x) <==> Req in s.At(x).peer.got
  {
    ReachableSound(net, s);
    assert SideSound(s, x) && SideSound(s, Opp(x));
    if Ack in s.Sent(x) {
      AckLeavesAWay(net, s, Opp(x));
    } else if CanSucceed(net, s, Opp(x)) {
      var acts, t :| Run(net, s, acts, t) && t.At(Opp(x)).peer.stage.Succeeded?;
      StrandedForGood(net, s, acts, t, Opp(x));
      assert false;
    }
  }

  /**
   A peer that returned success without loss and filtering has acknowledged, since what it received
   first was a request.
   */
  lemma LeaverAcknowledged(net: Network, s: Pair, x: Side)
    requires net.Fifo? || net.Prompt?
    requires Sound(s) && InOrder(net, s, x) && s.At(x).peer.stage.Succeeded?
    ensures Ack in s.Sent(x)
  {
    assert SideSound(s, x) && Disciplined(s.At(x).peer);
    FirstReceivedIsReq(net, s, x);
    assert Req in s.At(x).peer.got;
    assert Ack in multiset(s.Sent(x));
  }

  /** What x sent is split between what the other took, holds in its buffer, and what is under way. */
  lemma SentIsSplit(net: Network, s: Pair, x: Side)
    requires net.Fifo? || net.Prompt?
    requires InOrder(net, s, Opp(x))
    ensures var h := s.At(Opp(x));
      h.arrived <= |s.Sent(x)| && s.Sent(x) == h.peer.got + h.inbox + s.Sent(x)[h.arrived..]
  {
    var h := s.At(Opp(x));
    assert s.Sent(x) == s.Sent(x)[..h.arrived] + s.Sent(x)[h.arrived..];
  }

  /**
   Without filtering and loss nobody is left half open: a peer that succeeded has acknowledged, and
   the other can use that.
   */
  lemma NoHalfOpen(net: Network, s: Pair, x: Side)
    requires net.Fifo? || net.Prompt?
    requires Reachable(net, s) && s.At(x).peer.stage.Succeeded?
    ensures var h := s.At(Opp(x));
      && Ack in s.Sent(x)
      && h.arrived <= |s.Sent(x)|
      && s.Sent(x) == h.peer.got + h.inbox + s.Sent(x)[h.arrived..]
      && (h.peer.Punching() ==> Ack in h.inbox + s.Sent(x)[h.arrived..] && CanSucceed(net, s, Opp(x)))
  {
    ReachableSound(net, s);
    ReachableInOrder(net, s, x);
    ReachableInOrder(net, s, Opp(x));
    LeaverAcknowledged(net, s, x);
    SentIsSplit(net, s, x);
    if s.At(Opp(x)).peer.Punching() {
      StillToCome(net, s, Opp(x));
      AckLeavesAWay(net, s, Opp(x));
    }
  }

  /** Each direction starts with a PUNCH_REQ, so that is what a peer receives first. */
  lemma FirstReceivedIsReq(net: Network, s: Pair, x: Side)
    requires net.Fifo? || net.Prompt?
    requires Sound(s) && InOrder(net, s, x) && s.At(x).peer.got != []
    ensures s.At(x).peer.got[0] == Req
  {
    var h, coming := s.At(x), s.Sent(Opp(x));
    assert SideSound(s, Opp(x));
    assert coming[0] == coming[0..h.arrived][0] == (h.peer.got + h.inbox)[0] == h.peer.got[0];
  }

  lemma {:induction false} RunConcat(net: Network, s: Pair, acts: seq<Action>, t: Pair, more: seq<Action>, u: Pair)
    requires Run(net, s, acts, t) && Run(net, t, more, u)
    ensures Run(net, s, acts + more, u)
    decreases acts
  {
    if acts == [] {
      assert acts + more == more;
    } else {
      RunConcat(net, Step(net, s, acts[0]), acts[1..], t, more, u);
      assert (acts + more)[1..] == acts[1..] + more;
    }
  }

  /** B's request has met A's closed NAT, A's request is on its way to B. */
  ghost const REFUSED := Pair(
    Host(Peer(Receiving, 1, 0, [Req], []), [], 1, 1),
    Host(Peer(Receiving, 1, 0, [Req], []), [], 0, 0),
    [Sent(B, Req), Sent(A, Req)])

  /** B has taken A's request and acknowledged it. */
  ghost const ANSWERED := Pair(
    REFUSED.a,
    Host(Peer(Sending, 1, 1, [Req, Ack], [Req]), [], 1, 0),
    [Sent(B, Req), Sent(A, Req), Got(B, Req), Sent(B, Ack)])

  /** A left on B's acknowledgement. */
  ghost const HALF_OPEN := Pair(
    Host(Peer(Succeeded, 1, 1, [Req], [Ack]), [], 2, 1),
    ANSWERED.b,
    [Sent(B, Req), Sent(A, Req), Got(B, Req), Sent(B, Ack), Got(A, Ack)])

  lemma RefusedRun()
    ensures Run(Filtered, START, [Send(B), Drop(A), Send(A)], REFUSED)
  {
    var s1 := Step(Filtered, START, Send(B));
    var s2 := Step(Filtered, s1, Drop(A));
    assert Run(Filtered, s2, [Send(A)], REFUSED);
    assert Run(Filtered, s1, [Drop(A), Send(A)], REFUSED);
  }

  lemma AnsweredRun()
    ensures Run(Filtered, REFUSED, [Arrive(B, 0), Recv(B)], ANSWERED)
  {
    var s1 := Step(Filtered, REFUSED, Arrive(B, 0));
    assert Run(Filtered, s1, [Recv(B)], Step(Filtered, s1, Recv(B)));
  }

  lemma LeftRun()
    ensures Run(Filtered, ANSWERED, [Arrive(A, 1), Recv(A)], HALF_OPEN)
  {
    var s1 := Step(Filtered, ANSWERED, Arrive(A, 1));
    assert Run(Filtered, s1, [Recv(A)], Step(Filtered, s1, Recv(A)));
  }

  /**
   With filtering NATs a half-open outcome is reachable: B's first request is refused by A's NAT,
   A's reaches B, B's answer makes A leave, and A has never seen a request to answer.
   */
  lemma FilteringStrands()
    ensures Reachable(Filtered, HALF_OPEN)
    ensures HALF_OPEN.At(A).peer.stage.Succeeded? && HALF_OPEN.At(B).peer.Punching()
    ensures !CanSucceed(Filtered, HALF_OPEN, B)
  {
    RefusedRun();
    AnsweredRun();
    LeftRun();
    RunConcat(Filtered, REFUSED, [Arrive(B, 0), Recv(B)], ANSWERED, [Arrive(A, 1), Recv(A)], HALF_OPEN);
    RunConcat(Filtered, START, [Send(B), Drop(A), Send(A)], REFUSED,
              [Arrive(B, 0), Recv(B)] + [Arrive(A, 1), Recv(A)], HALF_OPEN);
    StrandingExact(Filtered, HALF_OPEN, A);
  }
}
