/**
 How long success takes. A PUNCH_ACK in a peer's socket buffer moves one place to the front with
 every poll and nothing pushes it back; and when datagrams are under way for a bounded number of
 passes, two peers that keep pace with each other are both done after a number of passes linear in
 that bound and in how far apart they may drift.
 */
module Progress {
  import opened Common
  import opened Handshake
  import opened PunchPair
  import opened Stranding

  ghost function FirstAck(s: seq<Message>): (k: nat)
    requires Ack in s
    ensures k < |s| && s[k] == Ack && Ack !in s[..k]
  {
    if s[0] == Ack then 0 else 1 + FirstAck(s[1..])
  }

  lemma {:induction false} FirstAckIs(s: seq<Message>, k: nat)
    requires k < |s| && s[k] == Ack && Ack !in s[..k]
    ensures FirstAck(s) == k
  {
    if k == 0 {
    } else {
      assert s[..k][0] == s[0] && s[1..][..k - 1] == s[..k][1..];
      FirstAckIs(s[1..], k - 1);
    }
  }

  lemma FirstAckKept(s: seq<Message>, more: seq<Message>)
    requires Ack in s
    ensures Ack in s + more && FirstAck(s + more) == FirstAck(s)
  {
    var k := FirstAck(s);
    assert (s + more)[..k] == s[..k];
    FirstAckIs(s + more, k);
  }

  lemma FirstAckDrops(s: seq<Message>)
    requires Ack in s && s[0] != Ack
    ensures Ack in s[1..] && FirstAck(s[1..]) == FirstAck(s) - 1
  {
    var k := FirstAck(s);
    assert s[1..][..k - 1] == s[..k][1..];
    FirstAckIs(s[1..], k - 1);
  }

  // ---------------------------------------------------------------- draining a buffered PUNCH_ACK

  ghost function Polls(acts: seq<Action>, y: Side): nat {
    if acts == [] then 0 else (if acts[0] == Recv(y) then 1 else 0) + Polls(acts[1..], y)
  }

  /** No action but a poll by y itself changes where the first PUNCH_ACK stands in y's buffer. */
  lemma OthersKeepThePlace(net: Network, s: Pair, act: Action, y: Side)
    requires Enabled(net, s, act) && act != Recv(y) && act != Quit(y)
    requires s.At(y).peer.Punching() && Ack in s.At(y).inbox
    ensures var h := Step(net, s, act).At(y);
      h.peer.Punching() && Ack in h.inbox && FirstAck(h.inbox) == FirstAck(s.At(y).inbox)
  {
    if act.Arrive? && act.who == y {
      FirstAckKept(s.At(y).inbox, [s.Sent(Opp(y))[act.k]]);
    }
  }

  lemma PollLowersThePlace(net: Network, s: Pair, y: Side)
    requires Enabled(net, s, Recv(y)) && Ack in s.At(y).inbox
    ensures var k := FirstAck(s.At(y).inbox); var h := Step(net, s, Recv(y)).At(y);
      if k == 0 then h.peer.stage.Succeeded?
      else h.peer.Punching() && Ack in h.inbox && FirstAck(h.inbox) == k - 1
  {
    if s.At(y).inbox[0] != Ack {
      FirstAckDrops(s.At(y).inbox);
    }
  }

  lemma {:induction false} NoPollsAfterSuccess(net: Network, s: Pair, acts: seq<Action>, t: Pair, y: Side)
    requires Run(net, s, acts, t) && s.At(y).peer.stage.Succeeded?
    ensures Polls(acts, y) == 0 && t.At(y).peer.stage.Succeeded?
    decreases acts
  {
    if acts == [] {
    } else {
      NoPollsAfterSuccess(net, Step(net, s, acts[0]), acts[1..], t, y);
    }
  }

  /**
   On every network and under every schedule: with the first PUNCH_ACK at place k of its buffer and
   no timeout, y succeeds at its poll number k + 1 and not before, whatever the other peer does.
   */
  lemma {:induction false} PollsUntilSuccess(net: Network, s: Pair, acts: seq<Action>, t: Pair, y: Side)
    requires Run(net, s, acts, t) && Quit(y) !in acts
    requires s.At(y).peer.Punching() && Ack in s.At(y).inbox
    ensures var k := FirstAck(s.At(y).inbox); var n := Polls(acts, y);
      && n <= k + 1
      && (n == k + 1 <==> t.At(y).peer.stage.Succeeded?)
      && (n <= k ==> t.At(y).peer.Punching() && Ack in t.At(y).inbox && FirstAck(t.At(y).inbox) == k - n)
    decreases acts
  {
    if acts == [] {
    } else {
      var s1 := Step(net, s, acts[0]);
      if acts[0] == Recv(y) {
        PollLowersThePlace(net, s, y);
      } else {
        OthersKeepThePlace(net, s, acts[0], y);
      }
      if s1.At(y).peer.stage.Succeeded? {
        NoPollsAfterSuccess(net, s1, acts[1..], t, y);
      } else {
        PollsUntilSuccess(net, s1, acts[1..], t, y);
      }
    }
  }

  // ---------------------------------------------------------------- keeping pace

  /** The pair with, for each of a peer's polls, how many datagrams the other side had sent by then. */
  datatype Timed = Timed(s: Pair, aMarks: seq<nat>, bMarks: seq<nat>)
  {
    function Marks(x: Side): seq<nat> {
      if x.A? then aMarks else bMarks
    }

    function Passes(x: Side): nat {
      s.At(x).peer.passes
    }

    function Coming(x: Side): seq<Message> {
      s.Sent(Opp(x))
    }

    /** The marks of x as its next poll sees them. */
    function MarksNow(x: Side): seq<nat> {
      Marks(x) + [|Coming(x)|]
    }
  }

  const TIMED_START := Timed(START, [], [])

  function Next(v: Timed, act: Action): Timed
    requires Enabled(Fifo, v.s, act)
  {
    var t := Step(Fifo, v.s, act);
    if act == Recv(A) then Timed(t, v.MarksNow(A), v.bMarks)
    else if act == Recv(B) then Timed(t, v.aMarks, v.MarksNow(B))
    else Timed(t, v.aMarks, v.bMarks)
  }

  /** At every poll whatever was sent before the receiver's poll `delay` passes earlier has arrived. */
  predicate Timely(v: Timed, act: Action, delay: nat) {
    act.Recv? ==>
      var marks := v.MarksNow(act.who);
      delay < |marks| ==> v.s.At(act.who).arrived >= marks[|marks| - 1 - delay]
  }

  /** Delay zero is the prompt network. */
  lemma PromptIsTimely(v: Timed, act: Action)
    requires v.s.At(act.who).arrived <= |v.Coming(act.who)|
    ensures Enabled(Prompt, v.s, act) <==> Enabled(Fifo, v.s, act) && Timely(v, act, 0)
  {
  }

  /** While both are punching neither peer is more than d passes ahead of the other. */
  ghost predicate WithinSkew(s: Pair, d: nat) {
    s.a.peer.Punching() && s.b.peer.Punching() ==>
      s.a.peer.passes <= s.b.peer.passes + d && s.b.peer.passes <= s.a.peer.passes + d
  }

  /** A step of a loss-free in-order network with delays of at most `delay` passes that keeps within the skew. */
  ghost predicate SteadyStep(v: Timed, act: Action, d: nat, delay: nat) {
    && Enabled(Fifo, v.s, act)
    && !act.Quit?
    && Timely(v, act, delay)
    && WithinSkew(Next(v, act).s, d)
  }

  ghost predicate SteadyRun(v: Timed, acts: seq<Action>, w: Timed, d: nat, delay: nat)
    decreases acts
  {
    if acts == [] then v == w
    else SteadyStep(v, acts[0], d, delay) && SteadyRun(Next(v, acts[0]), acts[1..], w, d, delay)
  }

  lemma {:induction false} SteadyRunIsRun(v: Timed, acts: seq<Action>, w: Timed, d: nat, delay: nat)
    requires SteadyRun(v, acts, w, d, delay)
    ensures Run(Fifo, v.s, acts, w.s)
    decreases acts
  {
    if acts == [] {
    } else {
      SteadyRunIsRun(Next(v, acts[0]), acts[1..], w, d, delay);
    }
  }

  /**
   What a peer's own record shows when empty polls and passes made before it was heard from are at
   most `lag` in number.
   */
  ghost predicate Paced(p: Peer, lag: nat) {
    && !p.stage.TimedOut?
    && (Ack in p.sent ==> FirstAck(p.sent) <= lag + 1)
    && p.passes <= |p.got| + lag
  }

  /**
   By each of its polls a peer still punching was acknowledged or had been sent at least as much as
   the skew leaves.
   */
  ghost predicate MarksFit(marks: seq<nat>, coming: seq<Message>, punching: bool, d: nat) {
    forall i :: 0 <= i < |marks| ==>
      && marks[i] <= |coming|
      && (punching ==> Ack in coming[..marks[i]] || i + 1 <= marks[i] + d)
  }

  ghost predicate SteadySide(v: Timed, x: Side, d: nat, delay: nat) {
    && InOrder(Fifo, v.s, x)
    && Paced(v.s.At(x).peer, d + delay)
    && |v.Marks(x)| == v.Passes(x)
    && MarksFit(v.Marks(x), v.Coming(x), v.s.At(x).peer.Punching(), d)
  }

  ghost predicate Steady(v: Timed, d: nat, delay: nat) {
    Sound(v.s) && SteadySide(v, A, d, delay) && SteadySide(v, B, d, delay)
  }

  /** Having received anything a peer has acknowledged, since requests come first. */
  lemma SilentUntilHeard(s: Pair, x: Side)
    requires Sound(s) && InOrder(Fifo, s, x)
    ensures Ack in s.Sent(x) <==> s.At(x).peer.got != []
  {
    assert SideSound(s, x);
    if s.At(x).peer.got != [] {
      FirstReceivedIsReq(Fifo, s, x);
    }
  }

  lemma SendPaced(p: Peer, lag: nat)
    requires Paced(p, lag) && p.stage.Sending?
    ensures Paced(SendReq(p), lag)
  {
    if Ack in p.sent {
      FirstAckKept(p.sent, [Req]);
    }
  }

  lemma TalkPaced(p: Peer, lag: nat)
    requires Paced(p, lag) && p.stage.Succeeded?
    ensures Paced(Talk(p), lag)
  {
    if Ack in p.sent {
      FirstAckKept(p.sent, [Other]);
    }
  }

  /** The first PUNCH_ACK comes after no more requests than passes made before being heard from. */
  lemma ReceivePaced(p: Peer, m: Message, lag: nat)
    requires Paced(p, lag) && p.stage.Receiving? && Disciplined(p)
    requires Ack in p.sent <==> p.got != []
    ensures Paced(Receive(p, Some(m)), lag)
  {
    if m.Req? {
      if Ack in p.sent {
        FirstAckKept(p.sent, [Ack]);
      } else {
        FirstAckIs(p.sent + [Ack], |p.sent|);
      }
    }
  }

  lemma LeftAcknowledged(v: Timed, y: Side, d: nat, delay: nat)
    requires Sound(v.s) && SteadySide(v, y, d, delay) && !v.s.At(y).peer.Punching()
    ensures Ack in v.s.Sent(y)
  {
    assert SideSound(v.s, y);
    SilentUntilHeard(v.s, y);
  }

  lemma KeptWithin(v: Timed, x: Side, d: nat, delay: nat)
    requires SteadyStep(v, Recv(x), d, delay) && v.s.At(Opp(x)).peer.Punching()
    requires Next(v, Recv(x)).s.At(x).peer.Punching()
    ensures v.Passes(x) + 1 <= v.Passes(Opp(x)) + d
  {
  }

  /**
   What a new poll finds sent fits too: the other side has either left, having acknowledged, or kept
   within the skew.
   */
  lemma NewMarkFits(v: Timed, x: Side, d: nat, delay: nat)
    requires Steady(v, d, delay) && SteadyStep(v, Recv(x), d, delay)
    requires Next(v, Recv(x)).s.At(x).peer.Punching()
    ensures Ack in v.Coming(x) || v.Passes(x) + 1 <= |v.Coming(x)| + d
  {
    var y := Opp(x);
    if v.s.At(y).peer.Punching() {
      KeptWithin(v, x, d, delay);
      assert SideSound(v.s, y);
      RequestsSent(v.s.At(y).peer);
    } else {
      assert SteadySide(v, y, d, delay);
      LeftAcknowledged(v, y, d, delay);
    }
  }

  lemma RequestsSent(p: Peer)
    requires Disciplined(p)
    ensures p.passes <= |p.sent|
  {
    assert multiset(p.sent)[Req] <= |multiset(p.sent)|;
  }

  lemma MarkAdded(marks: seq<nat>, coming: seq<Message>, still: bool, d: nat)
    requires MarksFit(marks, coming, true, d)
    requires still ==> Ack in coming || |marks| + 1 <= |coming| + d
    ensures MarksFit(marks + [|coming|], coming, still, d)
  {
    assert coming[..|coming|] == coming;
  }

  lemma MarksNowFit(v: Timed, x: Side, d: nat, delay: nat)
    requires Steady(v, d, delay) && SteadyStep(v, Recv(x), d, delay)
    ensures MarksFit(v.MarksNow(x), v.Coming(x), Next(v, Recv(x)).s.At(x).peer.Punching(), d)
  {
    assert SteadySide(v, x, d, delay);
    var still := Next(v, Recv(x)).s.At(x).peer.Punching();
    if still {
      NewMarkFits(v, x, d, delay);
    }
    MarkAdded(v.Marks(x), v.Coming(x), still, d);
  }

  /** An empty poll means everything that has arrived has been taken, and there was no PUNCH_ACK among it. */
  lemma EmptyPoll(v: Timed, x: Side)
    requires Sound(v.s) && InOrder(Fifo, v.s, x)
    requires v.s.At(x).peer.Punching() && v.s.At(x).inbox == []
    ensures var h := v.s.At(x);
      h.arrived <= |v.Coming(x)| && |h.peer.got| == h.arrived && Ack !in v.Coming(x)[..h.arrived]
  {
    assert SideSound(v.s, x);
    assert v.s.At(x).peer.got == v.Coming(x)[..v.s.At(x).arrived];
  }

  lemma EarlierMark(marks: seq<nat>, coming: seq<Message>, i: nat, arrived: nat, d: nat)
    requires MarksFit(marks, coming, true, d) && i < |marks|
    requires marks[i] <= arrived <= |coming| && Ack !in coming[..arrived]
    ensures i + 1 <= arrived + d
  {
    assert coming[..marks[i]] <= coming[..arrived];
  }

  lemma EmptyPollMarks(v: Timed, x: Side, d: nat, delay: nat)
    requires Steady(v, d, delay) && SteadyStep(v, Recv(x), d, delay) && v.s.At(x).inbox == []
    ensures MarksFit(v.MarksNow(x), v.Coming(x), true, d)
  {
    MarksNowFit(v, x, d, delay);
    assert Next(v, Recv(x)).s.At(x).peer == Receive(v.s.At(x).peer, None);
  }

  lemma FewEmptyPolls(v: Timed, x: Side, d: nat, delay: nat)
    requires Sound(v.s) && SteadySide(v, x, d, delay) && v.s.At(x).peer.Punching() && v.s.At(x).inbox == []
    requires Timely(v, Recv(x), delay) && MarksFit(v.MarksNow(x), v.Coming(x), true, d)
    ensures v.Passes(x) + 1 <= |v.s.At(x).peer.got| + d + delay
  {
    EmptyPoll(v, x);
    var marks := v.MarksNow(x);
    if delay < |marks| {
      EarlierMark(marks, v.Coming(x), |marks| - 1 - delay, v.s.At(x).arrived, d);
    }
  }

  lemma EmptyPollPaced(v: Timed, x: Side, d: nat, delay: nat)
    requires Steady(v, d, delay) && SteadyStep(v, Recv(x), d, delay) && v.s.At(x).inbox == []
    ensures Paced(Receive(v.s.At(x).peer, None), d + delay)
  {
    assert SteadySide(v, x, d, delay);
    EmptyPollMarks(v, x, d, delay);
    FewEmptyPolls(v, x, d, delay);
  }

  lemma PollPaced(v: Timed, x: Side, d: nat, delay: nat)
    requires Steady(v, d, delay) && SteadyStep(v, Recv(x), d, delay)
    ensures Paced(Next(v, Recv(x)).s.At(x).peer, d + delay)
  {
    if v.s.At(x).inbox == [] {
      EmptyPollPaced(v, x, d, delay);
    } else {
      assert SteadySide(v, x, d, delay);
      SilentUntilHeard(v.s, x);
      assert SideSound(v.s, x);
      ReceivePaced(v.s.At(x).peer, v.s.At(x).inbox[0], d + delay);
    }
  }

  lemma OwnPace(v: Timed, act: Action, d: nat, delay: nat)
    requires Steady(v, d, delay) && SteadyStep(v, act, d, delay)
    ensures Paced(Next(v, act).s.At(act.who).peer, d + delay)
  {
    var x := act.who;
    var p := v.s.At(x).peer;
    assert SteadySide(v, x, d, delay);
    match act
    case Send(_) => SendPaced(p, d + delay);
    case Chat(_) => TalkPaced(p, d + delay);
    case Recv(_) => PollPaced(v, x, d, delay);
    case _ =>
  }

  lemma StepKeepsOrder(s: Pair, act: Action, x: Side)
    requires Sound(s) && InOrder(Fifo, s, x) && Enabled(Fifo, s, act)
    ensures InOrder(Fifo, Step(Fifo, s, act), x)
  {
    if act.who == x {
      OwnSideMoves(Fifo, s, act);
    } else {
      OtherSideMoves(Fifo, s, act, x);
    }
  }

  lemma MarksStillFit(marks: seq<nat>, coming: seq<Message>, more: seq<Message>, punching: bool, still: bool, d: nat)
    requires MarksFit(marks, coming, punching, d) && coming <= more && (still ==> punching)
    ensures MarksFit(marks, more, still, d)
  {
    assert forall i :: 0 <= i < |marks| ==> more[..marks[i]] == coming[..marks[i]];
  }

  lemma NothingUnsent(v: Timed, act: Action, x: Side)
    requires Enabled(Fifo, v.s, act) && act != Recv(x)
    ensures var w := Next(v, act);
      && v.Coming(x) <= w.Coming(x) && w.Marks(x) == v.Marks(x) && w.Passes(x) == v.Passes(x)
      && (w.s.At(x).peer.Punching() ==> v.s.At(x).peer.Punching())
  {
    match act
    case Recv(_) =>
    case _ =>
  }

  lemma PollMarked(v: Timed, x: Side)
    requires Enabled(Fifo, v.s, Recv(x))
    ensures var w := Next(v, Recv(x));
      w.Coming(x) == v.Coming(x) && w.Marks(x) == v.MarksNow(x) && w.Passes(x) == v.Passes(x) + 1
  {
  }

  lemma StepKeepsMarks(v: Timed, act: Action, x: Side, d: nat, delay: nat)
    requires Steady(v, d, delay) && SteadyStep(v, act, d, delay)
    ensures var w := Next(v, act);
      |w.Marks(x)| == w.Passes(x) && MarksFit(w.Marks(x), w.Coming(x), w.s.At(x).peer.Punching(), d)
  {
    assert SteadySide(v, x, d, delay);
    if act == Recv(x) {
      MarksNowFit(v, x, d, delay);
      PollMarked(v, x);
    } else {
      var w := Next(v, act);
      NothingUnsent(v, act, x);
      MarksStillFit(v.Marks(x), v.Coming(x), w.Coming(x), v.s.At(x).peer.Punching(), w.s.At(x).peer.Punching(), d);
    }
  }

  lemma StepKeepsPace(v: Timed, act: Action, x: Side, d: nat, delay: nat)
    requires Steady(v, d, delay) && SteadyStep(v, act, d, delay)
    ensures Paced(Next(v, act).s.At(x).peer, d + delay)
  {
    if act.who == x {
      OwnPace(v, act, d, delay);
    } else {
      assert SteadySide(v, x, d, delay);
      assert Next(v, act).s.At(x).peer == v.s.At(x).peer;
    }
  }

  lemma StepKeepsSide(v: Timed, act: Action, x: Side, d: nat, delay: nat)
    requires Steady(v, d, delay) && SteadyStep(v, act, d, delay)
    ensures SteadySide(Next(v, act), x, d, delay)
  {
    StepKeepsOrder(v.s, act, x);
    StepKeepsMarks(v, act, x, d, delay);
    StepKeepsPace(v, act, x, d, delay);
  }

  lemma StepKeepsSteady(v: Timed, act: Action, d: nat, delay: nat)
    requires Steady(v, d, delay) && SteadyStep(v, act, d, delay)
    ensures Steady(Next(v, act), d, delay)
  {
    StepKeepsSound(Fifo, v.s, act);
    StepKeepsSide(v, act, A, d, delay);
    StepKeepsSide(v, act, B, d, delay);
  }

  lemma {:induction false} SteadyRunKeeps(v: Timed, acts: seq<Action>, w: Timed, d: nat, delay: nat)
    requires Steady(v, d, delay) && WithinSkew(v.s, d) && SteadyRun(v, acts, w, d, delay)
    ensures Steady(w, d, delay) && WithinSkew(w.s, d)
    decreases acts
  {
    if acts == [] {
    } else {
      StepKeepsSteady(v, acts[0], d, delay);
      SteadyRunKeeps(Next(v, acts[0]), acts[1..], w, d, delay);
    }
  }

  lemma {:induction false} PrefixBeforeAck(s: seq<Message>, t: seq<Message>)
    requires s <= t && Ack !in s && Ack in t
    ensures |s| <= FirstAck(t)
  {
    if s == [] {
    } else {
      PrefixBeforeAck(s[1..], t[1..]);
    }
  }

  /** What a side sends before its first PUNCH_ACK is at most one request more than it may lag. */
  lemma FewBeforeAck(v: Timed, y: Side, d: nat, delay: nat)
    requires Steady(v, d, delay)
    ensures if Ack in v.s.Sent(y) then FirstAck(v.s.Sent(y)) <= d + delay + 1 else |v.s.Sent(y)| <= d + delay + 1
  {
    assert SteadySide(v, y, d, delay);
    SilentUntilHeard(v.s, y);
    assert SideSound(v.s, y);
  }

  lemma FewReceived(v: Timed, x: Side, d: nat, delay: nat)
    requires Steady(v, d, delay)
    ensures |v.s.At(x).peer.got| <= if v.s.At(x).peer.Punching() then d + delay + 1 else d + delay + 2
  {
    FewBeforeAck(v, Opp(x), d, delay);
    GotBeforeAck(v.s.At(x).peer, v.s.At(x).inbox, v.Coming(x), d + delay) by {
      assert SideSound(v.s, x);
      assert SteadySide(v, x, d, delay);
    }
  }

  lemma GotBeforeAck(p: Peer, inbox: seq<Message>, coming: seq<Message>, lag: nat)
    requires Disciplined(p) && !p.stage.TimedOut? && p.got + inbox <= coming
    requires if Ack in coming then FirstAck(coming) <= lag + 1 else |coming| <= lag + 1
    ensures |p.got| <= if p.Punching() then lag + 1 else lag + 2
  {
    assert p.got <= p.got + inbox;
    if Ack in coming {
      if p.Punching() {
        PrefixBeforeAck(p.got, coming);
      } else {
        PrefixBeforeAck(p.got[..|p.got| - 1], coming);
      }
    }
  }

  /** A bound on passes for a peer that is still punching; succeeding may take one more. */
  function MostPasses(d: nat, delay: nat): nat {
    2 * (d + delay) + 1
  }

  lemma FewPasses(v: Timed, x: Side, d: nat, delay: nat)
    requires Steady(v, d, delay)
    ensures !v.s.At(x).peer.stage.TimedOut?
    ensures v.Passes(x) <= if v.s.At(x).peer.Punching() then MostPasses(d, delay) else MostPasses(d, delay) + 1
  {
    assert SteadySide(v, x, d, delay);
    FewReceived(v, x, d, delay);
  }

  lemma StartsOnSide(x: Side, d: nat, delay: nat)
    ensures SteadySide(TIMED_START, x, d, delay)
  {
    assert TIMED_START.s.At(x) == Host(FRESH, [], 0, 0);
  }

  lemma StartsSteady(d: nat, delay: nat)
    ensures Steady(TIMED_START, d, delay) && WithinSkew(START, d)
  {
    StartsSound();
    StartsOnSide(A, d, delay);
    StartsOnSide(B, d, delay);
  }

  /** On a steady run no peer makes more than 2(d + delay) + 2 passes, and one that has made them all has succeeded. */
  lemma BothSucceedSoon(acts: seq<Action>, w: Timed, d: nat, delay: nat, x: Side)
    requires SteadyRun(TIMED_START, acts, w, d, delay)
    ensures w.Passes(x) <= 2 * (d + delay) + 2
    ensures w.Passes(x) <= 2 * (d + delay) + 1 || w.s.At(x).peer.stage.Succeeded?
  {
    StartsSteady(d, delay);
    SteadyRunKeeps(TIMED_START, acts, w, d, delay);
    FewPasses(w, x, d, delay);
  }

  // ---------------------------------------------------------------- and they can always get there

  ghost predicate BothSucceeded(s: Pair) {
    s.a.peer.stage.Succeeded? && s.b.peer.stage.Succeeded?
  }

  ghost predicate CanFinish(v: Timed, d: nat, delay: nat) {
    exists acts, w :: SteadyRun(v, acts, w, d, delay) && BothSucceeded(w.s)
  }

  /** The punching peer that is not ahead of the other. */
  ghost function Behind(s: Pair): (x: Side)
    requires s.a.peer.Punching() || s.b.peer.Punching()
    ensures s.At(x).peer.Punching()
    ensures s.At(Opp(x)).peer.Punching() ==> s.At(x).peer.passes <= s.At(Opp(x)).peer.passes
  {
    if s.a.peer.Punching() && (s.b.peer.Punching() ==> s.a.peer.passes <= s.b.peer.passes) then A else B
  }

  ghost function NextMove(s: Pair, x: Side): Action {
    if s.At(x).peer.stage.Sending? then Send(x)
    else if s.At(x).arrived < |s.Sent(Opp(x))| then Arrive(x, s.At(x).arrived)
    else Recv(x)
  }

  lemma NextMoveTimely(v: Timed, x: Side, d: nat, delay: nat)
    requires SteadySide(v, x, d, delay)
    ensures Timely(v, NextMove(v.s, x), delay)
  {
    var marks := v.MarksNow(x);
    assert forall i :: 0 <= i < |marks| ==> marks[i] <= |v.Coming(x)|;
  }

  lemma NextMoveFits(v: Timed, x: Side, d: nat, delay: nat)
    requires d > 0 && WithinSkew(v.s, d) && SteadySide(v, x, d, delay)
    requires v.s.At(x).peer.Punching()
    requires v.s.At(Opp(x)).peer.Punching() ==> v.Passes(x) <= v.Passes(Opp(x))
    ensures SteadyStep(v, NextMove(v.s, x), d, delay)
  {
    NextMoveTimely(v, x, d, delay);
    match NextMove(v.s, x)
    case Send(_) =>
    case Arrive(_, _) =>
    case Recv(_) =>
  }

  lemma StepFirst(v: Timed, act: Action, d: nat, delay: nat)
    requires SteadyStep(v, act, d, delay) && CanFinish(Next(v, act), d, delay)
    ensures CanFinish(v, d, delay)
  {
    var acts, w :| SteadyRun(Next(v, act), acts, w, d, delay) && BothSucceeded(w.s);
    assert ([act] + acts)[1..] == acts;
    assert SteadyRun(v, [act] + acts, w, d, delay);
  }

  /** Passes both peers may still make. */
  ghost function PassesLeft(s: Pair, most: nat): int {
    2 * most + 2 - s.a.peer.passes - s.b.peer.passes
  }

  ghost function SendsDue(s: Pair): nat {
    (if s.a.peer.stage.Sending? then 1 else 0) + (if s.b.peer.stage.Sending? then 1 else 0)
  }

  ghost function UnderWay(s: Pair): int {
    |s.b.peer.sent| - s.a.arrived + |s.a.peer.sent| - s.b.arrived
  }

  lemma NextMoveShrinks(v: Timed, x: Side, most: nat)
    requires Enabled(Fifo, v.s, NextMove(v.s, x))
    ensures var s, t := v.s, Next(v, NextMove(v.s, x)).s;
      || PassesLeft(t, most) == PassesLeft(s, most) - 1
      || (PassesLeft(t, most) == PassesLeft(s, most) && SendsDue(t) == SendsDue(s) - 1)
      || (PassesLeft(t, most) == PassesLeft(s, most) && SendsDue(t) == SendsDue(s) && UnderWay(t) == UnderWay(s) - 1)
  {
    match NextMove(v.s, x)
    case Send(_) =>
    case Arrive(_, _) =>
    case Recv(_) =>
  }

  lemma RoomLeft(v: Timed, d: nat, delay: nat)
    requires Steady(v, d, delay)
    ensures PassesLeft(v.s, MostPasses(d, delay)) >= 0 && UnderWay(v.s) >= 0
  {
    FewPasses(v, A, d, delay);
    FewPasses(v, B, d, delay);
    assert SteadySide(v, A, d, delay) && SteadySide(v, B, d, delay);
  }

  lemma NobodyLeft(v: Timed, d: nat, delay: nat)
    requires Steady(v, d, delay) && !v.s.a.peer.Punching() && !v.s.b.peer.Punching()
    ensures CanFinish(v, d, delay)
  {
    FewPasses(v, A, d, delay);
    FewPasses(v, B, d, delay);
    assert SteadyRun(v, [], v, d, delay);
  }

  lemma UsefulMove(v: Timed, d: nat, delay: nat) returns (act: Action)
    requires Steady(v, d, delay) && WithinSkew(v.s, d) && d > 0
    requires v.s.a.peer.Punching() || v.s.b.peer.Punching()
    ensures act == NextMove(v.s, act.who) && SteadyStep(v, act, d, delay) && Steady(Next(v, act), d, delay)
  {
    var x := Behind(v.s);
    act := NextMove(v.s, x);
    assert SteadySide(v, x, d, delay);
    NextMoveFits(v, x, d, delay);
    StepKeepsSteady(v, act, d, delay);
  }

  lemma {:induction false} SteadyStateFinishes(v: Timed, d: nat, delay: nat, left: int, due: nat, underWay: int)
    requires Steady(v, d, delay) && WithinSkew(v.s, d) && d > 0
    requires left == PassesLeft(v.s, MostPasses(d, delay)) && due == SendsDue(v.s) && underWay == UnderWay(v.s)
    ensures CanFinish(v, d, delay)
    decreases left, due, underWay
  {
    RoomLeft(v, d, delay);
    if !v.s.a.peer.Punching() && !v.s.b.peer.Punching() {
      NobodyLeft(v, d, delay);
    } else {
      var act := UsefulMove(v, d, delay);
      NextMoveShrinks(v, act.who, MostPasses(d, delay));
      var w := Next(v, act);
      SteadyStateFinishes(w, d, delay, PassesLeft(w.s, MostPasses(d, delay)), SendsDue(w.s), UnderWay(w.s));
      StepFirst(v, act, d, delay);
    }
  }

  /** Every steady run, however far it has gone, extends to one in which both peers have succeeded. */
  lemma SteadyRunsFinish(acts: seq<Action>, v: Timed, d: nat, delay: nat)
    requires d > 0 && SteadyRun(TIMED_START, acts, v, d, delay)
    ensures CanFinish(v, d, delay)
  {
    StartsSteady(d, delay);
    SteadyRunKeeps(TIMED_START, acts, v, d, delay);
    SteadyStateFinishes(v, d, delay, PassesLeft(v.s, MostPasses(d, delay)), SendsDue(v.s), UnderWay(v.s));
  }

  // ---------------------------------------------------------------- delays cost passes

  /** Both at the loop head after as many passes, nothing having arrived. */
  ghost predicate Idle(v: Timed, n: nat) {
    && v.s.a.peer.stage.Sending? && v.s.a.inbox == [] && v.Passes(A) == |v.aMarks| == n
    && v.s.b.peer.stage.Sending? && v.s.b.inbox == [] && v.Passes(B) == |v.bMarks| == n
  }

  lemma IdleRound(v: Timed, n: nat, delay: nat) returns (v1: Timed, v2: Timed, v3: Timed, v4: Timed)
    requires Idle(v, n) && n < delay
    ensures SteadyStep(v, Send(A), 1, delay) && v1 == Next(v, Send(A))
    ensures SteadyStep(v1, Recv(A), 1, delay) && v2 == Next(v1, Recv(A))
    ensures SteadyStep(v2, Send(B), 1, delay) && v3 == Next(v2, Send(B))
    ensures SteadyStep(v3, Recv(B), 1, delay) && v4 == Next(v3, Recv(B))
    ensures Idle(v4, n + 1)
  {
    v1 := Next(v, Send(A));
    v2 := Next(v1, Recv(A));
    v3 := Next(v2, Send(B));
    v4 := Next(v3, Recv(B));
  }

  lemma Longer(v: Timed, act: Action, acts: seq<Action>, w: Timed, d: nat, delay: nat)
    requires SteadyStep(v, act, d, delay) && SteadyRun(Next(v, act), acts, w, d, delay)
    ensures SteadyRun(v, [act] + acts, w, d, delay)
  {
    assert ([act] + acts)[1..] == acts;
  }

  lemma {:induction false} IdleFor(v: Timed, n: nat, more: nat, delay: nat) returns (acts: seq<Action>, w: Timed)
    requires Idle(v, n) && n + more <= delay
    ensures SteadyRun(v, acts, w, 1, delay) && Idle(w, n + more)
    decreases more
  {
    if more == 0 {
      acts, w := [], v;
    } else {
      var v1, v2, v3, v4 := IdleRound(v, n, delay);
      acts, w := IdleFor(v4, n + 1, more - 1, delay);
      Longer(v3, Recv(B), acts, w, 1, delay);
      Longer(v2, Send(B), [Recv(B)] + acts, w, 1, delay);
      Longer(v1, Recv(A), [Send(B)] + ([Recv(B)] + acts), w, 1, delay);
      Longer(v, Send(A), [Recv(A)] + ([Send(B)] + ([Recv(B)] + acts)), w, 1, delay);
      acts := [Send(A)] + ([Recv(A)] + ([Send(B)] + ([Recv(B)] + acts)));
    }
  }

  /**
   No bound holds whatever the delay: for every number of passes there is a run, with the peers never
   more than one pass apart, on which both have made that many and are still punching.
   */
  lemma DelaysCostPasses(n: nat) returns (acts: seq<Action>, w: Timed)
    ensures SteadyRun(TIMED_START, acts, w, 1, n)
    ensures forall x: Side :: w.s.At(x).peer.Punching() && w.Passes(x) == n
  {
    acts, w := IdleFor(TIMED_START, 0, n, n);
  }
}
