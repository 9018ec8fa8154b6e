/**
 Two peers running the handshake against each other, one step per network action.

 A datagram is sent, later arrives in the other host's socket buffer (or never does), and is taken
 from there by the non-blocking recvfrom, which returns nothing exactly when the buffer is empty.
 The four networks differ only in which arrivals they allow, so everything proved for `Adversarial`
 holds for all of them.
 */
module PunchPair {
  import opened Common
  import opened Handshake

  datatype Event = Sent(who: Side, what: Message) | Got(who: Side, what: Message)

  /**
   A peer with its socket buffer; `arrived` counts the other side's datagrams that came this far,
   `dropped` those its NAT refused.
   */
  datatype Host = Host(peer: Peer, inbox: seq<Message>, arrived: nat, dropped: nat)

  datatype Pair = Pair(a: Host, b: Host, log: seq<Event>)
  {
    function At(x: Side): Host {
      if x.A? then a else b
    }

    function Sent(x: Side): seq<Message> {
      At(x).peer.sent
    }

    function Put(x: Side, h: Host, news: seq<Event>): Pair {
      if x.A? then Pair(h, b, log + news) else Pair(a, h, log + news)
    }
  }

  /**
   Adversarial: datagrams are lost, duplicated and reordered at will, but only sent ones arrive.
   Fifo: every datagram arrives once, in order, after any delay.
   Prompt: Fifo, and whatever was sent has arrived before the receiver polls its socket.
   Filtered: Fifo through NATs with address and port dependent filtering (RFC 4787, section 5): a
   datagram reaching a host that has not yet sent anything to the other is refused.
   */
  datatype Network = Adversarial | Fifo | Prompt | Filtered

  datatype Action =
    | Send(who: Side)
    | Recv(who: Side)
    | Quit(who: Side)
    | Chat(who: Side)
    | Arrive(who: Side, k: nat)
    | Drop(who: Side)

  const START := Pair(Host(FRESH, [], 0, 0), Host(FRESH, [], 0, 0), [])

  predicate Enabled(net: Network, s: Pair, act: Action) {
    var h := s.At(act.who);
    var coming := s.Sent(Opp(act.who));
    match act
    case Send(_) => h.peer.stage.Sending?
    case Recv(_) => h.peer.stage.Receiving? && (net.Prompt? ==> h.arrived == |coming|)
    case Quit(_) => h.peer.stage.Sending?
    case Chat(_) => h.peer.stage.Succeeded?
    case Arrive(_, k) =>
      && k < |coming|
      && (!net.Adversarial? ==> k == h.arrived)
      && (net.Filtered? ==> h.peer.sent != [])
    case Drop(_) =>
      && (net.Adversarial? || net.Filtered?)
      && h.arrived < |coming|
      && (net.Filtered? ==> h.peer.sent == [])
  }

  function Step(net: Network, s: Pair, act: Action): Pair
    requires Enabled(net, s, act)
  {
    var x := act.who;
    var h := s.At(x);
    match act
    case Send(_) => s.Put(x, h.(peer := SendReq(h.peer)), [Sent(x, Req)])
    case Recv(_) =>
      if h.inbox == [] then s.Put(x, h.(peer := Receive(h.peer, None)), [])
      else
        var m := h.inbox[0];
        s.Put(x, h.(peer := Receive(h.peer, Some(m)), inbox := h.inbox[1..]),
              if m.Req? then [Got(x, m), Sent(x, Ack)] else [Got(x, m)])
    case Quit(_) => s.Put(x, h.(peer := GiveUp(h.peer)), [])
    case Chat(_) => s.Put(x, h.(peer := Talk(h.peer)), [Sent(x, Other)])
    case Arrive(_, k) => s.Put(x, h.(inbox := h.inbox + [s.Sent(Opp(x))[k]], arrived := h.arrived + 1), [])
    case Drop(_) => s.Put(x, h.(arrived := h.arrived + 1, dropped := h.dropped + 1), [])
  }

  /** `acts` is a run of the pair from `s` to `t`. */
  ghost predicate Run(net: Network, s: Pair, acts: seq<Action>, t: Pair)
    decreases acts
  {
    if acts == [] then s == t
    else Enabled(net, s, acts[0]) && Run(net, Step(net, s, acts[0]), acts[1..], t)
  }

  ghost predicate Reachable(net: Network, s: Pair) {
    exists acts :: Run(net, START, acts, s)
  }

  // ---------------------------------------------------------------- what every run keeps

  /** Why an event could happen, given the events before it. */
  ghost predicate Explained(before: seq<Event>, e: Event) {
    match e
    case Got(x, m) => Sent(Opp(x), m) in before
    case Sent(x, Req) => Got(x, Ack) !in before
    case Sent(x, Ack) => before != [] && before[|before| - 1] == Got(x, Req) && Got(x, Ack) !in before
    case Sent(x, Other) => Got(x, Ack) in before
  }

  ghost predicate CausalLog(log: seq<Event>) {
    log == [] || (CausalLog(log[..|log| - 1]) && Explained(log[..|log| - 1], log[|log| - 1]))
  }

  ghost predicate SideSound(s: Pair, x: Side) {
    && Disciplined(s.At(x).peer)
    && (forall m :: m in s.At(x).inbox ==> m in s.Sent(Opp(x)))
    && (forall m :: Sent(x, m) in s.log <==> m in s.Sent(x))
    && (Got(x, Ack) in s.log <==> s.At(x).peer.stage.Succeeded?)
  }

  ghost predicate Sound(s: Pair) {
    SideSound(s, A) && SideSound(s, B) && CausalLog(s.log)
  }

  lemma LogGrows(log: seq<Event>, e: Event)
    requires CausalLog(log) && Explained(log, e)
    ensures CausalLog(log + [e])
  {
    assert (log + [e])[..|log|] == log;
  }

  lemma PeerStepDisciplined(net: Network, s: Pair, act: Action)
    requires Enabled(net, s, act) && Disciplined(s.At(act.who).peer)
    ensures Disciplined(Step(net, s, act).At(act.who).peer)
  {
    var h := s.At(act.who);
    match act
    case Send(_) => SendReqDisciplined(h.peer);
    case Recv(_) => ReceiveDisciplined(h.peer, if h.inbox == [] then None else Some(h.inbox[0]));
    case Quit(_) => LeaveDisciplined(h.peer);
    case Chat(_) => LeaveDisciplined(h.peer);
    case Arrive(_, k) =>
    case Drop(_) =>
  }

  lemma ReceiveLogCausal(log: seq<Event>, x: Side, m: Message)
    requires CausalLog(log) && Sent(Opp(x), m) in log && Got(x, Ack) !in log
    ensures CausalLog(log + if m.Req? then [Got(x, m), Sent(x, Ack)] else [Got(x, m)])
  {
    LogGrows(log, Got(x, m));
    if m.Req? {
      LogGrows(log + [Got(x, Req)], Sent(x, Ack));
      assert log + [Got(x, Req)] + [Sent(x, Ack)] == log + [Got(x, Req), Sent(x, Ack)];
    }
  }

  lemma StepLogCausal(net: Network, s: Pair, act: Action)
    requires Enabled(net, s, act) && CausalLog(s.log)
    requires Got(act.who, Ack) in s.log <==> s.At(act.who).peer.stage.Succeeded?
    requires forall m :: m in s.At(act.who).inbox ==> Sent(Opp(act.who), m) in s.log
    ensures CausalLog(Step(net, s, act).log)
  {
    var x := act.who;
    assert s.log + [] == s.log;
    match act
    case Send(_) => LogGrows(s.log, Sent(x, Req));
    case Recv(_) =>
      if s.At(x).inbox != [] {
        ReceiveLogCausal(s.log, x, s.At(x).inbox[0]);
      }
    case Chat(_) => LogGrows(s.log, Sent(x, Other));
    case _ =>
  }

  lemma StepKeepsInbox(net: Network, s: Pair, act: Action, x: Side, m: Message)
    requires Enabled(net, s, act)
    requires m in s.At(x).inbox ==> m in s.Sent(Opp(x))
    ensures m in Step(net, s, act).At(x).inbox ==> m in Step(net, s, act).Sent(Opp(x))
  {
    match act
    case Arrive(_, k) =>
    case _ =>
  }

  lemma StepKeepsSentLog(net: Network, s: Pair, act: Action, x: Side, m: Message)
    requires Enabled(net, s, act)
    requires Sent(x, m) in s.log <==> m in s.Sent(x)
    ensures Sent(x, m) in Step(net, s, act).log <==> m in Step(net, s, act).Sent(x)
  {
    match act
    case Recv(_) =>
    case _ =>
  }

  lemma StepKeepsSuccessLog(net: Network, s: Pair, act: Action, x: Side)
    requires Enabled(net, s, act)
    requires Got(x, Ack) in s.log <==> s.At(x).peer.stage.Succeeded?
    ensures Got(x, Ack) in Step(net, s, act).log <==> Step(net, s, act).At(x).peer.stage.Succeeded?
  {
    match act
    case Recv(_) =>
    case _ =>
  }

  lemma StepKeepsSide(net: Network, s: Pair, act: Action, x: Side)
    requires Enabled(net, s, act) && SideSound(s, x)
    ensures SideSound(Step(net, s, act), x)
  {
    if x == act.who {
      PeerStepDisciplined(net, s, act);
    }
    StepKeepsSuccessLog(net, s, act, x);
    var t := Step(net, s, act);
    forall m ensures m in t.At(x).inbox ==> m in t.Sent(Opp(x)) {
      StepKeepsInbox(net, s, act, x, m);
    }
    forall m ensures Sent(x, m) in t.log <==> m in t.Sent(x) {
      StepKeepsSentLog(net, s, act, x, m);
    }
  }

  lemma StepKeepsSound(net: Network, s: Pair, act: Action)
    requires Enabled(net, s, act) && Sound(s)
    ensures Sound(Step(net, s, act))
  {
    StepLogCausal(net, s, act);
    StepKeepsSide(net, s, act, A);
    StepKeepsSide(net, s, act, B);
  }

  lemma {:induction false} RunKeepsSound(net: Network, s: Pair, acts: seq<Action>, t: Pair)
    requires Run(net, s, acts, t) && Sound(s)
    ensures Sound(t)
    decreases acts
  {
    if acts == [] {
    } else {
      StepKeepsSound(net, s, acts[0]);
      RunKeepsSound(net, Step(net, s, acts[0]), acts[1..], t);
    }
  }

  lemma StartsSound()
    ensures Sound(START)
  {
  }

  lemma ReachableSound(net: Network, s: Pair)
    requires Reachable(net, s)
    ensures Sound(s)
  {
    StartsSound();
    var acts :| Run(net, START, acts, s);
    RunKeepsSound(net, START, acts, s);
  }

  // ---------------------------------------------------------------- causality

  lemma {:induction false} ExplainedAt(log: seq<Event>, k: nat)
    requires CausalLog(log) && k < |log|
    ensures Explained(log[..k], log[k])
  {
    if k == |log| - 1 {
    } else {
      ExplainedAt(log[..|log| - 1], k);
      assert log[..|log| - 1][..k] == log[..k];
    }
  }

  lemma AnswerBefore(log: seq<Event>, x: Side, k: nat) returns (j: nat)
    requires CausalLog(log) && k < |log| && log[k] == Got(x, Ack)
    ensures j + 1 < k && log[j] == Got(Opp(x), Req) && log[j + 1] == Sent(Opp(x), Ack)
  {
    ExplainedAt(log, k);
    var sent :| 0 <= sent < k && log[..k][sent] == Sent(Opp(x), Ack);
    ExplainedAt(log, sent);
    j := sent - 1;
  }

  lemma RequestBefore(log: seq<Event>, x: Side, j: nat) returns (i: nat)
    requires CausalLog(log) && j < |log| && log[j] == Got(Opp(x), Req)
    ensures i < j && log[i] == Sent(x, Req)
  {
    ExplainedAt(log, j);
    i :| 0 <= i < j && log[..j][i] == Sent(x, Req);
  }

  /**
   Success at x: a PUNCH_REQ of x reached the other peer, which answered it, and the answer reached
   x, in that order.
   */
  lemma SuccessMeansRoundTrip(net: Network, s: Pair, x: Side, k: nat)
    requires Reachable(net, s)
    requires k < |s.log| && s.log[k] == Got(x, Ack)
    ensures exists i: nat, j: nat ::
      && i < j < j + 1 < k
      && s.log[i] == Sent(x, Req)
      && s.log[j] == Got(Opp(x), Req)
      && s.log[j + 1] == Sent(Opp(x), Ack)
  {
    ReachableSound(net, s);
    var j := AnswerBefore(s.log, x, k);
    var i := RequestBefore(s.log, x, j);
    assert i < j < j + 1 < k;
  }

  /** The peer that makes the other leave had not been acknowledged when it sent its answer. */
  lemma AnswersBeforeLeaving(log: seq<Event>, x: Side, k: nat, l: nat) returns (j: nat)
    requires CausalLog(log) && k < |log| && log[k] == Got(x, Ack) && l < |log| && log[l] == Got(Opp(x), Ack)
    ensures j < k && log[j] == Sent(x, Ack)
  {
    ExplainedAt(log, l);
    j :| 0 <= j < l && log[..l][j] == Sent(x, Ack);
    ExplainedAt(log, j);
    PrefixMembers(log, j);
  }

  /** If both succeed, each sent its PUNCH_ACK before it received the one that made it leave. */
  lemma MutualAcknowledgement(net: Network, s: Pair, x: Side)
    requires Reachable(net, s)
    requires s.At(x).peer.stage.Succeeded? && s.At(Opp(x)).peer.stage.Succeeded?
    ensures exists j: nat, k: nat :: j < k < |s.log| && s.log[j] == Sent(x, Ack) && s.log[k] == Got(x, Ack)
  {
    ReachableSound(net, s);
    assert SideSound(s, x) && SideSound(s, Opp(x));
    var k :| 0 <= k < |s.log| && s.log[k] == Got(x, Ack);
    var l :| 0 <= l < |s.log| && s.log[l] == Got(Opp(x), Ack);
    var j := AnswersBeforeLeaving(s.log, x, k, l);
  }
}
