/**
  Progress of the request/response system: what was sent reaches the peer as it was sent, a forwarded
  request can be answered until it is, and an answer that was sent reaches the waiting sender, unless
  the request fails or the sender stops.
*/
module RequestProgress {
  import opened Common
  import opened RequestResponse

  // ---------------------------------------------------------------- the stages of a request

  /** A sender at a running node waits for the answer to its request, and has been told nothing yet. */
  ghost predicate Awaits(s: System, r: Request, w: Waiter) {
    && r.node in s.running && r in s.pendingResponses && s.pendingResponses[r] == w
    && w in s.askedBy && s.askedBy[w] == r && w in s.resolved && s.resolved[w] == []
  }

  /** The request is on its way with this message. */
  ghost predicate OnWire(s: System, r: Request, to: NodeId, m: Message) {
    r in s.requests && s.requests[r] == (to, m)
  }

  /** The node asked has forwarded the request and keeps its reply channel under the id. */
  ghost predicate Kept(s: System, r: Request, key: Inbound) {
    key.node in s.running && key in s.pendingReplies && s.pendingReplies[key] == r
  }

  /** The answer is on its way back. */
  ghost predicate Replied(s: System, r: Request, m: Message) {
    r in s.responses && s.responses[r] == m
  }

  /** The request does not fail, and its sender does not stop. */
  predicate Harmless(e: Event, r: Request) {
    e != OutboundFailure(r) && e != Stop(r.node)
  }

  predicate LeavesRequest(e: Event, r: Request) {
    Harmless(e, r) && (e.DeliverBuiltIn? || e.DeliverForward? ==> e.r != r)
  }

  predicate LeavesChannel(e: Event, r: Request, key: Inbound) {
    Harmless(e, r) && (e.SendResponse? ==> e.key != key) && e != Stop(key.node)
  }

  predicate LeavesReply(e: Event, r: Request) {
    Harmless(e, r) && e != DeliverResponse(r)
  }

  // ---------------------------------------------------------------- one step

  /** Answering and forwarding tell nobody anything. */
  lemma AnsweringTellsNobody(s: System, e: Event)
    requires e.DeliverBuiltIn? || e.DeliverForward? || e.SendResponse?
    ensures var s' := Step(s, e);
      && s'.running == s.running && s'.pendingResponses == s.pendingResponses
      && s'.askedBy == s.askedBy && s'.resolved == s.resolved
  {
  }

  lemma SendKeepsAwaits(s: System, n: NodeId, to: NodeId, m: Message, x: Option<Waiter>, r: Request, w: Waiter)
    requires NumbersOk(s) && WaitersOk(s) && Awaits(s, r, w)
    ensures Awaits(StepSend(s, n, to, m, x), r, w)
  {
  }

  lemma RouteKeepsAwaits(s: System, q: Request, o: Outcome, r: Request, w: Waiter)
    requires WaitersOk(s) && q != r && Awaits(s, r, w)
    ensures Awaits(StepRoute(s, q, o), r, w)
  {
  }

  lemma StopKeepsAwaits(s: System, n: NodeId, r: Request, w: Waiter)
    requires WaitersOk(s) && n != r.node && Awaits(s, r, w)
    ensures Awaits(StepStop(s, n), r, w)
  {
    assert w !in WaitersAt(s, n);
  }

  lemma StepKeepsAwaits(s: System, e: Event, r: Request, w: Waiter)
    requires Inv(s) && Awaits(s, r, w) && LeavesReply(e, r)
    ensures Awaits(Step(s, e), r, w)
  {
    if e.Send? {
      SendKeepsAwaits(s, e.node, e.to, e.m, e.waiter, r, w);
    } else if e.DeliverResponse? {
      if e.r in s.responses {
        RouteKeepsAwaits(s, e.r, Answer(s.responses[e.r]), r, w);
      }
    } else if e.OutboundFailure? {
      RouteKeepsAwaits(s, e.r, SendFailed, r, w);
    } else if e.Stop? {
      StopKeepsAwaits(s, e.node, r, w);
    } else {
      AnsweringTellsNobody(s, e);
    }
  }

  /** While there is no reply on the wire, a delivery of one does nothing. */
  lemma UnansweredAwaits(s: System, e: Event, r: Request, w: Waiter)
    requires Inv(s) && Awaits(s, r, w) && Harmless(e, r) && r !in s.replies
    ensures Awaits(Step(s, e), r, w)
  {
    if e != DeliverResponse(r) {
      StepKeepsAwaits(s, e, r, w);
    }
  }

  lemma RespondingKeepsRequests(s: System, e: Event)
    requires e.SendResponse? || e.DeliverResponse? || e.OutboundFailure? || e.Stop?
    ensures Step(s, e).requests == s.requests
  {
  }

  lemma SendKeepsOnWire(s: System, e: Event, r: Request, to: NodeId, m: Message)
    requires NumbersOk(s) && RequestsOk(s) && e.Send? && OnWire(s, r, to, m)
    ensures OnWire(Step(s, e), r, to, m)
  {
  }

  lemma DeliveryKeepsOnWire(s: System, e: Event, r: Request, to: NodeId, m: Message)
    requires (e.DeliverBuiltIn? || e.DeliverForward?) && e.r != r && OnWire(s, r, to, m)
    ensures OnWire(Step(s, e), r, to, m)
  {
  }

  lemma StepKeepsOnWire(s: System, e: Event, r: Request, to: NodeId, m: Message)
    requires Inv(s) && OnWire(s, r, to, m) && LeavesRequest(e, r)
    ensures OnWire(Step(s, e), r, to, m)
  {
    if e.Send? {
      SendKeepsOnWire(s, e, r, to, m);
    } else if e.DeliverBuiltIn? || e.DeliverForward? {
      DeliveryKeepsOnWire(s, e, r, to, m);
    } else {
      RespondingKeepsRequests(s, e);
    }
  }

  lemma SendingKeepsChannels(s: System, n: NodeId, to: NodeId, m: Message, x: Option<Waiter>)
    ensures var s' := StepSend(s, n, to, m, x);
      s'.pendingReplies == s.pendingReplies && s'.running == s.running && s'.responses == s.responses
  {
  }

  lemma OthersKeepChannels(s: System, e: Event)
    requires e.DeliverBuiltIn? || e.DeliverResponse? || e.OutboundFailure?
    ensures Step(s, e).pendingReplies == s.pendingReplies && Step(s, e).running == s.running
  {
  }

  lemma ForwardKeepsOthers(s: System, e: Event, r: Request, key: Inbound)
    requires NumbersOk(s) && ChannelsOk(s) && e.DeliverForward? && Kept(s, r, key)
    ensures Kept(Step(s, e), r, key)
  {
  }

  lemma StepKeepsChannel(s: System, e: Event, r: Request, key: Inbound)
    requires Inv(s) && Kept(s, r, key) && LeavesChannel(e, r, key)
    ensures Kept(Step(s, e), r, key)
  {
    if e.DeliverForward? {
      ForwardKeepsOthers(s, e, r, key);
    } else if e.Send? {
      SendingKeepsChannels(s, e.node, e.to, e.m, e.waiter);
    } else if !e.SendResponse? && !e.Stop? {
      OthersKeepChannels(s, e);
    }
  }

  lemma OthersKeepResponses(s: System, e: Event)
    requires e.DeliverForward? || e.OutboundFailure? || e.Stop?
    ensures Step(s, e).responses == s.responses
  {
  }

  lemma BuiltInKeepsReplied(s: System, e: Event, r: Request, m: Message)
    requires RequestsOk(s) && RepliesOk(s) && e.DeliverBuiltIn? && Replied(s, r, m)
    ensures Replied(Step(s, e), r, m)
  {
  }

  lemma RespondKeepsReplied(s: System, e: Event, r: Request, m: Message)
    requires ChannelsOk(s) && RepliesOk(s) && e.SendResponse? && Replied(s, r, m)
    ensures Replied(Step(s, e), r, m)
  {
  }

  lemma StepKeepsReplied(s: System, e: Event, r: Request, m: Message)
    requires Inv(s) && Replied(s, r, m) && LeavesReply(e, r)
    ensures Replied(Step(s, e), r, m)
  {
    if e.DeliverBuiltIn? {
      BuiltInKeepsReplied(s, e, r, m);
    } else if e.SendResponse? {
      RespondKeepsReplied(s, e, r, m);
    } else if e.Send? {
      SendingKeepsChannels(s, e.node, e.to, e.m, e.waiter);
    } else if !e.DeliverResponse? {
      OthersKeepResponses(s, e);
    }
  }

  // ---------------------------------------------------------------- runs

  /** What was sent is what is on the wire until it is delivered, and its sender goes on waiting. */
  lemma {:induction false} RequestIsCarried(s: System, es: seq<Event>, r: Request, w: Waiter, to: NodeId, m: Message)
    requires Inv(s) && Awaits(s, r, w) && OnWire(s, r, to, m)
    requires forall i :: 0 <= i < |es| ==> LeavesRequest(es[i], r)
    ensures var s' := Run(s, es);
      Inv(s') && Awaits(s', r, w) && OnWire(s', r, to, m)
    decreases |es|
  {
    if es != [] {
      StepKeepsInv(s, es[0]);
      UnansweredAwaits(s, es[0], r, w);
      StepKeepsOnWire(s, es[0], r, to, m);
      RequestIsCarried(Step(s, es[0]), es[1..], r, w, to, m);
    }
  }

  /** A forwarded request keeps its channel until it is answered or the node stops. */
  lemma {:induction false} ChannelIsKept(s: System, es: seq<Event>, r: Request, w: Waiter, key: Inbound)
    requires Inv(s) && Awaits(s, r, w) && Kept(s, r, key)
    requires forall i :: 0 <= i < |es| ==> LeavesChannel(es[i], r, key)
    ensures var s' := Run(s, es);
      Inv(s') && Awaits(s', r, w) && Kept(s', r, key)
    decreases |es|
  {
    if es != [] {
      StepKeepsInv(s, es[0]);
      UnansweredAwaits(s, es[0], r, w);
      StepKeepsChannel(s, es[0], r, key);
      ChannelIsKept(Step(s, es[0]), es[1..], r, w, key);
    }
  }

  /** A reply stays on the wire until it is delivered. */
  lemma {:induction false} ReplyIsCarried(s: System, es: seq<Event>, r: Request, w: Waiter, m: Message)
    requires Inv(s) && Awaits(s, r, w) && Replied(s, r, m)
    requires forall i :: 0 <= i < |es| ==> LeavesReply(es[i], r)
    ensures var s' := Run(s, es);
      Inv(s') && Awaits(s', r, w) && Replied(s', r, m)
    decreases |es|
  {
    if es != [] {
      StepKeepsInv(s, es[0]);
      StepKeepsAwaits(s, es[0], r, w);
      StepKeepsReplied(s, es[0], r, m);
      ReplyIsCarried(Step(s, es[0]), es[1..], r, w, m);
    }
  }

  lemma SendKeepsOutcome(s: System, n: NodeId, to: NodeId, m: Message, x: Option<Waiter>, w: Waiter)
    requires WaitersOk(s) && w in s.askedBy
    ensures var s' := StepSend(s, n, to, m, x);
      w in s'.askedBy && w in s'.resolved && s'.resolved[w] == s.resolved[w]
  {
  }

  lemma RouteKeepsOutcome(s: System, q: Request, o: Outcome, w: Waiter)
    requires WaitersOk(s) && w in s.askedBy && !IsWaiting(s, w)
    ensures var s' := StepRoute(s, q, o);
      w in s'.askedBy && w in s'.resolved && s'.resolved[w] == s.resolved[w]
  {
  }

  lemma StopKeepsOutcome(s: System, n: NodeId, w: Waiter)
    requires WaitersOk(s) && w in s.askedBy && !IsWaiting(s, w)
    ensures var s' := StepStop(s, n);
      w in s'.askedBy && w in s'.resolved && s'.resolved[w] == s.resolved[w]
  {
    assert w !in WaitersAt(s, n);
  }

  lemma StepKeepsOutcome(s: System, e: Event, w: Waiter)
    requires Inv(s) && w in s.askedBy && |s.resolved[w]| == 1
    ensures var s' := Step(s, e);
      w in s'.askedBy && w in s'.resolved && s'.resolved[w] == s.resolved[w]
  {
    if e.Send? {
      SendKeepsOutcome(s, e.node, e.to, e.m, e.waiter, w);
    } else if e.DeliverResponse? {
      if e.r in s.responses {
        RouteKeepsOutcome(s, e.r, Answer(s.responses[e.r]), w);
      }
    } else if e.OutboundFailure? {
      RouteKeepsOutcome(s, e.r, SendFailed, w);
    } else if e.Stop? {
      StopKeepsOutcome(s, e.node, w);
    } else {
      AnsweringTellsNobody(s, e);
    }
  }

  /** What a sender was told stays the only thing it is told, whatever happens. */
  lemma {:induction false} OutcomeIsFinal(s: System, es: seq<Event>, w: Waiter)
    requires Inv(s) && w in s.askedBy && |s.resolved[w]| == 1
    ensures var s' := Run(s, es);
      w in s'.resolved && s'.resolved[w] == s.resolved[w]
    decreases |es|
  {
    if es != [] {
      StepKeepsInv(s, es[0]);
      StepKeepsOutcome(s, es[0], w);
      OutcomeIsFinal(Step(s, es[0]), es[1..], w);
    }
  }

  // ---------------------------------------------------------------- from one stage to the next

  /** A send puts the message on the wire under an id of its own, and its caller waits for that id. */
  lemma SendPutsOnWire(s: System, n: NodeId, to: NodeId, m: Message, w: Waiter)
    requires Inv(s) && n in s.running && n in s.nextOut && w !in s.askedBy
    ensures var r, s' := Request(n, s.nextOut[n]), Step(s, Send(n, to, m, Some(w)));
      r !in s.asked && OnWire(s', r, to, m) && Awaits(s', r, w)
  {
  }

  /** Forwarding takes the request off the wire and keeps its channel under a fresh id. */
  lemma ForwardKeepsChannel(s: System, r: Request, w: Waiter, to: NodeId, m: Message)
    requires Inv(s) && Awaits(s, r, w) && OnWire(s, r, to, m) && m.dataType in {Command, File}
    requires to in s.running && to in s.nextInbound
    ensures var key, s' := Inbound(to, s.nextInbound[to]), Step(s, DeliverForward(r, true));
      key !in s.registered && Kept(s', r, key) && Awaits(s', r, w) && r !in s'.requests
  {
  }

  /** Data and Info are answered with the text "OK". */
  lemma BuiltInReplies(s: System, r: Request, w: Waiter, to: NodeId, m: Message)
    requires Inv(s) && Awaits(s, r, w) && OnWire(s, r, to, m) && m.dataType in {Data, Info} && to in s.running
    ensures var s' := Step(s, DeliverBuiltIn(r, true));
      Replied(s', r, Message(m.dataType, "OK")) && Awaits(s', r, w) && r !in s'.requests
  {
  }

  /** A response that was sent is on the wire, and its channel is gone. */
  lemma ResponseReplies(s: System, r: Request, w: Waiter, key: Inbound, m: Message)
    requires Inv(s) && Awaits(s, r, w) && Kept(s, r, key)
    ensures var s' := Step(s, SendResponse(key, m, true));
      Replied(s', r, m) && Awaits(s', r, w) && key !in s'.pendingReplies
  {
  }

  lemma DeliveryTells(s: System, r: Request, w: Waiter, m: Message)
    requires Inv(s) && Awaits(s, r, w) && Replied(s, r, m)
    ensures var s' := Step(s, DeliverResponse(r));
      && w in s'.askedBy && w in s'.resolved && s'.resolved[w] == [Answer(m)]
      && r !in s'.pendingResponses && r !in s'.responses
  {
  }

  /** The tail of every exchange: a reply on the wire is carried, delivered, and told for good. */
  lemma ReplyArrives(s: System, r: Request, w: Waiter, m: Message, c: seq<Event>, d: seq<Event>)
    requires Inv(s) && Awaits(s, r, w) && Replied(s, r, m)
    requires forall i :: 0 <= i < |c| ==> LeavesReply(c[i], r)
    ensures var s' := Run(Step(Run(s, c), DeliverResponse(r)), d);
      w in s'.resolved && s'.resolved[w] == [Answer(m)]
  {
    ReplyIsCarried(s, c, r, w, m);
    var s1 := Run(s, c);
    DeliveryTells(s1, r, w, m);
    StepKeepsInv(s1, DeliverResponse(r));
    OutcomeIsFinal(Step(s1, DeliverResponse(r)), d, w);
  }

  // ---------------------------------------------------------------- whole exchanges

  /**
    A Command or File that is sent, forwarded, answered and whose answer is delivered: its sender is told
    exactly that answer, once and for good. In between anything may happen but a failure of the request
    and a stop of the sender, or of the node asked while it holds the channel.
  */
  lemma CommandIsAnswered(s: System, n: NodeId, to: NodeId, m: Message, w: Waiter, a: seq<Event>, b: seq<Event>,
                          reply: Message, c: seq<Event>, d: seq<Event>)
    requires Inv(s) && n in s.running && n in s.nextOut && w !in s.askedBy && m.dataType in {Command, File}
    requires forall i :: 0 <= i < |a| ==> LeavesRequest(a[i], Request(n, s.nextOut[n]))
    requires var s1 := Run(Step(s, Send(n, to, m, Some(w))), a);
      && to in s1.running && to in s1.nextInbound
      && forall i :: 0 <= i < |b| ==> LeavesChannel(b[i], Request(n, s.nextOut[n]), Inbound(to, s1.nextInbound[to]))
    requires forall i :: 0 <= i < |c| ==> LeavesReply(c[i], Request(n, s.nextOut[n]))
    ensures var r := Request(n, s.nextOut[n]);
      var s1 := Run(Step(s, Send(n, to, m, Some(w))), a);
      var key := Inbound(to, s1.nextInbound[to]);
      var s2 := Run(Step(s1, DeliverForward(r, true)), b);
      var s3 := Run(Step(s2, SendResponse(key, reply, true)), c);
      var s4 := Run(Step(s3, DeliverResponse(r)), d);
      && r in s1.requests && s1.requests[r] == (to, m)
      && key in s2.pendingReplies && s2.pendingReplies[key] == r
      && w in s4.resolved && s4.resolved[w] == [Answer(reply)]
  {
    var r := Request(n, s.nextOut[n]);
    SendPutsOnWire(s, n, to, m, w);
    var s0 := Step(s, Send(n, to, m, Some(w)));
    StepKeepsInv(s, Send(n, to, m, Some(w)));
    RequestIsCarried(s0, a, r, w, to, m);
    var s1 := Run(s0, a);
    var key := Inbound(to, s1.nextInbound[to]);
    ForwardKeepsChannel(s1, r, w, to, m);
    StepKeepsInv(s1, DeliverForward(r, true));
    ChannelIsKept(Step(s1, DeliverForward(r, true)), b, r, w, key);
    var s2 := Run(Step(s1, DeliverForward(r, true)), b);
    ResponseReplies(s2, r, w, key, reply);
    StepKeepsInv(s2, SendResponse(key, reply, true));
    ReplyArrives(Step(s2, SendResponse(key, reply, true)), r, w, reply, c, d);
  }

  /** Data and Info: their sender is told the OK of the node that was asked. */
  lemma DataIsAnswered(s: System, n: NodeId, to: NodeId, m: Message, w: Waiter, a: seq<Event>, c: seq<Event>,
                       d: seq<Event>)
    requires Inv(s) && n in s.running && n in s.nextOut && w !in s.askedBy && m.dataType in {Data, Info}
    requires forall i :: 0 <= i < |a| ==> LeavesRequest(a[i], Request(n, s.nextOut[n]))
    requires to in Run(Step(s, Send(n, to, m, Some(w))), a).running
    requires forall i :: 0 <= i < |c| ==> LeavesReply(c[i], Request(n, s.nextOut[n]))
    ensures var r := Request(n, s.nextOut[n]);
      var s1 := Run(Step(s, Send(n, to, m, Some(w))), a);
      var s2 := Run(Step(s1, DeliverBuiltIn(r, true)), c);
      var s3 := Run(Step(s2, DeliverResponse(r)), d);
      && r in s1.requests && s1.requests[r] == (to, m)
      && w in s3.resolved && s3.resolved[w] == [Answer(Message(m.dataType, "OK"))]
  {
    var r := Request(n, s.nextOut[n]);
    SendPutsOnWire(s, n, to, m, w);
    var s0 := Step(s, Send(n, to, m, Some(w)));
    StepKeepsInv(s, Send(n, to, m, Some(w)));
    RequestIsCarried(s0, a, r, w, to, m);
    var s1 := Run(s0, a);
    BuiltInReplies(s1, r, w, to, m);
    StepKeepsInv(s1, DeliverBuiltIn(r, true));
    ReplyArrives(Step(s1, DeliverBuiltIn(r, true)), r, w, Message(m.dataType, "OK"), c, d);
  }

  /** A request that fails tells its waiting sender so, once and for good. */
  lemma FailureIsTold(s: System, r: Request, w: Waiter, d: seq<Event>)
    requires Inv(s) && Awaits(s, r, w)
    ensures var s' := Run(Step(s, OutboundFailure(r)), d);
      w in s'.resolved && s'.resolved[w] == [SendFailed]
  {
    StepKeepsInv(s, OutboundFailure(r));
    OutcomeIsFinal(Step(s, OutboundFailure(r)), d, w);
  }

  /** A node that stops tells each of its waiting senders so, once and for good. */
  lemma StopIsTold(s: System, r: Request, w: Waiter, d: seq<Event>)
    requires Inv(s) && Awaits(s, r, w)
    ensures var s' := Run(Step(s, Stop(r.node)), d);
      w in s'.resolved && s'.resolved[w] == [Stopped]
  {
    assert w in WaitersAt(s, r.node);
    StepKeepsInv(s, Stop(r.node));
    OutcomeIsFinal(Step(s, Stop(r.node)), d, w);
  }
}
