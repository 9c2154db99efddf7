/**
  Request/response correlation in a system of nodes: requests and replies on the wire, the
  waiting senders and the reply channels each node keeps. A node that has handled `Stop` takes
  no further step.
*/
module RequestResponse {
  import opened Common

  type NodeId = nat
  type Payload = string

  datatype DataType = Data | Info | Command | File
  datatype Message = Message(dataType: DataType, payload: Payload)

  /** A request as the swarm of its sender numbers it; a reply channel is bound to its request. */
  datatype Request = Request(node: NodeId, out: nat)

  /** The id a receiving node gives to a request it forwards. */
  datatype Inbound = Inbound(node: NodeId, id: nat)

  /** The oneshot of a waiting sender. */
  type Waiter = nat

  datatype Outcome = Answer(m: Message) | SendFailed | Stopped

  /** How a request was answered, and by which node. */
  datatype Reply = BuiltIn(node: NodeId, m: Message) | Sent(key: Inbound, m: Message)

  /** What was asked of which node. */
  datatype Question = Question(to: NodeId, dataType: DataType)

  datatype System = System(
    running: set<NodeId>,
    nextOut: map<NodeId, nat>,                    // counter of each swarm
    nextInbound: map<NodeId, nat>,
    pendingResponses: map<Request, Waiter>,       // of all nodes, keyed by sender and outbound id
    pendingReplies: map<Inbound, Request>,        // of all nodes: the reply channels kept
    requests: map<Request, (NodeId, Message)>,    // on the wire: destination and request
    responses: map<Request, Message>,             // on the wire
    // history
    asked: map<Request, Question>,                // every request ever sent
    askedBy: map<Waiter, Request>,                // every sender that ever waited
    resolved: map<Waiter, seq<Outcome>>,          // what each of them was sent
    registered: map<Inbound, Request>,            // every inbound id ever given out
    taken: set<Inbound>,                          // reply channels taken so far
    replies: map<Request, Reply>)

  function Init(ids: set<NodeId>): System {
    System(ids, map n | n in ids :: 0, map n | n in ids :: 1,
           map[], map[], map[], map[], map[], map[], map[], map[], {}, map[])
  }

  const OK: Payload := "OK"

  /** `SendData`: the swarm numbers the request; only a caller that waits is registered. */
  function StepSend(s: System, n: NodeId, to: NodeId, m: Message, waiter: Option<Waiter>): System {
    if n !in s.running || n !in s.nextOut || (waiter.Some? && waiter.value in s.askedBy) then s
    else
      var r := Request(n, s.nextOut[n]);
      var nextOut, requests := s.nextOut[n := r.out + 1], s.requests[r := (to, m)];
      var asked := s.asked[r := Question(to, m.dataType)];
      if waiter.None? then s.(nextOut := nextOut, requests := requests, asked := asked)
      else
        s.(nextOut := nextOut, requests := requests, asked := asked,
           pendingResponses := s.pendingResponses[r := waiter.value],
           askedBy := s.askedBy[waiter.value := r],
           resolved := s.resolved[waiter.value := []])
  }

  function Answered(s: System, r: Request, reply: Reply, sent: bool): System {
    s.(replies := s.replies[r := reply],
       responses := if sent then s.responses[r := reply.m] else s.responses)
  }

  /** Data and Info are answered on the spot, without the orchestrator. */
  function StepBuiltIn(s: System, r: Request, sent: bool): System {
    if r !in s.requests || s.requests[r].0 !in s.running || s.requests[r].1.dataType !in {Data, Info} then s
    else
      var (node, m) := s.requests[r];
      Answered(s.(requests := s.requests - {r}), r, BuiltIn(node, Message(m.dataType, OK)), sent)
  }

  /** `Register_Inbound` of a Command or File; the channel is dropped when forwarding fails. */
  function StepRegister(s: System, r: Request, forwarded: bool): System {
    if r !in s.requests || s.requests[r].0 !in s.running || s.requests[r].0 !in s.nextInbound
       || s.requests[r].1.dataType !in {Command, File} then s
    else
      var n := s.requests[r].0;
      var key := Inbound(n, s.nextInbound[n]);
      s.(requests := s.requests - {r},
         nextInbound := s.nextInbound[n := key.id + 1],
         registered := s.registered[key := r],
         pendingReplies := if forwarded then s.pendingReplies[key := r] else s.pendingReplies)
  }

  /** `SendResponse` takes the reply channel of the id, if there is one. */
  function StepRespond(s: System, key: Inbound, m: Message, sent: bool): System {
    if key.node !in s.running || key !in s.pendingReplies then s
    else
      Answered(s.(pendingReplies := s.pendingReplies - {key}, taken := s.taken + {key}),
               s.pendingReplies[key], Sent(key, m), sent)
  }

  /** `Route_Response` and `Route_Failure`: the waiter of the outbound id, if any, is told. */
  function StepRoute(s: System, r: Request, o: Outcome): System {
    if r.node !in s.running || r !in s.pendingResponses then s
    else
      var w := s.pendingResponses[r];
      s.(pendingResponses := s.pendingResponses - {r},
         resolved := s.resolved[w := (if w in s.resolved then s.resolved[w] else []) + [o]])
  }

  function StepDeliverResponse(s: System, r: Request): System {
    if r !in s.responses || r.node !in s.running then s
    else StepRoute(s, r, Answer(s.responses[r])).(responses := s.responses - {r})
  }

  function WaitersAt(s: System, n: NodeId): set<Waiter> {
    set r | r in s.pendingResponses && r.node == n :: s.pendingResponses[r]
  }

  /** `Stop` clears both maps of the node; every waiter left is told. */
  function StepStop(s: System, n: NodeId): System {
    if n !in s.running then s
    else
      s.(running := s.running - {n},
         pendingResponses := map r | r in s.pendingResponses && r.node != n :: s.pendingResponses[r],
         pendingReplies := map k | k in s.pendingReplies && k.node != n :: s.pendingReplies[k],
         resolved := map w | w in s.resolved ::
           if w in WaitersAt(s, n) then s.resolved[w] + [Stopped] else s.resolved[w])
  }

  datatype Event =
    | Send(node: NodeId, to: NodeId, m: Message, waiter: Option<Waiter>)
    | DeliverBuiltIn(r: Request, sent: bool)
    | DeliverForward(r: Request, forwarded: bool)
    | SendResponse(key: Inbound, m: Message, sent: bool)
    | DeliverResponse(r: Request)
    | OutboundFailure(r: Request)
    | Stop(node: NodeId)

  function Step(s: System, e: Event): System {
    match e
    case Send(n, to, m, w) => StepSend(s, n, to, m, w)
    case DeliverBuiltIn(r, sent) => StepBuiltIn(s, r, sent)
    case DeliverForward(r, forwarded) => StepRegister(s, r, forwarded)
    case SendResponse(key, m, sent) => StepRespond(s, key, m, sent)
    case DeliverResponse(r) => StepDeliverResponse(s, r)
    case OutboundFailure(r) => StepRoute(s, r, SendFailed)
    case Stop(n) => StepStop(s, n)
  }

  function Run(s: System, es: seq<Event>): System
    decreases |es|
  {
    if es == [] then s else Run(Step(s, es[0]), es[1..])
  }

  // ---------------------------------------------------------------- invariants

  /** Waiters and their requests belong together. */
  ghost predicate WaitersOk(s: System) {
    && s.resolved.Keys == s.askedBy.Keys
    && (forall w :: w in s.askedBy ==> s.askedBy[w] in s.asked)
    && (forall r :: r in s.pendingResponses ==>
          s.pendingResponses[r] in s.askedBy && s.askedBy[s.pendingResponses[r]] == r)
  }

  ghost predicate IsWaiting(s: System, w: Waiter) {
    w in s.askedBy && s.askedBy[w] in s.pendingResponses && s.pendingResponses[s.askedBy[w]] == w
  }

  /** Each waiter has been told nothing while it is registered, and exactly one thing afterwards. */
  ghost predicate ResolvedOnce(s: System) {
    forall w :: w in s.askedBy && w in s.resolved ==> |s.resolved[w]| == if IsWaiting(s, w) then 0 else 1
  }

  ghost predicate NumbersOk(s: System) {
    && (forall r :: r in s.asked ==> r.node in s.nextOut && r.out < s.nextOut[r.node])
    && (forall k :: k in s.registered ==> k.node in s.nextInbound && k.id < s.nextInbound[k.node])
  }

  /** A request on the wire is neither answered nor registered yet. */
  ghost predicate RequestsOk(s: System) {
    && (forall r :: r in s.requests ==>
          r in s.asked && Question(s.requests[r].0, s.requests[r].1.dataType) == s.asked[r] && r !in s.replies)
    && (forall r, k :: r in s.requests && k in s.registered ==> s.registered[k] != r)
  }

  /** Every forwarded request has one inbound id of its own, given out by the node that was asked. */
  ghost predicate RegisteredOk(s: System) {
    && (forall k :: k in s.registered ==>
          s.registered[k] in s.asked && s.asked[s.registered[k]].to == k.node
          && s.asked[s.registered[k]].dataType in {Command, File})
    && (forall k, l :: k in s.registered && l in s.registered && s.registered[k] == s.registered[l] ==> k == l)
  }

  /** A reply channel kept under an id is the one registered there, not used yet. */
  ghost predicate ChannelsOk(s: System) {
    && s.taken <= s.registered.Keys
    && (forall k :: k in s.pendingReplies ==>
          && k in s.registered && s.registered[k] == s.pendingReplies[k]
          && k !in s.taken && s.pendingReplies[k] !in s.replies)
  }

  /**
    The built-in OK of a Data/Info request, or what was sent for the id of this very request; either
    way by the node the request was addressed to.
  */
  ghost predicate IsReplyTo(s: System, r: Request, reply: Reply) {
    r in s.asked &&
    match reply
    case BuiltIn(node, m) =>
      node == s.asked[r].to && s.asked[r].dataType in {Data, Info} && m == Message(s.asked[r].dataType, OK)
    case Sent(k, m) =>
      k.node == s.asked[r].to && s.asked[r].dataType in {Command, File}
      && k in s.registered && s.registered[k] == r && k in s.taken
  }

  ghost predicate RepliesOk(s: System) {
    && (forall r :: r in s.replies ==> IsReplyTo(s, r, s.replies[r]))
    && (forall r :: r in s.responses ==> r in s.replies && s.replies[r].m == s.responses[r])
  }

  /** An answer a waiter got is the reply to its own request. */
  ghost predicate AnswersOk(s: System) {
    forall w :: w in s.askedBy && w in s.resolved ==>
      forall i {:trigger s.resolved[w][i]} :: 0 <= i < |s.resolved[w]| && s.resolved[w][i].Answer? ==>
        s.askedBy[w] in s.replies && s.replies[s.askedBy[w]].m == s.resolved[w][i].m
  }

  /** Nothing is pending at a node that has stopped. */
  ghost predicate StoppedOk(s: System) {
    && (forall r :: r in s.pendingResponses ==> r.node in s.running)
    && (forall k :: k in s.pendingReplies ==> k.node in s.running)
  }

  ghost predicate Inv(s: System) {
    WaitersOk(s) && ResolvedOnce(s) && NumbersOk(s) && RequestsOk(s) && RegisteredOk(s)
    && ChannelsOk(s) && RepliesOk(s) && AnswersOk(s) && StoppedOk(s)
  }

  lemma SendKeepsWaitersOk(s: System, n: NodeId, to: NodeId, m: Message, waiter: Option<Waiter>)
    requires WaitersOk(s) && NumbersOk(s)
    ensures WaitersOk(StepSend(s, n, to, m, waiter))
  {
  }

  lemma SendKeepsResolvedOnce(s: System, n: NodeId, to: NodeId, m: Message, waiter: Option<Waiter>)
    requires WaitersOk(s) && ResolvedOnce(s) && NumbersOk(s)
    ensures ResolvedOnce(StepSend(s, n, to, m, waiter))
  {
  }

  lemma SendKeepsWaiters(s: System, n: NodeId, to: NodeId, m: Message, waiter: Option<Waiter>)
    requires Inv(s)
    ensures WaitersOk(StepSend(s, n, to, m, waiter))
    ensures ResolvedOnce(StepSend(s, n, to, m, waiter))
    ensures StoppedOk(StepSend(s, n, to, m, waiter))
  {
    SendKeepsWaitersOk(s, n, to, m, waiter);
    SendKeepsResolvedOnce(s, n, to, m, waiter);
  }

  lemma SendKeepsNumbersOk(s: System, n: NodeId, to: NodeId, m: Message, waiter: Option<Waiter>)
    requires Inv(s)
    ensures NumbersOk(StepSend(s, n, to, m, waiter))
  {
  }

  lemma SendKeepsRequestsOk(s: System, n: NodeId, to: NodeId, m: Message, waiter: Option<Waiter>)
    requires Inv(s)
    ensures RequestsOk(StepSend(s, n, to, m, waiter))
  {
  }

  lemma SendKeepsRegisteredOk(s: System, n: NodeId, to: NodeId, m: Message, waiter: Option<Waiter>)
    requires Inv(s)
    ensures RegisteredOk(StepSend(s, n, to, m, waiter))
  {
  }

  lemma SendKeepsChannelsOk(s: System, n: NodeId, to: NodeId, m: Message, waiter: Option<Waiter>)
    requires Inv(s)
    ensures ChannelsOk(StepSend(s, n, to, m, waiter))
  {
  }

  lemma SendKeepsChannels(s: System, n: NodeId, to: NodeId, m: Message, waiter: Option<Waiter>)
    requires Inv(s)
    ensures NumbersOk(StepSend(s, n, to, m, waiter))
    ensures RequestsOk(StepSend(s, n, to, m, waiter))
    ensures RegisteredOk(StepSend(s, n, to, m, waiter))
    ensures ChannelsOk(StepSend(s, n, to, m, waiter))
  {
    SendKeepsNumbersOk(s, n, to, m, waiter);
    SendKeepsRequestsOk(s, n, to, m, waiter);
    SendKeepsRegisteredOk(s, n, to, m, waiter);
    SendKeepsChannelsOk(s, n, to, m, waiter);
  }

  lemma SendKeepsRepliesOk(s: System, n: NodeId, to: NodeId, m: Message, waiter: Option<Waiter>)
    requires RepliesOk(s) && NumbersOk(s)
    ensures RepliesOk(StepSend(s, n, to, m, waiter))
  {
  }

  lemma SendKeepsAnswersOk(s: System, n: NodeId, to: NodeId, m: Message, waiter: Option<Waiter>)
    requires WaitersOk(s) && AnswersOk(s)
    ensures AnswersOk(StepSend(s, n, to, m, waiter))
  {
  }

  lemma SendKeepsReplies(s: System, n: NodeId, to: NodeId, m: Message, waiter: Option<Waiter>)
    requires Inv(s)
    ensures RepliesOk(StepSend(s, n, to, m, waiter))
    ensures AnswersOk(StepSend(s, n, to, m, waiter))
  {
    SendKeepsRepliesOk(s, n, to, m, waiter);
    SendKeepsAnswersOk(s, n, to, m, waiter);
  }

  lemma BuiltInKeepsWaiters(s: System, r: Request, sent: bool)
    requires Inv(s)
    ensures WaitersOk(StepBuiltIn(s, r, sent))
    ensures ResolvedOnce(StepBuiltIn(s, r, sent))
    ensures StoppedOk(StepBuiltIn(s, r, sent))
  {
  }

  lemma BuiltInKeepsChannels(s: System, r: Request, sent: bool)
    requires Inv(s)
    ensures NumbersOk(StepBuiltIn(s, r, sent))
    ensures RequestsOk(StepBuiltIn(s, r, sent))
    ensures RegisteredOk(StepBuiltIn(s, r, sent))
    ensures ChannelsOk(StepBuiltIn(s, r, sent))
  {
  }

  lemma BuiltInKeepsReplies(s: System, r: Request, sent: bool)
    requires Inv(s)
    ensures RepliesOk(StepBuiltIn(s, r, sent))
    ensures AnswersOk(StepBuiltIn(s, r, sent))
  {
  }

  lemma RegisterKeepsWaiters(s: System, r: Request, forwarded: bool)
    requires Inv(s)
    ensures WaitersOk(StepRegister(s, r, forwarded))
    ensures ResolvedOnce(StepRegister(s, r, forwarded))
    ensures StoppedOk(StepRegister(s, r, forwarded))
  {
  }

  lemma RegisterKeepsRequests(s: System, r: Request, forwarded: bool)
    requires NumbersOk(s) && RequestsOk(s)
    ensures NumbersOk(StepRegister(s, r, forwarded))
    ensures RequestsOk(StepRegister(s, r, forwarded))
  {
  }

  lemma RegisterKeepsRegisteredOk(s: System, r: Request, forwarded: bool)
    requires NumbersOk(s) && RequestsOk(s) && RegisteredOk(s)
    ensures RegisteredOk(StepRegister(s, r, forwarded))
  {
  }

  lemma RegisterKeepsChannelsOk(s: System, r: Request, forwarded: bool)
    requires NumbersOk(s) && RequestsOk(s) && ChannelsOk(s)
    ensures ChannelsOk(StepRegister(s, r, forwarded))
  {
  }

  lemma RegisterKeepsChannels(s: System, r: Request, forwarded: bool)
    requires Inv(s)
    ensures NumbersOk(StepRegister(s, r, forwarded))
    ensures RequestsOk(StepRegister(s, r, forwarded))
    ensures RegisteredOk(StepRegister(s, r, forwarded))
    ensures ChannelsOk(StepRegister(s, r, forwarded))
  {
    RegisterKeepsRequests(s, r, forwarded);
    RegisterKeepsRegisteredOk(s, r, forwarded);
    RegisterKeepsChannelsOk(s, r, forwarded);
  }

  lemma RegisterKeepsReplies(s: System, r: Request, forwarded: bool)
    requires Inv(s)
    ensures RepliesOk(StepRegister(s, r, forwarded))
    ensures AnswersOk(StepRegister(s, r, forwarded))
  {
  }

  lemma RespondKeepsWaiters(s: System, key: Inbound, m: Message, sent: bool)
    requires Inv(s)
    ensures WaitersOk(StepRespond(s, key, m, sent))
    ensures ResolvedOnce(StepRespond(s, key, m, sent))
    ensures StoppedOk(StepRespond(s, key, m, sent))
  {
  }

  lemma RespondKeepsChannels(s: System, key: Inbound, m: Message, sent: bool)
    requires Inv(s)
    ensures NumbersOk(StepRespond(s, key, m, sent))
    ensures RequestsOk(StepRespond(s, key, m, sent))
    ensures RegisteredOk(StepRespond(s, key, m, sent))
    ensures ChannelsOk(StepRespond(s, key, m, sent))
  {
  }

  lemma RespondKeepsRepliesOk(s: System, key: Inbound, m: Message, sent: bool)
    requires RepliesOk(s) && RegisteredOk(s) && ChannelsOk(s)
    ensures RepliesOk(StepRespond(s, key, m, sent))
  {
  }

  lemma RespondKeepsAnswersOk(s: System, key: Inbound, m: Message, sent: bool)
    requires ChannelsOk(s) && AnswersOk(s)
    ensures AnswersOk(StepRespond(s, key, m, sent))
  {
  }

  lemma RespondKeepsReplies(s: System, key: Inbound, m: Message, sent: bool)
    requires Inv(s)
    ensures RepliesOk(StepRespond(s, key, m, sent))
    ensures AnswersOk(StepRespond(s, key, m, sent))
  {
    RespondKeepsRepliesOk(s, key, m, sent);
    RespondKeepsAnswersOk(s, key, m, sent);
  }

  lemma RouteKeepsWaiters(s: System, r: Request, o: Outcome)
    requires Inv(s)
    requires o.Answer? ==> r in s.replies && s.replies[r].m == o.m
    ensures WaitersOk(StepRoute(s, r, o))
    ensures ResolvedOnce(StepRoute(s, r, o))
    ensures StoppedOk(StepRoute(s, r, o))
  {
  }

  lemma RouteKeepsChannels(s: System, r: Request, o: Outcome)
    requires Inv(s)
    requires o.Answer? ==> r in s.replies && s.replies[r].m == o.m
    ensures NumbersOk(StepRoute(s, r, o))
    ensures RequestsOk(StepRoute(s, r, o))
    ensures RegisteredOk(StepRoute(s, r, o))
    ensures ChannelsOk(StepRoute(s, r, o))
  {
  }

  lemma RouteKeepsReplies(s: System, r: Request, o: Outcome)
    requires Inv(s)
    requires o.Answer? ==> r in s.replies && s.replies[r].m == o.m
    ensures RepliesOk(StepRoute(s, r, o))
    ensures AnswersOk(StepRoute(s, r, o))
  {
  }

  lemma StopKeepsWaitersOk(s: System, n: NodeId)
    requires Inv(s)
    ensures WaitersOk(StepStop(s, n))
  {
  }

  lemma StopKeepsResolvedOnce(s: System, n: NodeId)
    requires Inv(s)
    ensures ResolvedOnce(StepStop(s, n))
  {
  }

  lemma StopKeepsStoppedOk(s: System, n: NodeId)
    requires Inv(s)
    ensures StoppedOk(StepStop(s, n))
  {
  }

  lemma StopKeepsWaiters(s: System, n: NodeId)
    requires Inv(s)
    ensures WaitersOk(StepStop(s, n))
    ensures ResolvedOnce(StepStop(s, n))
    ensures StoppedOk(StepStop(s, n))
  {
    StopKeepsWaitersOk(s, n);
    StopKeepsResolvedOnce(s, n);
    StopKeepsStoppedOk(s, n);
  }

  lemma StopKeepsNumbersOk(s: System, n: NodeId)
    requires Inv(s)
    ensures NumbersOk(StepStop(s, n))
  {
  }

  lemma StopKeepsRequestsOk(s: System, n: NodeId)
    requires Inv(s)
    ensures RequestsOk(StepStop(s, n))
  {
  }

  lemma StopKeepsRegisteredOk(s: System, n: NodeId)
    requires Inv(s)
    ensures RegisteredOk(StepStop(s, n))
  {
  }

  lemma StopKeepsChannelsOk(s: System, n: NodeId)
    requires Inv(s)
    ensures ChannelsOk(StepStop(s, n))
  {
  }

  lemma StopKeepsChannels(s: System, n: NodeId)
    requires Inv(s)
    ensures NumbersOk(StepStop(s, n))
    ensures RequestsOk(StepStop(s, n))
    ensures RegisteredOk(StepStop(s, n))
    ensures ChannelsOk(StepStop(s, n))
  {
    StopKeepsNumbersOk(s, n);
    StopKeepsRequestsOk(s, n);
    StopKeepsRegisteredOk(s, n);
    StopKeepsChannelsOk(s, n);
  }

  lemma StopKeepsRepliesOk(s: System, n: NodeId)
    requires RepliesOk(s)
    ensures RepliesOk(StepStop(s, n))
  {
  }

  lemma StopKeepsAnswersOk(s: System, n: NodeId)
    requires AnswersOk(s)
    ensures AnswersOk(StepStop(s, n))
  {
  }

  lemma StopKeepsReplies(s: System, n: NodeId)
    requires Inv(s)
    ensures RepliesOk(StepStop(s, n))
    ensures AnswersOk(StepStop(s, n))
  {
    StopKeepsRepliesOk(s, n);
    StopKeepsAnswersOk(s, n);
  }

  lemma StepKeepsInv(s: System, e: Event)
    requires Inv(s)
    ensures Inv(Step(s, e))
  {
    match e
    case Send(n, to, m, w) =>
      SendKeepsWaiters(s, n, to, m, w);
      SendKeepsChannels(s, n, to, m, w);
      SendKeepsReplies(s, n, to, m, w);
    case DeliverBuiltIn(r, sent) =>
      BuiltInKeepsWaiters(s, r, sent);
      BuiltInKeepsChannels(s, r, sent);
      BuiltInKeepsReplies(s, r, sent);
    case DeliverForward(r, forwarded) =>
      RegisterKeepsWaiters(s, r, forwarded);
      RegisterKeepsChannels(s, r, forwarded);
      RegisterKeepsReplies(s, r, forwarded);
    case SendResponse(key, m, sent) =>
      RespondKeepsWaiters(s, key, m, sent);
      RespondKeepsChannels(s, key, m, sent);
      RespondKeepsReplies(s, key, m, sent);
    case DeliverResponse(r) =>
      if r in s.responses {
        RouteKeepsInv(s, r, Answer(s.responses[r]));
        DroppingResponseKeepsInv(StepRoute(s, r, Answer(s.responses[r])), r);
      }
    case OutboundFailure(r) => RouteKeepsInv(s, r, SendFailed);
    case Stop(n) =>
      StopKeepsWaiters(s, n);
      StopKeepsChannels(s, n);
      StopKeepsReplies(s, n);
  }

  lemma RouteKeepsInv(s: System, r: Request, o: Outcome)
    requires Inv(s)
    requires o.Answer? ==> r in s.replies && s.replies[r].m == o.m
    ensures Inv(StepRoute(s, r, o))
  {
    RouteKeepsWaiters(s, r, o);
    RouteKeepsChannels(s, r, o);
    RouteKeepsReplies(s, r, o);
  }

  lemma DroppingResponseKeepsInv(s: System, r: Request)
    requires Inv(s)
    ensures Inv(s.(responses := s.responses - {r}))
  {
    var s' := s.(responses := s.responses - {r});
    assert RepliesOk(s');
    assert AnswersOk(s') && WaitersOk(s') && ResolvedOnce(s');
  }

  lemma InitInv(ids: set<NodeId>)
    ensures Inv(Init(ids))
  {
  }

  /** The invariant holds in every state of every run. */
  lemma {:induction false} RunKeepsInv(s: System, es: seq<Event>)
    requires Inv(s)
    ensures Inv(Run(s, es))
    decreases |es|
  {
    if es != [] {
      StepKeepsInv(s, es[0]);
      RunKeepsInv(Step(s, es[0]), es[1..]);
    }
  }

  /**
    Over every run: a waiting sender is told at most one thing; an answer it gets is the reply to its
    own request by the node it was addressed to; at a stopped node every sender has been told exactly
    one thing.
  */
  lemma WaitersGetTheirOwnAnswer(ids: set<NodeId>, es: seq<Event>, w: Waiter)
    requires w in Run(Init(ids), es).askedBy
    ensures var s := Run(Init(ids), es);
      var r := s.askedBy[w];
      && w in s.resolved && |s.resolved[w]| <= 1
      && (|s.resolved[w]| == 1 && s.resolved[w][0].Answer? ==>
            r in s.replies && IsReplyTo(s, r, s.replies[r]) && s.replies[r].m == s.resolved[w][0].m)
      && (r.node !in s.running ==> |s.resolved[w]| == 1)
  {
    InitInv(ids);
    RunKeepsInv(Init(ids), es);
    var s := Run(Init(ids), es);
    if |s.resolved[w]| == 1 && s.resolved[w][0].Answer? {
      assert s.askedBy[w] in s.replies;
    }
    assert IsWaiting(s, w) ==> s.askedBy[w].node in s.running;
  }

  /** An inbound id is never given out twice. */
  lemma InboundIdsFresh(s: System, r: Request, forwarded: bool)
    requires Inv(s) && StepRegister(s, r, forwarded) != s
    ensures var n := s.requests[r].0;
      var key := Inbound(n, s.nextInbound[n]);
      key !in s.registered && key !in s.pendingReplies && key !in s.taken
      && StepRegister(s, r, forwarded).registered == s.registered[key := r]
  {
  }

  lemma StepStartsNoNode(s: System, e: Event)
    ensures Step(s, e).running <= s.running
  {
    match e
    case Send(_, _, _, _) =>
    case DeliverBuiltIn(_, _) =>
    case DeliverForward(_, _) =>
    case SendResponse(_, _, _) =>
    case DeliverResponse(_) =>
    case OutboundFailure(_) =>
    case Stop(_) =>
  }

  lemma StepTakenGrows(s: System, e: Event)
    ensures s.taken <= Step(s, e).taken
  {
    match e
    case Send(_, _, _, _) =>
    case DeliverBuiltIn(_, _) =>
    case DeliverForward(_, _) =>
    case SendResponse(_, _, _) =>
    case DeliverResponse(_) =>
    case OutboundFailure(_) =>
    case Stop(_) =>
  }

  lemma {:induction false} RunGrows(s: System, es: seq<Event>)
    ensures Run(s, es).running <= s.running
    ensures s.taken <= Run(s, es).taken
    decreases |es|
  {
    if es != [] {
      StepStartsNoNode(s, es[0]);
      StepTakenGrows(s, es[0]);
      RunGrows(Step(s, es[0]), es[1..]);
    }
  }

  /** A reply channel that was taken is gone for good: a second answer for its id does nothing. */
  lemma TakenStaysTaken(s: System, es: seq<Event>, key: Inbound, m: Message, sent: bool)
    requires Inv(s) && key in s.taken
    ensures key in Run(s, es).taken && StepRespond(Run(s, es), key, m, sent) == Run(s, es)
  {
    RunGrows(s, es);
    RunKeepsInv(s, es);
  }

  lemma BuiltInKeepsReply(s: System, q: Request, sent: bool, r: Request)
    requires RequestsOk(s) && r in s.replies
    ensures r in StepBuiltIn(s, q, sent).replies && StepBuiltIn(s, q, sent).replies[r] == s.replies[r]
  {
  }

  lemma RespondKeepsReply(s: System, key: Inbound, m: Message, sent: bool, r: Request)
    requires ChannelsOk(s) && r in s.replies
    ensures r in StepRespond(s, key, m, sent).replies && StepRespond(s, key, m, sent).replies[r] == s.replies[r]
  {
  }

  lemma RoutingAnswersNothing(s: System, e: Event)
    requires e.DeliverResponse? || e.OutboundFailure? || e.Stop?
    ensures Step(s, e).replies == s.replies
  {
  }

  lemma SendingAnswersNothing(s: System, e: Event)
    requires e.Send?
    ensures Step(s, e).replies == s.replies
  {
  }

  lemma ForwardingAnswersNothing(s: System, e: Event)
    requires e.DeliverForward?
    ensures Step(s, e).replies == s.replies
  {
  }

  lemma StepKeepsReply(s: System, e: Event, r: Request)
    requires RequestsOk(s) && ChannelsOk(s) && r in s.replies
    ensures r in Step(s, e).replies && Step(s, e).replies[r] == s.replies[r]
  {
    if e.DeliverBuiltIn? {
      BuiltInKeepsReply(s, e.r, e.sent, r);
    } else if e.SendResponse? {
      RespondKeepsReply(s, e.key, e.m, e.sent, r);
    } else if e.Send? {
      SendingAnswersNothing(s, e);
    } else if e.DeliverForward? {
      ForwardingAnswersNothing(s, e);
    } else {
      RoutingAnswersNothing(s, e);
    }
  }

  /** A request is answered at most once: its reply never changes. */
  lemma {:induction false} RepliesAreFinal(s: System, es: seq<Event>, r: Request)
    requires Inv(s) && r in s.replies
    ensures r in Run(s, es).replies && Run(s, es).replies[r] == s.replies[r]
    decreases |es|
  {
    if es != [] {
      StepKeepsInv(s, es[0]);
      StepKeepsReply(s, es[0], r);
      RepliesAreFinal(Step(s, es[0]), es[1..], r);
    }
  }

  /** After `Stop` nothing is pending at the node, ever. */
  lemma NothingPendingAfterStop(s: System, es: seq<Event>, n: NodeId)
    requires Inv(s)
    ensures var s' := Run(StepStop(s, n), es);
      && (forall r :: r in s'.pendingResponses ==> r.node != n)
      && (forall k :: k in s'.pendingReplies ==> k.node != n)
  {
    StepKeepsInv(s, Stop(n));
    assert StepStop(s, n) == Step(s, Stop(n));
    RunKeepsInv(StepStop(s, n), es);
    RunGrows(StepStop(s, n), es);
  }

  // ---------------------------------------------------------------- locality

  /** The part of the state node n keeps. */
  ghost predicate SameAt(s: System, s': System, n: NodeId) {
    && (n in s.running <==> n in s'.running)
    && (forall r: Request :: r.node == n ==>
          (r in s.pendingResponses <==> r in s'.pendingResponses)
          && (r in s.pendingResponses ==> s.pendingResponses[r] == s'.pendingResponses[r]))
    && (forall k: Inbound :: k.node == n ==>
          (k in s.pendingReplies <==> k in s'.pendingReplies)
          && (k in s.pendingReplies ==> s.pendingReplies[k] == s'.pendingReplies[k]))
  }

  /** The node whose event loop takes the step. */
  function Actor(s: System, e: Event): Option<NodeId> {
    match e
    case Send(n, _, _, _) => Some(n)
    case DeliverBuiltIn(r, _) => if r in s.requests then Some(s.requests[r].0) else None
    case DeliverForward(r, _) => if r in s.requests then Some(s.requests[r].0) else None
    case SendResponse(key, _, _) => Some(key.node)
    case DeliverResponse(r) => Some(r.node)
    case OutboundFailure(r) => Some(r.node)
    case Stop(n) => Some(n)
  }

  lemma SendIsLocal(s: System, n: NodeId, to: NodeId, m: Message, waiter: Option<Waiter>, k: NodeId)
    requires n != k
    ensures SameAt(s, StepSend(s, n, to, m, waiter), k)
  {
  }

  lemma RegisterIsLocal(s: System, r: Request, forwarded: bool, k: NodeId)
    requires r in s.requests ==> s.requests[r].0 != k
    ensures SameAt(s, StepRegister(s, r, forwarded), k)
  {
  }

  lemma RespondIsLocal(s: System, key: Inbound, m: Message, sent: bool, k: NodeId)
    requires key.node != k
    ensures SameAt(s, StepRespond(s, key, m, sent), k)
  {
  }

  lemma RouteIsLocal(s: System, r: Request, o: Outcome, k: NodeId)
    requires r.node != k
    ensures SameAt(s, StepRoute(s, r, o), k)
  {
  }

  lemma BuiltInIsLocal(s: System, r: Request, sent: bool, k: NodeId)
    ensures SameAt(s, StepBuiltIn(s, r, sent), k)
  {
  }

  lemma DeliverIsLocal(s: System, r: Request, k: NodeId)
    requires r.node != k
    ensures SameAt(s, StepDeliverResponse(s, r), k)
  {
    if r in s.responses && r.node in s.running {
      RouteIsLocal(s, r, Answer(s.responses[r]), k);
    }
  }

  lemma StopIsLocal(s: System, n: NodeId, k: NodeId)
    requires n != k
    ensures SameAt(s, StepStop(s, n), k)
  {
    if n in s.running {
      var responses := StepStop(s, n).pendingResponses;
      var replies := StepStop(s, n).pendingReplies;
      assert forall r: Request :: r.node == k && r in s.pendingResponses ==>
        r in responses && responses[r] == s.pendingResponses[r];
      assert forall i: Inbound :: i.node == k && i in s.pendingReplies ==>
        i in replies && replies[i] == s.pendingReplies[i];
    }
  }

  /** A step touches what is pending at no node but the one that takes it. */
  lemma StepIsLocal(s: System, e: Event, k: NodeId)
    requires Actor(s, e) != Some(k)
    ensures SameAt(s, Step(s, e), k)
  {
    match e
    case Send(n, to, m, w) => SendIsLocal(s, n, to, m, w, k);
    case DeliverBuiltIn(r, sent) => BuiltInIsLocal(s, r, sent, k);
    case DeliverForward(r, forwarded) => RegisterIsLocal(s, r, forwarded, k);
    case SendResponse(key, m, sent) => RespondIsLocal(s, key, m, sent, k);
    case DeliverResponse(r) => DeliverIsLocal(s, r, k);
    case OutboundFailure(r) => RouteIsLocal(s, r, SendFailed, k);
    case Stop(n) => StopIsLocal(s, n, k);
  }
}
