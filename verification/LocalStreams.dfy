/**
  The hub of local tensor streams. `pending` and `notifiers` have a mutex each, and `open` and
  `accept_async` lock them one after the other, so every lock section is a step of its own and
  sections of different calls interleave.
*/
module LocalStreams {
  import opened Common

  type Id = string
  type Call = nat      // one call of open, accept or accept_async

  /** The remote end of the duplex pair made by an `open` call goes by the number of that call. */
  type Remote = Call

  /** Where a call stands. */
  datatype Phase =
    | Opening(id: Id)                   // open: before its first section
    | OpenMissed(id: Id)                // open: nobody was waiting
    | Opened(id: Id)
    | Accepting(id: Id)                 // accept_async: before its first section
    | AcceptMissed(id: Id)              // accept_async: nothing was pending
    | Waiting(id: Id)                   // accept_async: sender registered, receiver waits
    | TimedOut(id: Id)                  // accept_async: receiver dropped, cleanup not done
    | Polling(id: Id)                   // accept
    | Accepted(id: Id, remote: Remote)
    | Failed(id: Id)

  /** Where the remote end of a call of `open` is. */
  datatype Place = WithOpener | Stored(id: Id) | InChannel(to: Call) | ReturnedBy(to: Call) | Dropped

  datatype Hub = Hub(
    pending: map<Id, Remote>,
    notifiers: map<Id, Call>,
    channel: map<Call, Remote>,     // sent to a waiting receiver, not received yet
    calls: map<Call, Phase>,
    place: map<Remote, Place>)      // history: where every remote end went

  const Empty := Hub(map[], map[], map[], map[], map[])

  datatype Event =
    | StartOpen(call: Call, id: Id)
    | OpenNotify(call: Call)        // first section of open
    | OpenStore(call: Call)         // second section of open
    | StartAccept(call: Call, id: Id)
    | AcceptCheck(call: Call)       // first section of accept_async
    | AcceptRegister(call: Call)    // second section of accept_async
    | Receive(call: Call)
    | SenderLost(call: Call)        // the registered sender was dropped unused
    | Timeout(call: Call)
    | Cleanup(call: Call)           // section after a timeout: removes whatever is registered
    | StartPoll(call: Call, id: Id)
    | Poll(call: Call)              // one round of the loop of accept
    | GiveUp(call: Call)

  predicate In(h: Hub, c: Call) {
    c in h.calls
  }

  function Moved(h: Hub, c: Call, p: Phase): Hub {
    h.(calls := h.calls[c := p])
  }

  /** The remote end of c goes to the receiver that waits. */
  function Handed(h: Hub, c: Call, to: Call, id: Id): Hub {
    Moved(h, c, Opened(id)).(notifiers := h.notifiers - {id}, channel := h.channel[to := c],
                             place := h.place[c := InChannel(to)])
  }

  /** The registered receiver is gone, and the remote end with it. */
  function Unheard(h: Hub, c: Call, id: Id): Hub {
    Moved(h, c, Opened(id)).(notifiers := h.notifiers - {id}, place := h.place[c := Dropped])
  }

  function StepOpenNotify(h: Hub, c: Call): Hub {
    if !In(h, c) || !h.calls[c].Opening? then h
    else
      var id := h.calls[c].id;
      if id !in h.notifiers then Moved(h, c, OpenMissed(id))
      else if In(h, h.notifiers[id]) && h.calls[h.notifiers[id]].Waiting? then Handed(h, c, h.notifiers[id], id)
      else Unheard(h, c, id)
  }

  function StepOpenStore(h: Hub, c: Call): Hub {
    if !In(h, c) || !h.calls[c].OpenMissed? then h
    else
      var id := h.calls[c].id;
      var place := if id in h.pending then h.place[h.pending[id] := Dropped] else h.place;
      Moved(h, c, Opened(id)).(pending := h.pending[id := c], place := place[c := Stored(id)])
  }

  /** Takes the pending remote end of the id for call c. */
  function Taken(h: Hub, c: Call, id: Id): Hub
    requires id in h.pending
  {
    Moved(h, c, Accepted(id, h.pending[id])).(pending := h.pending - {id},
                                              place := h.place[h.pending[id] := ReturnedBy(c)])
  }

  function StepAcceptCheck(h: Hub, c: Call): Hub {
    if !In(h, c) || !h.calls[c].Accepting? then h
    else
      var id := h.calls[c].id;
      if id in h.pending then Taken(h, c, id)
      else Moved(h, c, AcceptMissed(id))
  }

  function StepAcceptRegister(h: Hub, c: Call): Hub {
    if !In(h, c) || !h.calls[c].AcceptMissed? then h
    else Moved(h, c, Waiting(h.calls[c].id)).(notifiers := h.notifiers[h.calls[c].id := c])
  }

  function StepReceive(h: Hub, c: Call): Hub {
    if !In(h, c) || !h.calls[c].Waiting? || c !in h.channel then h
    else
      Moved(h, c, Accepted(h.calls[c].id, h.channel[c])).(channel := h.channel - {c},
                                                          place := h.place[h.channel[c] := ReturnedBy(c)])
  }

  function StepSenderLost(h: Hub, c: Call): Hub {
    if !In(h, c) || !h.calls[c].Waiting? || c in h.channel
       || (h.calls[c].id in h.notifiers && h.notifiers[h.calls[c].id] == c) then h
    else Moved(h, c, Failed(h.calls[c].id))
  }

  /** A stream sent just before the receiver is dropped is lost with it. */
  function StepTimeout(h: Hub, c: Call): Hub {
    if !In(h, c) || !h.calls[c].Waiting? then h
    else
      Moved(h, c, TimedOut(h.calls[c].id)).(
        channel := h.channel - {c},
        place := if c in h.channel then h.place[h.channel[c] := Dropped] else h.place)
  }

  function StepCleanup(h: Hub, c: Call): Hub {
    if !In(h, c) || !h.calls[c].TimedOut? then h
    else Moved(h, c, Failed(h.calls[c].id)).(notifiers := h.notifiers - {h.calls[c].id})
  }

  function StepPoll(h: Hub, c: Call): Hub {
    if !In(h, c) || !h.calls[c].Polling? || h.calls[c].id !in h.pending then h
    else Taken(h, c, h.calls[c].id)
  }

  function StepStartOpen(h: Hub, c: Call, id: Id): Hub {
    if In(h, c) then h else Moved(h, c, Opening(id)).(place := h.place[c := WithOpener])
  }

  /** Starts a call of accept or accept_async. */
  function StepStart(h: Hub, c: Call, p: Phase): Hub {
    if In(h, c) then h else Moved(h, c, p)
  }

  function StepGiveUp(h: Hub, c: Call): Hub {
    if In(h, c) && h.calls[c].Polling? then Moved(h, c, Failed(h.calls[c].id)) else h
  }

  function Step(h: Hub, e: Event): Hub {
    match e
    case StartOpen(c, id) => StepStartOpen(h, c, id)
    case OpenNotify(c) => StepOpenNotify(h, c)
    case OpenStore(c) => StepOpenStore(h, c)
    case StartAccept(c, id) => StepStart(h, c, Accepting(id))
    case AcceptCheck(c) => StepAcceptCheck(h, c)
    case AcceptRegister(c) => StepAcceptRegister(h, c)
    case Receive(c) => StepReceive(h, c)
    case SenderLost(c) => StepSenderLost(h, c)
    case Timeout(c) => StepTimeout(h, c)
    case Cleanup(c) => StepCleanup(h, c)
    case StartPoll(c, id) => StepStart(h, c, Polling(id))
    case Poll(c) => StepPoll(h, c)
    case GiveUp(c) => StepGiveUp(h, c)
  }

  function Run(h: Hub, es: seq<Event>): Hub
    decreases |es|
  {
    if es == [] then h else Run(Step(h, es[0]), es[1..])
  }

  // ---------------------------------------------------------------- every remote end is in one place

  ghost predicate IsOpen(p: Phase) {
    p.Opening? || p.OpenMissed? || p.Opened?
  }

  /** The remote ends are those of the calls of open; an unfinished open still holds its own. */
  ghost predicate OpenersOk(h: Hub) {
    && (forall x :: x in h.place ==> x in h.calls && IsOpen(h.calls[x]))
    && (forall c :: c in h.calls && IsOpen(h.calls[c]) ==> c in h.place)
    && (forall c :: c in h.calls && c in h.place && (h.calls[c].Opening? || h.calls[c].OpenMissed?) ==>
          h.place[c] == WithOpener)
  }

  ghost predicate PendingOk(h: Hub) {
    && (forall id :: id in h.pending ==> h.pending[id] in h.place && h.place[h.pending[id]] == Stored(id))
    && (forall x :: x in h.place && x in h.calls && h.place[x].Stored? ==>
          h.place[x].id == h.calls[x].id && h.place[x].id in h.pending && h.pending[h.place[x].id] == x)
  }

  /** What is in a channel is on its way to a waiting call of the same id, whose sender is gone. */
  ghost predicate ChannelOk(h: Hub) {
    && (forall c :: c in h.channel ==>
          h.channel[c] in h.place && h.place[h.channel[c]] == InChannel(c) && c in h.calls
          && h.channel[c] in h.calls && h.calls[c] == Waiting(h.calls[h.channel[c]].id))
    && (forall x :: x in h.place && h.place[x].InChannel? ==>
          h.place[x].to in h.channel && h.channel[h.place[x].to] == x)
  }

  /** A call returned what is recorded as returned by it, opened under the same id. */
  ghost predicate AcceptedOk(h: Hub) {
    forall c :: c in h.calls && h.calls[c].Accepted? ==>
      && h.calls[c].remote in h.place && h.place[h.calls[c].remote] == ReturnedBy(c)
      && h.calls[c].remote in h.calls && h.calls[h.calls[c].remote].id == h.calls[c].id
  }

  ghost predicate ReturnedOk(h: Hub) {
    forall x :: x in h.place && h.place[x].ReturnedBy? ==>
      h.place[x].to in h.calls && h.calls[h.place[x].to].Accepted? && h.calls[h.place[x].to].remote == x
  }

  ghost predicate NotifiersOk(h: Hub) {
    forall id :: id in h.notifiers ==>
      && h.notifiers[id] in h.calls && h.notifiers[id] !in h.channel
      && h.calls[h.notifiers[id]] in {Waiting(id), TimedOut(id), Failed(id)}
  }

  ghost predicate Inv(h: Hub) {
    OpenersOk(h) && PendingOk(h) && ChannelOk(h) && AcceptedOk(h) && ReturnedOk(h) && NotifiersOk(h)
  }

  lemma StartOpenKeepsOpeners(h: Hub, c: Call, id: Id)
    requires OpenersOk(h) && PendingOk(h)
    ensures OpenersOk(StepStartOpen(h, c, id))
  {
  }

  lemma StartOpenKeepsPending(h: Hub, c: Call, id: Id)
    requires OpenersOk(h) && PendingOk(h) && ChannelOk(h)
    ensures PendingOk(StepStartOpen(h, c, id))
  {
  }

  lemma StartOpenKeepsChannel(h: Hub, c: Call, id: Id)
    requires OpenersOk(h) && PendingOk(h) && ChannelOk(h) && NotifiersOk(h)
    ensures ChannelOk(StepStartOpen(h, c, id))
  {
  }

  lemma StartOpenKeepsAccepted(h: Hub, c: Call, id: Id)
    requires OpenersOk(h) && PendingOk(h) && AcceptedOk(h)
    ensures AcceptedOk(StepStartOpen(h, c, id))
  {
  }

  lemma StartOpenKeepsReturned(h: Hub, c: Call, id: Id)
    requires OpenersOk(h) && ReturnedOk(h)
    ensures ReturnedOk(StepStartOpen(h, c, id))
  {
  }

  lemma StartOpenKeepsNotifiers(h: Hub, c: Call, id: Id)
    requires ChannelOk(h) && NotifiersOk(h)
    ensures NotifiersOk(StepStartOpen(h, c, id))
  {
  }

  lemma StartKeepsPlaces(h: Hub, c: Call, p: Phase)
    requires Inv(h) && (p.Accepting? || p.Polling?)
    ensures OpenersOk(StepStart(h, c, p)) && PendingOk(StepStart(h, c, p)) && NotifiersOk(StepStart(h, c, p))
  {
  }

  lemma StartKeepsChannel(h: Hub, c: Call, p: Phase)
    requires ChannelOk(h) && (p.Accepting? || p.Polling?)
    ensures ChannelOk(StepStart(h, c, p))
  {
  }

  lemma StartKeepsReturned(h: Hub, c: Call, p: Phase)
    requires AcceptedOk(h) && ReturnedOk(h) && (p.Accepting? || p.Polling?)
    ensures AcceptedOk(StepStart(h, c, p)) && ReturnedOk(StepStart(h, c, p))
  {
  }

  lemma GiveUpKeepsPlaces(h: Hub, c: Call)
    requires Inv(h)
    ensures OpenersOk(StepGiveUp(h, c)) && PendingOk(StepGiveUp(h, c)) && NotifiersOk(StepGiveUp(h, c))
  {
  }

  lemma GiveUpKeepsHandOver(h: Hub, c: Call)
    requires Inv(h)
    ensures ChannelOk(StepGiveUp(h, c)) && AcceptedOk(StepGiveUp(h, c)) && ReturnedOk(StepGiveUp(h, c))
  {
  }

  lemma OpenNotifyKeepsOpeners(h: Hub, c: Call)
    requires OpenersOk(h) && PendingOk(h)
    ensures OpenersOk(StepOpenNotify(h, c))
  {
  }

  lemma OpenNotifyKeepsPending(h: Hub, c: Call)
    requires OpenersOk(h) && PendingOk(h) && ChannelOk(h)
    ensures PendingOk(StepOpenNotify(h, c))
  {
  }

  lemma HandedKeepsChannel(h: Hub, c: Call, to: Call, id: Id)
    requires OpenersOk(h) && ChannelOk(h) && In(h, c) && h.calls[c] == Opening(id)
    requires In(h, to) && h.calls[to] == Waiting(id) && to !in h.channel
    ensures ChannelOk(Handed(h, c, to, id))
  {
  }

  lemma OpenNotifyKeepsChannel(h: Hub, c: Call)
    requires OpenersOk(h) && ChannelOk(h) && NotifiersOk(h)
    ensures ChannelOk(StepOpenNotify(h, c))
  {
    if In(h, c) && h.calls[c].Opening? {
      var id := h.calls[c].id;
      if id in h.notifiers && In(h, h.notifiers[id]) && h.calls[h.notifiers[id]].Waiting? {
        HandedKeepsChannel(h, c, h.notifiers[id], id);
      }
    }
  }

  lemma OpenNotifyKeepsAccepted(h: Hub, c: Call)
    requires OpenersOk(h) && AcceptedOk(h)
    ensures AcceptedOk(StepOpenNotify(h, c))
  {
    if In(h, c) && h.calls[c].Opening? {
      var i := h.calls[c].id;
      if i !in h.notifiers {
        assert StepOpenNotify(h, c) == Moved(h, c, OpenMissed(i));
      } else if In(h, h.notifiers[i]) && h.calls[h.notifiers[i]].Waiting? {
        assert StepOpenNotify(h, c) == Handed(h, c, h.notifiers[i], i);
      } else {
        assert StepOpenNotify(h, c) == Unheard(h, c, i);
      }
    }
  }

  lemma OpenNotifyKeepsReturned(h: Hub, c: Call)
    requires OpenersOk(h) && ReturnedOk(h)
    ensures ReturnedOk(StepOpenNotify(h, c))
  {
  }

  lemma OpenNotifyKeepsNotifiers(h: Hub, c: Call)
    requires ChannelOk(h) && NotifiersOk(h)
    ensures NotifiersOk(StepOpenNotify(h, c))
  {
  }

  lemma OpenStoreKeepsOpeners(h: Hub, c: Call)
    requires OpenersOk(h) && PendingOk(h)
    ensures OpenersOk(StepOpenStore(h, c))
  {
  }

  lemma OpenStoreKeepsPending(h: Hub, c: Call)
    requires OpenersOk(h) && PendingOk(h) && ChannelOk(h)
    ensures PendingOk(StepOpenStore(h, c))
  {
  }

  lemma OpenStoreKeepsChannel(h: Hub, c: Call)
    requires OpenersOk(h) && PendingOk(h) && ChannelOk(h) && NotifiersOk(h)
    ensures ChannelOk(StepOpenStore(h, c))
  {
  }

  lemma OpenStoreKeepsAccepted(h: Hub, c: Call)
    requires OpenersOk(h) && PendingOk(h) && AcceptedOk(h)
    ensures AcceptedOk(StepOpenStore(h, c))
  {
  }

  lemma OpenStoreKeepsReturned(h: Hub, c: Call)
    requires OpenersOk(h) && ReturnedOk(h)
    ensures ReturnedOk(StepOpenStore(h, c))
  {
  }

  lemma OpenStoreKeepsNotifiers(h: Hub, c: Call)
    requires ChannelOk(h) && NotifiersOk(h)
    ensures NotifiersOk(StepOpenStore(h, c))
  {
  }

  lemma AcceptCheckKeepsOpeners(h: Hub, c: Call)
    requires OpenersOk(h) && PendingOk(h)
    ensures OpenersOk(StepAcceptCheck(h, c))
  {
  }

  lemma AcceptCheckKeepsPending(h: Hub, c: Call)
    requires OpenersOk(h) && PendingOk(h) && ChannelOk(h)
    ensures PendingOk(StepAcceptCheck(h, c))
  {
  }

  lemma AcceptCheckKeepsChannel(h: Hub, c: Call)
    requires OpenersOk(h) && PendingOk(h) && ChannelOk(h) && NotifiersOk(h)
    ensures ChannelOk(StepAcceptCheck(h, c))
  {
  }

  lemma AcceptCheckKeepsAccepted(h: Hub, c: Call)
    requires OpenersOk(h) && PendingOk(h) && AcceptedOk(h)
    ensures AcceptedOk(StepAcceptCheck(h, c))
  {
    if In(h, c) && h.calls[c].Accepting? {
      var i := h.calls[c].id;
      if i in h.pending {
        assert StepAcceptCheck(h, c) == Taken(h, c, i);
      } else {
        assert StepAcceptCheck(h, c) == Moved(h, c, AcceptMissed(i));
      }
    }
  }

  lemma AcceptCheckKeepsReturned(h: Hub, c: Call)
    requires OpenersOk(h) && ReturnedOk(h)
    ensures ReturnedOk(StepAcceptCheck(h, c))
  {
  }

  lemma AcceptCheckKeepsNotifiers(h: Hub, c: Call)
    requires ChannelOk(h) && NotifiersOk(h)
    ensures NotifiersOk(StepAcceptCheck(h, c))
  {
  }

  lemma AcceptRegisterKeepsPlaces(h: Hub, c: Call)
    requires Inv(h)
    ensures OpenersOk(StepAcceptRegister(h, c))
    ensures PendingOk(StepAcceptRegister(h, c))
    ensures NotifiersOk(StepAcceptRegister(h, c))
  {
  }

  lemma AcceptRegisterKeepsHandOver(h: Hub, c: Call)
    requires Inv(h)
    ensures ChannelOk(StepAcceptRegister(h, c))
    ensures AcceptedOk(StepAcceptRegister(h, c))
    ensures ReturnedOk(StepAcceptRegister(h, c))
  {
  }

  lemma ReceiveKeepsPlaces(h: Hub, c: Call)
    requires Inv(h)
    ensures OpenersOk(StepReceive(h, c)) && PendingOk(StepReceive(h, c)) && NotifiersOk(StepReceive(h, c))
  {
  }

  lemma ReceiveKeepsHandOver(h: Hub, c: Call)
    requires Inv(h)
    ensures ChannelOk(StepReceive(h, c)) && AcceptedOk(StepReceive(h, c)) && ReturnedOk(StepReceive(h, c))
  {
  }

  lemma SenderLostKeepsPlaces(h: Hub, c: Call)
    requires Inv(h)
    ensures OpenersOk(StepSenderLost(h, c)) && PendingOk(StepSenderLost(h, c)) && NotifiersOk(StepSenderLost(h, c))
  {
  }

  lemma SenderLostKeepsHandOver(h: Hub, c: Call)
    requires Inv(h)
    ensures ChannelOk(StepSenderLost(h, c)) && AcceptedOk(StepSenderLost(h, c)) && ReturnedOk(StepSenderLost(h, c))
  {
  }

  lemma TimeoutKeepsPlaces(h: Hub, c: Call)
    requires Inv(h)
    ensures OpenersOk(StepTimeout(h, c)) && PendingOk(StepTimeout(h, c)) && NotifiersOk(StepTimeout(h, c))
  {
  }

  lemma TimeoutKeepsHandOver(h: Hub, c: Call)
    requires Inv(h)
    ensures ChannelOk(StepTimeout(h, c)) && AcceptedOk(StepTimeout(h, c)) && ReturnedOk(StepTimeout(h, c))
  {
  }

  lemma CleanupKeepsPlaces(h: Hub, c: Call)
    requires Inv(h)
    ensures OpenersOk(StepCleanup(h, c)) && PendingOk(StepCleanup(h, c)) && NotifiersOk(StepCleanup(h, c))
  {
  }

  lemma CleanupKeepsHandOver(h: Hub, c: Call)
    requires Inv(h)
    ensures ChannelOk(StepCleanup(h, c)) && AcceptedOk(StepCleanup(h, c)) && ReturnedOk(StepCleanup(h, c))
  {
  }

  lemma PollKeepsPlaces(h: Hub, c: Call)
    requires Inv(h)
    ensures OpenersOk(StepPoll(h, c)) && PendingOk(StepPoll(h, c)) && NotifiersOk(StepPoll(h, c))
  {
  }

  lemma PollKeepsHandOver(h: Hub, c: Call)
    requires Inv(h)
    ensures ChannelOk(StepPoll(h, c)) && AcceptedOk(StepPoll(h, c)) && ReturnedOk(StepPoll(h, c))
  {
  }

  lemma OpenKeepsInv(h: Hub, e: Event)
    requires Inv(h) && (e.StartOpen? || e.StartAccept? || e.StartPoll? || e.OpenNotify? || e.OpenStore? || e.GiveUp?)
    ensures Inv(Step(h, e))
  {
    match e
    case StartOpen(c, id) =>
      StartOpenKeepsOpeners(h, c, id);
      StartOpenKeepsPending(h, c, id);
      StartOpenKeepsChannel(h, c, id);
      StartOpenKeepsAccepted(h, c, id);
      StartOpenKeepsReturned(h, c, id);
      StartOpenKeepsNotifiers(h, c, id);
    case StartAccept(c, id) =>
      StartKeepsPlaces(h, c, Accepting(id));
      StartKeepsChannel(h, c, Accepting(id));
      StartKeepsReturned(h, c, Accepting(id));
    case StartPoll(c, id) =>
      StartKeepsPlaces(h, c, Polling(id));
      StartKeepsChannel(h, c, Polling(id));
      StartKeepsReturned(h, c, Polling(id));
    case OpenNotify(c) =>
      OpenNotifyKeepsOpeners(h, c);
      OpenNotifyKeepsPending(h, c);
      OpenNotifyKeepsChannel(h, c);
      OpenNotifyKeepsAccepted(h, c);
      OpenNotifyKeepsReturned(h, c);
      OpenNotifyKeepsNotifiers(h, c);
    case OpenStore(c) =>
      OpenStoreKeepsOpeners(h, c);
      OpenStoreKeepsPending(h, c);
      OpenStoreKeepsChannel(h, c);
      OpenStoreKeepsAccepted(h, c);
      OpenStoreKeepsReturned(h, c);
      OpenStoreKeepsNotifiers(h, c);
    case GiveUp(c) =>
      GiveUpKeepsPlaces(h, c);
      GiveUpKeepsHandOver(h, c);
  }

  lemma AcceptKeepsInv(h: Hub, e: Event)
    requires Inv(h)
    requires e.AcceptCheck? || e.AcceptRegister? || e.Receive? || e.SenderLost? || e.Timeout? || e.Cleanup? || e.Poll?
    ensures Inv(Step(h, e))
  {
    match e
    case AcceptCheck(c) =>
      AcceptCheckKeepsOpeners(h, c);
      AcceptCheckKeepsPending(h, c);
      AcceptCheckKeepsChannel(h, c);
      AcceptCheckKeepsAccepted(h, c);
      AcceptCheckKeepsReturned(h, c);
      AcceptCheckKeepsNotifiers(h, c);
    case AcceptRegister(c) =>
      AcceptRegisterKeepsPlaces(h, c);
      AcceptRegisterKeepsHandOver(h, c);
    case Receive(c) =>
      ReceiveKeepsPlaces(h, c);
      ReceiveKeepsHandOver(h, c);
    case SenderLost(c) =>
      SenderLostKeepsPlaces(h, c);
      SenderLostKeepsHandOver(h, c);
    case Timeout(c) =>
      TimeoutKeepsPlaces(h, c);
      TimeoutKeepsHandOver(h, c);
    case Cleanup(c) =>
      CleanupKeepsPlaces(h, c);
      CleanupKeepsHandOver(h, c);
    case Poll(c) =>
      PollKeepsPlaces(h, c);
      PollKeepsHandOver(h, c);
  }

  lemma StepKeepsInv(h: Hub, e: Event)
    requires Inv(h)
    ensures Inv(Step(h, e))
  {
    if e.StartOpen? || e.StartAccept? || e.StartPoll? || e.OpenNotify? || e.OpenStore? || e.GiveUp? {
      OpenKeepsInv(h, e);
    } else {
      AcceptKeepsInv(h, e);
    }
  }

  /** Every run keeps each remote end in exactly one place, and the maps in step with the places. */
  lemma {:induction false} RunKeepsInv(h: Hub, es: seq<Event>)
    requires Inv(h)
    ensures Inv(Run(h, es))
    decreases |es|
  {
    if es != [] {
      StepKeepsInv(h, es[0]);
      RunKeepsInv(Step(h, es[0]), es[1..]);
    }
  }

  /** In any run, a remote end is returned by at most one call, and only by one that asked for its id. */
  lemma ReturnedAtMostOnce(es: seq<Event>, c: Call, d: Call)
    requires In(Run(Empty, es), c) && Run(Empty, es).calls[c].Accepted?
    ensures var calls := Run(Empty, es).calls;
      && calls[c].remote in calls && IsOpen(calls[calls[c].remote]) && calls[calls[c].remote].id == calls[c].id
      && (d in calls && d != c && calls[d].Accepted? ==> calls[d].remote != calls[c].remote)
  {
    RunKeepsInv(Empty, es);
  }

  lemma AcceptedStays(h: Hub, e: Event, c: Call)
    requires In(h, c) && h.calls[c].Accepted?
    ensures In(Step(h, e), c) && Step(h, e).calls[c] == h.calls[c]
  {
  }

  /** A call that returned a stream keeps that answer. */
  lemma {:induction false} AcceptedIsFinal(h: Hub, es: seq<Event>, c: Call)
    requires In(h, c) && h.calls[c].Accepted?
    ensures In(Run(h, es), c) && Run(h, es).calls[c] == h.calls[c]
    decreases |es|
  {
    if es != [] {
      AcceptedStays(h, es[0], c);
      AcceptedIsFinal(Step(h, es[0]), es[1..], c);
    }
  }

  // ---------------------------------------------------------------- pending and waiting at once

  /** An open and an accept_async of the id are both between their two sections. */
  ghost predicate Overlap(h: Hub, id: Id) {
    && (exists o :: o in h.calls && h.calls[o] == OpenMissed(id))
    && (exists a :: a in h.calls && h.calls[a] == AcceptMissed(id))
  }

  /** They overlap at some point of the run. */
  ghost predicate OverlapIn(h: Hub, es: seq<Event>, id: Id)
    decreases |es|
  {
    Overlap(h, id) || (es != [] && OverlapIn(Step(h, es[0]), es[1..], id))
  }

  ghost predicate BothSides(h: Hub, id: Id) {
    id in h.pending && id in h.notifiers
  }

  /** No open that is stored or about to be meets an accept_async that is registered or about to be. */
  ghost predicate Apart(h: Hub, id: Id) {
    && !BothSides(h, id)
    && (id in h.pending ==> forall a :: a in h.calls ==> h.calls[a] != AcceptMissed(id))
    && (id in h.notifiers ==> forall o :: o in h.calls ==> h.calls[o] != OpenMissed(id))
  }

  lemma StepKeepsApart(h: Hub, e: Event, id: Id)
    requires Apart(h, id) && !Overlap(h, id)
    ensures Apart(Step(h, e), id)
  {
  }

  lemma {:induction false} RunKeepsApart(h: Hub, es: seq<Event>, id: Id)
    requires Apart(h, id) && !OverlapIn(h, es, id)
    ensures Apart(Run(h, es), id)
    decreases |es|
  {
    if es != [] {
      StepKeepsApart(h, es[0], id);
      RunKeepsApart(Step(h, es[0]), es[1..], id);
    }
  }

  /** An id is pending and waited for at once only after an open and an accept_async overlapped on it. */
  lemma BothSidesOnlyAfterOverlap(es: seq<Event>, id: Id)
    requires BothSides(Run(Empty, es), id)
    ensures OverlapIn(Empty, es, id)
  {
    if !OverlapIn(Empty, es, id) {
      RunKeepsApart(Empty, es, id);
    }
  }

  /** Such a run exists: both calls look before either of them stores, and then neither finds the other. */
  lemma {:induction false} OverlapLeavesBothSides(id: Id, o: Call, a: Call)
    requires o != a
    ensures var es := [StartOpen(o, id), StartAccept(a, id), OpenNotify(o), AcceptCheck(a),
                       OpenStore(o), AcceptRegister(a)];
      BothSides(Run(Empty, es), id) && In(Run(Empty, es), a) && Run(Empty, es).calls[a] == Waiting(id)
  {
    var h1 := Step(Empty, StartOpen(o, id));
    var h2 := Step(h1, StartAccept(a, id));
    var h3 := Step(h2, OpenNotify(o));
    var h4 := Step(h3, AcceptCheck(a));
    var h5 := Step(h4, OpenStore(o));
    var h6 := Step(h5, AcceptRegister(a));
    calc {
      Run(Empty, [StartOpen(o, id), StartAccept(a, id), OpenNotify(o), AcceptCheck(a),
                  OpenStore(o), AcceptRegister(a)]);
      Run(h1, [StartAccept(a, id), OpenNotify(o), AcceptCheck(a), OpenStore(o), AcceptRegister(a)]);
      Run(h2, [OpenNotify(o), AcceptCheck(a), OpenStore(o), AcceptRegister(a)]);
      Run(h3, [AcceptCheck(a), OpenStore(o), AcceptRegister(a)]);
      Run(h4, [OpenStore(o), AcceptRegister(a)]);
      Run(h5, [AcceptRegister(a)]);
      Run(h6, []);
    }
  }

  // ---------------------------------------------------------------- one open and one accept_async

  /** The event starts a call o of open or a of accept_async on the id, or has nothing to do with it. */
  ghost predicate OnlyPair(e: Event, id: Id, o: Call, a: Call) {
    match e
    case StartOpen(c, i) => (c == o && i == id) || (c != o && c != a && i != id)
    case StartAccept(c, i) => (c == a && i == id) || (c != o && c != a && i != id)
    case StartPoll(c, i) => c != o && c != a && i != id
    case Timeout(c) => c != a
    case _ => true
  }

  ghost predicate OpenPart(h: Hub, id: Id, o: Call, a: Call) {
    In(h, o) ==>
      || h.calls[o] == Opening(id)
      || (h.calls[o] == OpenMissed(id) && (!In(h, a) || h.calls[a] == Accepting(id)))
      || (h.calls[o] == Opened(id) && id in h.pending && (!In(h, a) || h.calls[a] == Accepting(id)))
      || (h.calls[o] == Opened(id) && a in h.channel && In(h, a) && h.calls[a] == Waiting(id))
      || (h.calls[o] == Opened(id) && In(h, a) && h.calls[a] == Accepted(id, o))
  }

  ghost predicate AcceptPart(h: Hub, id: Id, o: Call, a: Call) {
    In(h, a) ==>
      || h.calls[a] == Accepting(id)
      || (h.calls[a] == AcceptMissed(id) && (!In(h, o) || h.calls[o] == Opening(id)))
      || (h.calls[a] == Waiting(id) && id in h.notifiers && (!In(h, o) || h.calls[o] == Opening(id)))
      || (h.calls[a] == Waiting(id) && a in h.channel && h.channel[a] == o && In(h, o) && h.calls[o] == Opened(id))
      || (h.calls[a] == Accepted(id, o) && In(h, o) && h.calls[o] == Opened(id))
  }

  /** Only o and a are about the id. */
  ghost predicate OnlyTheseTwo(h: Hub, id: Id, o: Call, a: Call) {
    && (forall c :: c in h.calls && h.calls[c].id == id ==> c == o || c == a)
    && (id in h.pending ==> h.pending[id] == o && In(h, o) && h.calls[o] == Opened(id))
    && (id in h.notifiers ==> h.notifiers[id] == a && In(h, a) && h.calls[a] == Waiting(id))
    && (a in h.channel ==> h.channel[a] == o)
  }

  /** Neither has passed the other unseen. */
  ghost predicate Pairing(h: Hub, id: Id, o: Call, a: Call) {
    OnlyTheseTwo(h, id, o, a) && OpenPart(h, id, o, a) && AcceptPart(h, id, o, a)
  }

  lemma StartOpenKeepsPairing(h: Hub, c: Call, i: Id, id: Id, o: Call, a: Call)
    requires o != a && Inv(h) && Pairing(h, id, o, a) && OnlyPair(StartOpen(c, i), id, o, a)
    requires !Overlap(Step(h, StartOpen(c, i)), id)
    ensures Pairing(Step(h, StartOpen(c, i)), id, o, a)
  {
  }

  lemma StartAcceptKeepsPairing(h: Hub, c: Call, i: Id, id: Id, o: Call, a: Call)
    requires o != a && Inv(h) && Pairing(h, id, o, a) && OnlyPair(StartAccept(c, i), id, o, a)
    requires !Overlap(Step(h, StartAccept(c, i)), id)
    ensures Pairing(Step(h, StartAccept(c, i)), id, o, a)
  {
  }

  lemma StartPollKeepsPairing(h: Hub, c: Call, i: Id, id: Id, o: Call, a: Call)
    requires o != a && Inv(h) && Pairing(h, id, o, a) && OnlyPair(StartPoll(c, i), id, o, a)
    requires !Overlap(Step(h, StartPoll(c, i)), id)
    ensures Pairing(Step(h, StartPoll(c, i)), id, o, a)
  {
  }

  lemma OpenNotifyKeepsTwo(h: Hub, c: Call, id: Id, o: Call, a: Call)
    requires o != a && ChannelOk(h) && NotifiersOk(h) && Pairing(h, id, o, a) && OnlyPair(OpenNotify(c), id, o, a)
    requires !Overlap(StepOpenNotify(h, c), id)
    ensures OnlyTheseTwo(StepOpenNotify(h, c), id, o, a)
  {
    if In(h, c) && h.calls[c].Opening? {
      var i := h.calls[c].id;
      if i !in h.notifiers {
        assert StepOpenNotify(h, c) == Moved(h, c, OpenMissed(i));
      } else if In(h, h.notifiers[i]) && h.calls[h.notifiers[i]].Waiting? {
        assert StepOpenNotify(h, c) == Handed(h, c, h.notifiers[i], i);
      } else {
        assert StepOpenNotify(h, c) == Unheard(h, c, i);
      }
    }
  }

  lemma OpenNotifyKeepsParts(h: Hub, c: Call, id: Id, o: Call, a: Call)
    requires o != a && ChannelOk(h) && NotifiersOk(h) && Pairing(h, id, o, a) && OnlyPair(OpenNotify(c), id, o, a)
    requires !Overlap(StepOpenNotify(h, c), id)
    ensures OpenPart(StepOpenNotify(h, c), id, o, a) && AcceptPart(StepOpenNotify(h, c), id, o, a)
  {
    if In(h, c) && h.calls[c].Opening? {
      var i := h.calls[c].id;
      if i !in h.notifiers {
        assert StepOpenNotify(h, c) == Moved(h, c, OpenMissed(i));
      } else if In(h, h.notifiers[i]) && h.calls[h.notifiers[i]].Waiting? {
        assert StepOpenNotify(h, c) == Handed(h, c, h.notifiers[i], i);
      } else {
        assert StepOpenNotify(h, c) == Unheard(h, c, i);
      }
    }
  }

  lemma OpenStoreKeepsPairing(h: Hub, c: Call, id: Id, o: Call, a: Call)
    requires o != a && Inv(h) && Pairing(h, id, o, a) && OnlyPair(OpenStore(c), id, o, a)
    requires !Overlap(Step(h, OpenStore(c)), id)
    ensures Pairing(Step(h, OpenStore(c)), id, o, a)
  {
  }

  lemma AcceptCheckKeepsPairing(h: Hub, c: Call, id: Id, o: Call, a: Call)
    requires o != a && ChannelOk(h) && NotifiersOk(h) && Pairing(h, id, o, a) && OnlyPair(AcceptCheck(c), id, o, a)
    requires !Overlap(StepAcceptCheck(h, c), id)
    ensures Pairing(StepAcceptCheck(h, c), id, o, a)
  {
  }

  lemma AcceptRegisterKeepsPairing(h: Hub, c: Call, id: Id, o: Call, a: Call)
    requires o != a && Inv(h) && Pairing(h, id, o, a) && OnlyPair(AcceptRegister(c), id, o, a)
    requires !Overlap(Step(h, AcceptRegister(c)), id)
    ensures Pairing(Step(h, AcceptRegister(c)), id, o, a)
  {
  }

  lemma ReceiveKeepsPairing(h: Hub, c: Call, id: Id, o: Call, a: Call)
    requires o != a && Inv(h) && Pairing(h, id, o, a) && OnlyPair(Receive(c), id, o, a)
    requires !Overlap(Step(h, Receive(c)), id)
    ensures Pairing(Step(h, Receive(c)), id, o, a)
  {
  }

  lemma SenderLostKeepsPairing(h: Hub, c: Call, id: Id, o: Call, a: Call)
    requires o != a && Inv(h) && Pairing(h, id, o, a) && OnlyPair(SenderLost(c), id, o, a)
    requires !Overlap(Step(h, SenderLost(c)), id)
    ensures Pairing(Step(h, SenderLost(c)), id, o, a)
  {
  }

  lemma TimeoutKeepsPairing(h: Hub, c: Call, id: Id, o: Call, a: Call)
    requires o != a && Inv(h) && Pairing(h, id, o, a) && OnlyPair(Timeout(c), id, o, a)
    requires !Overlap(Step(h, Timeout(c)), id)
    ensures Pairing(Step(h, Timeout(c)), id, o, a)
  {
  }

  lemma CleanupKeepsPairing(h: Hub, c: Call, id: Id, o: Call, a: Call)
    requires o != a && Inv(h) && Pairing(h, id, o, a) && OnlyPair(Cleanup(c), id, o, a)
    requires !Overlap(Step(h, Cleanup(c)), id)
    ensures Pairing(Step(h, Cleanup(c)), id, o, a)
  {
  }

  lemma PollKeepsPairing(h: Hub, c: Call, id: Id, o: Call, a: Call)
    requires o != a && Inv(h) && Pairing(h, id, o, a) && OnlyPair(Poll(c), id, o, a)
    requires !Overlap(Step(h, Poll(c)), id)
    ensures Pairing(Step(h, Poll(c)), id, o, a)
  {
  }

  lemma GiveUpKeepsPairing(h: Hub, c: Call, id: Id, o: Call, a: Call)
    requires o != a && Inv(h) && Pairing(h, id, o, a) && OnlyPair(GiveUp(c), id, o, a)
    requires !Overlap(Step(h, GiveUp(c)), id)
    ensures Pairing(Step(h, GiveUp(c)), id, o, a)
  {
  }

  lemma StepKeepsPairing(h: Hub, e: Event, id: Id, o: Call, a: Call)
    requires o != a && Inv(h) && Pairing(h, id, o, a) && OnlyPair(e, id, o, a)
    requires !Overlap(Step(h, e), id)
    ensures Pairing(Step(h, e), id, o, a)
  {
    match e
    case StartOpen(c, i) => StartOpenKeepsPairing(h, c, i, id, o, a);
    case StartAccept(c, i) => StartAcceptKeepsPairing(h, c, i, id, o, a);
    case StartPoll(c, i) => StartPollKeepsPairing(h, c, i, id, o, a);
    case OpenNotify(c) =>
      OpenNotifyKeepsTwo(h, c, id, o, a);
      OpenNotifyKeepsParts(h, c, id, o, a);
    case OpenStore(c) => OpenStoreKeepsPairing(h, c, id, o, a);
    case AcceptCheck(c) => AcceptCheckKeepsPairing(h, c, id, o, a);
    case AcceptRegister(c) => AcceptRegisterKeepsPairing(h, c, id, o, a);
    case Receive(c) => ReceiveKeepsPairing(h, c, id, o, a);
    case SenderLost(c) => SenderLostKeepsPairing(h, c, id, o, a);
    case Timeout(c) => TimeoutKeepsPairing(h, c, id, o, a);
    case Cleanup(c) => CleanupKeepsPairing(h, c, id, o, a);
    case Poll(c) => PollKeepsPairing(h, c, id, o, a);
    case GiveUp(c) => GiveUpKeepsPairing(h, c, id, o, a);
  }

  /** Both looked before either stored: each has left what it has where the other no longer looks. */
  ghost predicate Passed(h: Hub, id: Id, o: Call, a: Call) {
    && (forall c :: c in h.calls && h.calls[c].id == id ==> c == o || c == a)
    && In(h, o) && In(h, a) && a !in h.channel
    && ((h.calls[o] == OpenMissed(id) && id !in h.pending)
        || (h.calls[o] == Opened(id) && id in h.pending && h.pending[id] == o))
    && ((h.calls[a] == AcceptMissed(id) && id !in h.notifiers)
        || (h.calls[a] == Waiting(id) && id in h.notifiers && h.notifiers[id] == a))
  }

  /** Nothing is sent to a call that does not wait. */
  ghost predicate NotSent(h: Hub, a: Call) {
    a in h.channel ==> In(h, a) && h.calls[a].Waiting?
  }

  lemma NotifyOverlapPasses(h: Hub, c: Call, id: Id, o: Call, a: Call)
    requires o != a && NotifiersOk(h) && NotSent(h, a) && Pairing(h, id, o, a) && Overlap(StepOpenNotify(h, c), id)
    ensures Passed(StepOpenNotify(h, c), id, o, a)
  {
    PairingIsApart(h, id, o, a);
    var h' := StepOpenNotify(h, c);
    var x :| x in h'.calls && h'.calls[x] == OpenMissed(id);
    var y :| y in h'.calls && h'.calls[y] == AcceptMissed(id);
    assert h'.calls == h.calls[c := h'.calls[c]] && x == c && y in h.calls;
    assert h' == Moved(h, c, OpenMissed(id));
    assert x == o && y == a;
  }

  lemma CheckOverlapPasses(h: Hub, c: Call, id: Id, o: Call, a: Call)
    requires o != a && NotSent(h, a) && Pairing(h, id, o, a) && Overlap(StepAcceptCheck(h, c), id)
    ensures Passed(StepAcceptCheck(h, c), id, o, a)
  {
  }

  lemma PairingIsApart(h: Hub, id: Id, o: Call, a: Call)
    requires Pairing(h, id, o, a)
    ensures !Overlap(h, id)
  {
  }

  lemma OnlyLookingOverlaps(h: Hub, e: Event, id: Id)
    requires !Overlap(h, id) && !e.OpenNotify? && !e.AcceptCheck?
    ensures !Overlap(Step(h, e), id)
  {
  }

  /** Two calls that have not passed each other do so exactly where they overlap. */
  lemma StepPairsOrPasses(h: Hub, e: Event, id: Id, o: Call, a: Call)
    requires o != a && Inv(h) && Pairing(h, id, o, a) && OnlyPair(e, id, o, a)
    ensures if Overlap(Step(h, e), id) then Passed(Step(h, e), id, o, a) else Pairing(Step(h, e), id, o, a)
  {
    PairingIsApart(h, id, o, a);
    if !Overlap(Step(h, e), id) {
      StepKeepsPairing(h, e, id, o, a);
    } else if e.OpenNotify? {
      NotifyOverlapPasses(h, e.call, id, o, a);
    } else if e.AcceptCheck? {
      CheckOverlapPasses(h, e.call, id, o, a);
    } else {
      OnlyLookingOverlaps(h, e, id);
    }
  }

  lemma StartKeepsPassed(h: Hub, e: Event, id: Id, o: Call, a: Call)
    requires o != a && Passed(h, id, o, a) && OnlyPair(e, id, o, a) && (e.StartOpen? || e.StartAccept? || e.StartPoll?)
    ensures Passed(Step(h, e), id, o, a)
  {
  }

  lemma OpenKeepsPassed(h: Hub, e: Event, id: Id, o: Call, a: Call)
    requires o != a && NotifiersOk(h) && Passed(h, id, o, a) && (e.OpenNotify? || e.OpenStore?)
    ensures Passed(Step(h, e), id, o, a)
  {
  }

  lemma AcceptKeepsPassed(h: Hub, e: Event, id: Id, o: Call, a: Call)
    requires o != a && Passed(h, id, o, a) && (e.AcceptCheck? || e.AcceptRegister? || e.Receive? || e.SenderLost?)
    ensures Passed(Step(h, e), id, o, a)
  {
  }

  lemma EndKeepsPassed(h: Hub, e: Event, id: Id, o: Call, a: Call)
    requires o != a && Passed(h, id, o, a) && OnlyPair(e, id, o, a)
    requires e.Timeout? || e.Cleanup? || e.Poll? || e.GiveUp?
    ensures Passed(Step(h, e), id, o, a)
  {
  }

  lemma StepKeepsPassed(h: Hub, e: Event, id: Id, o: Call, a: Call)
    requires o != a && NotifiersOk(h) && Passed(h, id, o, a) && OnlyPair(e, id, o, a)
    ensures Passed(Step(h, e), id, o, a)
  {
    if e.StartOpen? || e.StartAccept? || e.StartPoll? {
      StartKeepsPassed(h, e, id, o, a);
    } else if e.OpenNotify? || e.OpenStore? {
      OpenKeepsPassed(h, e, id, o, a);
    } else if e.AcceptCheck? || e.AcceptRegister? || e.Receive? || e.SenderLost? {
      AcceptKeepsPassed(h, e, id, o, a);
    } else {
      EndKeepsPassed(h, e, id, o, a);
    }
  }

  lemma {:induction false} RunKeepsPassed(h: Hub, es: seq<Event>, id: Id, o: Call, a: Call)
    requires o != a && Inv(h) && Passed(h, id, o, a)
    requires forall i :: 0 <= i < |es| ==> OnlyPair(es[i], id, o, a)
    ensures Passed(Run(h, es), id, o, a)
    decreases |es|
  {
    if es != [] {
      StepKeepsInv(h, es[0]);
      StepKeepsPassed(h, es[0], id, o, a);
      RunKeepsPassed(Step(h, es[0]), es[1..], id, o, a);
    }
  }

  lemma OverlapInTail(h: Hub, es: seq<Event>, id: Id)
    requires es != [] && !Overlap(h, id)
    ensures OverlapIn(h, es, id) <==> OverlapIn(Step(h, es[0]), es[1..], id)
    ensures Overlap(Step(h, es[0]), id) ==> OverlapIn(h, es, id)
  {
  }

  lemma {:induction false} RunPairsOrPasses(h: Hub, es: seq<Event>, id: Id, o: Call, a: Call)
    requires o != a && Inv(h) && Pairing(h, id, o, a)
    requires forall i :: 0 <= i < |es| ==> OnlyPair(es[i], id, o, a)
    ensures if OverlapIn(h, es, id) then Passed(Run(h, es), id, o, a) else Pairing(Run(h, es), id, o, a)
    decreases |es|
  {
    PairingIsApart(h, id, o, a);
    if es != [] {
      var h' := Step(h, es[0]);
      StepKeepsInv(h, es[0]);
      StepPairsOrPasses(h, es[0], id, o, a);
      OverlapInTail(h, es, id);
      if Overlap(h', id) {
        RunKeepsPassed(h', es[1..], id, o, a);
      } else {
        RunPairsOrPasses(h', es[1..], id, o, a);
      }
    }
  }

  /**
    An open and an accept_async of an id that nobody else uses pair exactly when they do not overlap.
    Whichever comes first and whatever happens to other ids in between, once the open has returned and
    the accept_async has looked and taken what was sent to it, it has the remote end of the open; after
    an overlap the stream is stored and, once registered, the accept_async waits beside it for good.
  */
  lemma PairMeets(es: seq<Event>, id: Id, o: Call, a: Call)
    requires o != a
    requires forall i :: 0 <= i < |es| ==> OnlyPair(es[i], id, o, a)
    requires var h := Run(Empty, es);
      In(h, o) && h.calls[o].Opened? && In(h, a) && !h.calls[a].Accepting? && a !in h.channel
    ensures Run(Empty, es).calls[a] == Accepted(id, o) <==> !OverlapIn(Empty, es, id)
    ensures Run(Empty, es).calls[a] == Waiting(id) ==> OverlapIn(Empty, es, id)
    ensures BothSides(Run(Empty, es), id) <==> Run(Empty, es).calls[a] == Waiting(id)
  {
    RunPairsOrPasses(Empty, es, id, o, a);
  }

  // ---------------------------------------------------------------- the object

  /** The two maps; every method is one lock section. */
  class LocalStreamHub {
    var pending: map<Id, Remote>
    var notifiers: map<Id, Call>
    ghost var world: Hub            // the calls in flight and the streams they hold

    ghost function View(): Hub
      reads this
    {
      world.(pending := pending, notifiers := notifiers)
    }

    constructor ()
      ensures View() == Empty
    {
      pending, notifiers, world := map[], map[], Empty;
    }

    /** First section of open: the receiver the remote end is sent to, if one is registered. */
    method NotifyWaiting(id: Id, ghost c: Call) returns (to: Option<Call>)
      requires In(View(), c) && View().calls[c] == Opening(id)
      modifies this
      ensures View() == StepOpenNotify(old(View()), c)
      ensures to == if id in old(notifiers) then Some(old(notifiers)[id]) else None
      ensures pending == old(pending) && notifiers == old(notifiers) - {id}
      ensures In(View(), c) && View().calls[c] == if to.Some? then Opened(id) else OpenMissed(id)
      ensures var listens := to.Some? && In(old(View()), to.value) && old(View()).calls[to.value].Waiting?;
        View().channel == if listens then old(View()).channel[to.value := c] else old(View()).channel
    {
      world := StepOpenNotify(View(), c);
      to := None;
      if id in notifiers {
        to := Some(notifiers[id]);
        notifiers := notifiers - {id};
      }
      assert id !in old(notifiers) ==> old(notifiers) - {id} == old(notifiers);
    }

    /** Second section of open. */
    method Store(id: Id, c: Call)
      requires In(View(), c) && View().calls[c] == OpenMissed(id)
      modifies this
      ensures View() == StepOpenStore(old(View()), c)
      ensures pending == old(pending)[id := c] && notifiers == old(notifiers)
      ensures In(View(), c) && View().calls[c] == Opened(id)
    {
      world := StepOpenStore(View(), c);
      pending := pending[id := c];
    }

    /** First section of accept_async. */
    method TakePending(id: Id, ghost c: Call) returns (remote: Option<Remote>)
      requires In(View(), c) && View().calls[c] == Accepting(id)
      modifies this
      ensures View() == StepAcceptCheck(old(View()), c)
      ensures remote == if id in old(pending) then Some(old(pending)[id]) else None
      ensures pending == old(pending) - {id} && notifiers == old(notifiers)
      ensures In(View(), c) && View().calls[c] == if remote.Some? then Accepted(id, remote.value) else AcceptMissed(id)
    {
      world := StepAcceptCheck(View(), c);
      remote := None;
      if id in pending {
        remote := Some(pending[id]);
        pending := pending - {id};
      }
      assert id !in old(pending) ==> old(pending) - {id} == old(pending);
    }

    /** Second section of accept_async. */
    method Register(id: Id, c: Call)
      requires In(View(), c) && View().calls[c] == AcceptMissed(id)
      modifies this
      ensures View() == StepAcceptRegister(old(View()), c)
      ensures pending == old(pending) && notifiers == old(notifiers)[id := c]
      ensures In(View(), c) && View().calls[c] == Waiting(id)
    {
      world := StepAcceptRegister(View(), c);
      notifiers := notifiers[id := c];
    }

    /** Section of accept_async after a timeout. */
    method Unregister(id: Id, ghost c: Call)
      requires In(View(), c) && View().calls[c] == TimedOut(id)
      modifies this
      ensures View() == StepCleanup(old(View()), c)
      ensures pending == old(pending) && notifiers == old(notifiers) - {id}
      ensures In(View(), c) && View().calls[c] == Failed(id)
    {
      world := StepCleanup(View(), c);
      notifiers := notifiers - {id};
    }

    /** One round of the loop of accept. */
    method PollPending(id: Id, ghost c: Call) returns (remote: Option<Remote>)
      requires In(View(), c) && View().calls[c] == Polling(id)
      modifies this
      ensures View() == StepPoll(old(View()), c)
      ensures remote == if id in old(pending) then Some(old(pending)[id]) else None
      ensures pending == old(pending) - {id} && notifiers == old(notifiers)
      ensures In(View(), c) && View().calls[c] == if remote.Some? then Accepted(id, remote.value) else Polling(id)
    {
      world := StepPoll(View(), c);
      remote := None;
      if id in pending {
        remote := Some(pending[id]);
        pending := pending - {id};
      }
      assert id !in old(pending) ==> old(pending) - {id} == old(pending);
    }
  }
}
