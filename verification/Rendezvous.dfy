/**
  Rendezvous of inbound tensor streams with their acceptors. All three maps sit behind one
  mutex, so each call is one step; receivers may be dropped at any time.
*/
module Rendezvous {
  import opened Common

  type Id = nat
  type Stream = nat
  type Receiver = nat   // of a oneshot handed out by `register_accept`
  type Channel = nat    // of a session registered by `register_notify`

  /** Where a stream that was inserted is now. */
  datatype Fate = Stored(id: Id) | ToAcceptor(rx: Receiver) | ToSession(ch: Channel)
                | Replaced | SentToDead

  datatype State = State(
    pendingInbound: map<Id, Stream>,
    pendingAccept: map<Id, Receiver>,
    notifiers: map<Id, Channel>,
    nextReceiver: Receiver,
    // history
    deadReceivers: set<Receiver>,
    deadChannels: set<Channel>,
    accepts: map<Receiver, Id>,       // every receiver ever handed out
    fate: map<Stream, Fate>)          // every stream ever inserted

  const Init := State(map[], map[], map[], 0, {}, {}, map[], map[])

  datatype Event =
    | RegisterNotify(id: Id, ch: Channel)
    | InsertInbound(id: Id, stream: Stream)
    | RegisterAccept(id: Id)
    | DropReceiver(rx: Receiver)      // a timeout of the acceptor
    | DropChannel(ch: Channel)        // the session is gone

  /** Notifier first, then a waiting acceptor, then the store. */
  function StepInsert(s: State, id: Id, stream: Stream): State {
    if stream in s.fate then s
    else if id in s.notifiers then
      var ch := s.notifiers[id];
      s.(notifiers := s.notifiers - {id},
         fate := s.fate[stream := if ch in s.deadChannels then SentToDead else ToSession(ch)])
    else if id in s.pendingAccept then
      var rx := s.pendingAccept[id];
      s.(pendingAccept := s.pendingAccept - {id},
         fate := s.fate[stream := if rx in s.deadReceivers then SentToDead else ToAcceptor(rx)])
    else if id in s.pendingInbound then
      s.(pendingInbound := s.pendingInbound[id := stream],
         fate := s.fate[s.pendingInbound[id] := Replaced][stream := Stored(id)])
    else
      s.(pendingInbound := s.pendingInbound[id := stream], fate := s.fate[stream := Stored(id)])
  }

  function StepAccept(s: State, id: Id): State {
    var rx := s.nextReceiver;
    var s1 := s.(nextReceiver := rx + 1, accepts := s.accepts[rx := id]);
    if id in s.pendingInbound then
      s1.(pendingInbound := s.pendingInbound - {id}, fate := s.fate[s.pendingInbound[id] := ToAcceptor(rx)])
    else s1.(pendingAccept := s.pendingAccept[id := rx])
  }

  function Step(s: State, e: Event): State {
    match e
    case RegisterNotify(id, ch) => s.(notifiers := s.notifiers[id := ch])
    case InsertInbound(id, stream) => StepInsert(s, id, stream)
    case RegisterAccept(id) => StepAccept(s, id)
    case DropReceiver(rx) => s.(deadReceivers := s.deadReceivers + {rx})
    case DropChannel(ch) => s.(deadChannels := s.deadChannels + {ch})
  }

  function Run(s: State, es: seq<Event>): State
    decreases |es|
  {
    if es == [] then s else Run(Step(s, es[0]), es[1..])
  }

  // ---------------------------------------------------------------- safety

  /** A stream and an acceptor never wait for each other under one id. */
  ghost predicate NeverBoth(s: State) {
    s.pendingInbound.Keys !! s.pendingAccept.Keys
  }

  /** The store holds exactly the streams whose fate is `Stored`. */
  ghost predicate StoreExact(s: State) {
    StoreRecorded(s) && StoredKept(s)
  }

  ghost predicate StoreRecorded(s: State) {
    forall id :: id in s.pendingInbound ==>
      s.pendingInbound[id] in s.fate && s.fate[s.pendingInbound[id]] == Stored(id)
  }

  ghost predicate StoredKept(s: State) {
    forall x :: x in s.fate && s.fate[x].Stored? ==>
      s.fate[x].id in s.pendingInbound && s.pendingInbound[s.fate[x].id] == x
  }

  /** A receiver still registered has got nothing; none gets two streams or one of another id. */
  ghost predicate ReceiversOk(s: State) {
    && (forall rx :: rx in s.accepts ==> rx < s.nextReceiver)
    && (forall id :: id in s.pendingAccept ==> s.pendingAccept[id] in s.accepts && s.accepts[s.pendingAccept[id]] == id)
    && (forall x :: x in s.fate && s.fate[x].ToAcceptor? ==> s.fate[x].rx in s.accepts)
    && (forall x, id :: x in s.fate && id in s.pendingAccept ==> s.fate[x] != ToAcceptor(s.pendingAccept[id]))
    && (forall x, y :: x in s.fate && y in s.fate && s.fate[x].ToAcceptor? && s.fate[x] == s.fate[y] ==> x == y)
  }

  ghost predicate Inv(s: State) {
    NeverBoth(s) && StoreExact(s) && ReceiversOk(s)
  }

  lemma InsertKeepsNeverBoth(s: State, id: Id, stream: Stream)
    requires Inv(s)
    ensures NeverBoth(StepInsert(s, id, stream))
  {
  }

  lemma InsertKeepsStoreRecorded(s: State, id: Id, stream: Stream)
    requires StoreExact(s)
    ensures StoreRecorded(StepInsert(s, id, stream))
  {
  }

  lemma InsertKeepsStoredKept(s: State, id: Id, stream: Stream)
    requires StoreExact(s)
    ensures StoredKept(StepInsert(s, id, stream))
  {
  }

  lemma InsertKeepsReceiversOk(s: State, id: Id, stream: Stream)
    requires Inv(s)
    ensures ReceiversOk(StepInsert(s, id, stream))
  {
  }

  lemma InsertKeepsInv(s: State, id: Id, stream: Stream)
    requires Inv(s)
    ensures Inv(StepInsert(s, id, stream))
  {
    InsertKeepsNeverBoth(s, id, stream);
    InsertKeepsStoreRecorded(s, id, stream);
    InsertKeepsStoredKept(s, id, stream);
    InsertKeepsReceiversOk(s, id, stream);
  }

  lemma AcceptKeepsStoreExact(s: State, id: Id)
    requires NeverBoth(s) && StoreExact(s)
    ensures NeverBoth(StepAccept(s, id)) && StoreExact(StepAccept(s, id))
  {
  }

  lemma AcceptKeepsReceiversOk(s: State, id: Id)
    requires StoreExact(s) && ReceiversOk(s)
    ensures ReceiversOk(StepAccept(s, id))
  {
  }

  lemma AcceptKeepsInv(s: State, id: Id)
    requires Inv(s)
    ensures Inv(StepAccept(s, id))
  {
    AcceptKeepsStoreExact(s, id);
    AcceptKeepsReceiversOk(s, id);
  }

  lemma StepKeepsInv(s: State, e: Event)
    requires Inv(s)
    ensures Inv(Step(s, e))
  {
    match e
    case InsertInbound(id, stream) => InsertKeepsInv(s, id, stream);
    case RegisterAccept(id) => AcceptKeepsInv(s, id);
    case _ =>
  }

  lemma {:induction false} RunKeepsInv(s: State, es: seq<Event>)
    requires Inv(s)
    ensures Inv(Run(s, es))
    decreases |es|
  {
    if es != [] {
      StepKeepsInv(s, es[0]);
      RunKeepsInv(Step(s, es[0]), es[1..]);
    }
  }

  /** A stream leaves the store only to an acceptor of its id or to be replaced under its id. */
  ghost predicate MayBecome(s: State, f: Fate, g: Fate) {
    f == g || (f.Stored? && (g == Replaced || (g.ToAcceptor? && g.rx in s.accepts && s.accepts[g.rx] == f.id)))
  }

  lemma StepKeepsFates(s: State, e: Event, x: Stream)
    requires Inv(s) && x in s.fate
    ensures x in Step(s, e).fate && MayBecome(Step(s, e), s.fate[x], Step(s, e).fate[x])
  {
  }

  lemma StepKeepsAccepts(s: State, e: Event, rx: Receiver)
    requires Inv(s) && rx in s.accepts
    ensures rx in Step(s, e).accepts && Step(s, e).accepts[rx] == s.accepts[rx]
  {
  }

  lemma {:induction false} RunKeepsAccepts(s: State, es: seq<Event>, rx: Receiver)
    requires Inv(s) && rx in s.accepts
    ensures rx in Run(s, es).accepts && Run(s, es).accepts[rx] == s.accepts[rx]
    decreases |es|
  {
    if es != [] {
      StepKeepsAccepts(s, es[0], rx);
      StepKeepsInv(s, es[0]);
      RunKeepsAccepts(Step(s, es[0]), es[1..], rx);
    }
  }

  /**
    Conservation: no stream is lost track of, and a stream that has been delivered, replaced or
    sent to a dead receiver stays so; in particular it is delivered at most once.
  */
  lemma {:induction false} StreamsConserved(s: State, es: seq<Event>, x: Stream)
    requires Inv(s) && x in s.fate
    ensures x in Run(s, es).fate
    ensures MayBecome(Run(s, es), s.fate[x], Run(s, es).fate[x])
    decreases |es|
  {
    if es != [] {
      var s1 := Step(s, es[0]);
      StepKeepsFates(s, es[0], x);
      StepKeepsInv(s, es[0]);
      StreamsConserved(s1, es[1..], x);
      if s1.fate[x].ToAcceptor? && s1.fate[x].rx in s1.accepts {
        RunKeepsAccepts(s1, es[1..], s1.fate[x].rx);
      }
    }
  }

  // ---------------------------------------------------------------- a pair meets

  function Inserts(es: seq<Event>, id: Id): nat {
    if es == [] then 0
    else (if es[0].InsertInbound? && es[0].id == id then 1 else 0) + Inserts(es[1..], id)
  }

  function Accepts(es: seq<Event>, id: Id): nat {
    if es == [] then 0
    else (if es[0].RegisterAccept? && es[0].id == id then 1 else 0) + Accepts(es[1..], id)
  }

  /** No notifier for the id, no timeout of its acceptor, and the stream belongs to the id. */
  ghost predicate Undisturbed(s: State, es: seq<Event>, id: Id, x: Stream)
    decreases |es|
  {
    es != [] ==>
    && !(es[0].RegisterNotify? && es[0].id == id)
    && !(es[0].DropReceiver? && id in s.pendingAccept && s.pendingAccept[id] == es[0].rx)
    && (es[0].DropReceiver? ==> es[0].rx in s.accepts)
    && (es[0].InsertInbound? ==> (es[0].id == id <==> es[0].stream == x))
    && Undisturbed(Step(s, es[0]), es[1..], id, x)
  }

  ghost predicate Met(s: State, id: Id, x: Stream) {
    x in s.fate && s.fate[x].ToAcceptor? && s.fate[x].rx in s.accepts && s.accepts[s.fate[x].rx] == id
  }

  ghost predicate NoneYet(s: State, id: Id, x: Stream) {
    id !in s.pendingInbound && id !in s.pendingAccept && x !in s.fate
  }

  ghost predicate StreamWaits(s: State, id: Id, x: Stream) {
    id in s.pendingInbound && s.pendingInbound[id] == x
  }

  ghost predicate AcceptorWaits(s: State, id: Id, x: Stream) {
    id in s.pendingAccept && s.pendingAccept[id] !in s.deadReceivers && x !in s.fate
  }

  ghost predicate ReceiversKnown(s: State) {
    forall rx :: rx in s.deadReceivers ==> rx in s.accepts
  }

  ghost predicate Progress(s: State, es: seq<Event>, id: Id, x: Stream) {
    || (NoneYet(s, id, x) && Inserts(es, id) == 1 && Accepts(es, id) == 1)
    || (StreamWaits(s, id, x) && Inserts(es, id) == 0 && Accepts(es, id) == 1)
    || (AcceptorWaits(s, id, x) && Inserts(es, id) == 1 && Accepts(es, id) == 0)
    || (Met(s, id, x) && Inserts(es, id) == 0 && Accepts(es, id) == 0)
  }

  lemma AfterNoneYet(s: State, e: Event, id: Id, x: Stream)
    requires Inv(s) && ReceiversKnown(s) && id !in s.notifiers && NoneYet(s, id, x)
    requires Undisturbed(s, [e], id, x)
    ensures var s' := Step(s, e);
      if e.InsertInbound? && e.id == id then StreamWaits(s', id, x)
      else if e.RegisterAccept? && e.id == id then AcceptorWaits(s', id, x)
      else NoneYet(s', id, x)
  {
  }

  lemma AfterStreamWaits(s: State, e: Event, id: Id, x: Stream)
    requires Inv(s) && id !in s.notifiers && StreamWaits(s, id, x)
    requires Undisturbed(s, [e], id, x)
    ensures var s' := Step(s, e);
      if e.RegisterAccept? && e.id == id then Met(s', id, x) else StreamWaits(s', id, x)
  {
  }

  lemma AfterAcceptorWaits(s: State, e: Event, id: Id, x: Stream)
    requires Inv(s) && id !in s.notifiers && AcceptorWaits(s, id, x)
    requires Undisturbed(s, [e], id, x)
    requires !(e.RegisterAccept? && e.id == id)
    ensures var s' := Step(s, e);
      if e.InsertInbound? && e.id == id then Met(s', id, x) else AcceptorWaits(s', id, x)
  {
  }

  lemma AfterMet(s: State, e: Event, id: Id, x: Stream)
    requires Inv(s) && Met(s, id, x)
    ensures Met(Step(s, e), id, x)
  {
  }

  lemma StillUndisturbed(s: State, e: Event, id: Id, x: Stream)
    requires Inv(s) && ReceiversKnown(s) && id !in s.notifiers
    requires Undisturbed(s, [e], id, x)
    ensures id !in Step(s, e).notifiers && ReceiversKnown(Step(s, e))
  {
  }

  lemma ProgressStep(s: State, es: seq<Event>, id: Id, x: Stream)
    requires Inv(s) && ReceiversKnown(s) && es != [] && id !in s.notifiers
    requires Undisturbed(s, es, id, x) && Progress(s, es, id, x)
    ensures Progress(Step(s, es[0]), es[1..], id, x)
  {
    assert Undisturbed(s, [es[0]], id, x);
    if NoneYet(s, id, x) {
      AfterNoneYet(s, es[0], id, x);
    } else if StreamWaits(s, id, x) {
      AfterStreamWaits(s, es[0], id, x);
    } else if AcceptorWaits(s, id, x) {
      AfterAcceptorWaits(s, es[0], id, x);
    } else {
      AfterMet(s, es[0], id, x);
    }
  }

  /**
    With one insert and one accept of an id, no notifier for it and no timeout, the stream
    reaches the acceptor, whatever comes first and whatever happens to other ids.
  */
  lemma {:induction false} PairMeets(s: State, es: seq<Event>, id: Id, x: Stream)
    requires Inv(s) && ReceiversKnown(s) && id !in s.notifiers
    requires Undisturbed(s, es, id, x) && Progress(s, es, id, x)
    ensures Met(Run(s, es), id, x)
    decreases |es|
  {
    if es != [] {
      assert Undisturbed(s, [es[0]], id, x);
      ProgressStep(s, es, id, x);
      StillUndisturbed(s, es[0], id, x);
      StepKeepsInv(s, es[0]);
      PairMeets(Step(s, es[0]), es[1..], id, x);
    }
  }

  /** The same from a fresh map. */
  lemma FreshPairMeets(es: seq<Event>, id: Id, x: Stream)
    requires Undisturbed(Init, es, id, x) && Inserts(es, id) == 1 && Accepts(es, id) == 1
    ensures Met(Run(Init, es), id, x)
  {
    PairMeets(Init, es, id, x);
  }

  // ---------------------------------------------------------------- a session that asked to be notified

  /** The session is alive and registered for the id. */
  ghost predicate Notified(s: State, id: Id, ch: Channel) {
    id in s.notifiers && s.notifiers[id] == ch && ch !in s.deadChannels
  }

  /** No stream of the id arrives, and the session neither goes away nor is replaced. */
  predicate LeavesSession(e: Event, id: Id, ch: Channel) {
    && !(e.InsertInbound? && e.id == id) && !(e.RegisterNotify? && e.id == id)
    && e != DropChannel(ch)
  }

  lemma {:induction false} SessionStays(s: State, es: seq<Event>, id: Id, ch: Channel)
    requires Notified(s, id, ch) && forall i :: 0 <= i < |es| ==> LeavesSession(es[i], id, ch)
    ensures Notified(Run(s, es), id, ch)
    decreases |es|
  {
    if es != [] {
      assert LeavesSession(es[0], id, ch);
      SessionStays(Step(s, es[0]), es[1..], id, ch);
    }
  }

  /** A live session that registered for an id gets the next stream of that id, for good. */
  lemma SessionGetsStream(s: State, id: Id, ch: Channel, a: seq<Event>, x: Stream, b: seq<Event>)
    requires Inv(s) && ch !in s.deadChannels && forall i :: 0 <= i < |a| ==> LeavesSession(a[i], id, ch)
    requires var s1 := Run(Step(s, RegisterNotify(id, ch)), a);
      x !in s1.fate
    ensures var s1 := Run(Step(s, RegisterNotify(id, ch)), a);
      var s2 := Run(Step(s1, InsertInbound(id, x)), b);
      x in s2.fate && s2.fate[x] == ToSession(ch)
  {
    StepKeepsInv(s, RegisterNotify(id, ch));
    var s0 := Step(s, RegisterNotify(id, ch));
    RunKeepsInv(s0, a);
    SessionStays(s0, a, id, ch);
    var s1 := Run(s0, a);
    StepKeepsInv(s1, InsertInbound(id, x));
    StreamsConserved(Step(s1, InsertInbound(id, x)), b, x);
  }

  // ---------------------------------------------------------------- the object

  class RendezvousMap {
    var pendingInbound: map<Id, Stream>
    var pendingAccept: map<Id, Receiver>
    var notifiers: map<Id, Channel>
    var nextReceiver: Receiver
    ghost var history: State     // liveness of receivers and the fates of streams

    ghost function View(): State
      reads this
    {
      State(pendingInbound, pendingAccept, notifiers, nextReceiver,
            history.deadReceivers, history.deadChannels, history.accepts, history.fate)
    }

    constructor ()
      ensures View() == Init
    {
      pendingInbound, pendingAccept, notifiers, nextReceiver, history := map[], map[], map[], 0, Init;
    }

    method RegisterNotifier(id: Id, ch: Channel)
      modifies this
      ensures View() == Step(old(View()), RegisterNotify(id, ch))
      ensures notifiers == old(notifiers)[id := ch]
      ensures pendingInbound == old(pendingInbound) && pendingAccept == old(pendingAccept)
    {
      notifiers := notifiers[id := ch];
    }

    /** Returns whom the stream was sent to, if anybody. */
    method Insert(id: Id, stream: Stream) returns (session: Option<Channel>, acceptor: Option<Receiver>)
      requires stream !in View().fate
      modifies this
      ensures View() == StepInsert(old(View()), id, stream)
      ensures session.Some? <==> id in old(notifiers)
      ensures session.Some? ==> session.value == old(notifiers)[id]
      ensures acceptor.Some? <==> session.None? && id in old(pendingAccept)
      ensures acceptor.Some? ==> acceptor.value == old(pendingAccept)[id]
      ensures notifiers == old(notifiers) - {id}
      ensures pendingAccept == if acceptor.Some? then old(pendingAccept) - {id} else old(pendingAccept)
      ensures pendingInbound ==
        if session.None? && acceptor.None? then old(pendingInbound)[id := stream] else old(pendingInbound)
      ensures stream in View().fate && View().fate[stream] ==
        if session.Some? then if session.value in old(View()).deadChannels then SentToDead else ToSession(session.value)
        else if acceptor.Some? then
          if acceptor.value in old(View()).deadReceivers then SentToDead else ToAcceptor(acceptor.value)
        else Stored(id)
    {
      history := StepInsert(View(), id, stream);
      assert id !in notifiers ==> notifiers - {id} == notifiers;
      session, acceptor := None, None;
      if id in notifiers {
        session := Some(notifiers[id]);
        notifiers := notifiers - {id};
        return;
      }
      if id in pendingAccept {
        acceptor := Some(pendingAccept[id]);
        pendingAccept := pendingAccept - {id};
        return;
      }
      pendingInbound := pendingInbound[id := stream];
    }

    /** A receiver that already holds the stream when one was stored. */
    method Accept(id: Id) returns (rx: Receiver, ready: Option<Stream>)
      modifies this
      ensures View() == StepAccept(old(View()), id)
      ensures rx == old(nextReceiver)
      ensures ready == if id in old(pendingInbound) then Some(old(pendingInbound)[id]) else None
      ensures pendingInbound == old(pendingInbound) - {id} && notifiers == old(notifiers)
      ensures pendingAccept == if ready.None? then old(pendingAccept)[id := rx] else old(pendingAccept)
      ensures View().accepts == old(View()).accepts[rx := id] && nextReceiver == rx + 1
      ensures ready.Some? ==> ready.value in View().fate && View().fate[ready.value] == ToAcceptor(rx)
    {
      history := StepAccept(View(), id);
      assert id !in pendingInbound ==> pendingInbound - {id} == pendingInbound;
      rx := nextReceiver;
      nextReceiver := nextReceiver + 1;
      if id in pendingInbound {
        ready := Some(pendingInbound[id]);
        pendingInbound := pendingInbound - {id};
      } else {
        ready := None;
        pendingAccept := pendingAccept[id := rx];
      }
    }
  }
}
