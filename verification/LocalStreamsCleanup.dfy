/**
  When a waiting accept_async keeps its place in the local stream hub: the cleanup after a timeout and
  a registration both act on whatever is under the id, whoever registered it.
*/
module LocalStreamsCleanup {
  import opened LocalStreams

  // ---------------------------------------------------------------- who is served

  ghost predicate Registered(h: Hub, b: Call) {
    In(h, b) && h.calls[b].id in h.notifiers && h.notifiers[h.calls[b].id] == b
  }

  /** The call waits, and a sender for it is registered or has sent. */
  ghost predicate HasSender(h: Hub, b: Call) {
    In(h, b) && h.calls[b].Waiting? && (b in h.channel || Registered(h, b))
  }

  ghost predicate Served(h: Hub, b: Call) {
    HasSender(h, b) || (In(h, b) && h.calls[b].Accepted?)
  }

  /** The call can only wait in vain: its sender is gone and nothing was sent. */
  ghost predicate Deserted(h: Hub, b: Call) {
    In(h, b) && (h.calls[b].Failed? || (h.calls[b].Waiting? && !HasSender(h, b)))
  }

  /**
    Another call cleans up after its own timeout, or registers, under the id b waits for, before
    anything was sent to b.
  */
  ghost predicate Displaces(h: Hub, e: Event, b: Call) {
    && HasSender(h, b) && b !in h.channel
    && ((e.Cleanup? && In(h, e.call) && h.calls[e.call] == TimedOut(h.calls[b].id))
        || (e.AcceptRegister? && In(h, e.call) && h.calls[e.call] == AcceptMissed(h.calls[b].id)))
  }

  /** The event takes the sender of b exactly when it displaces it. */
  ghost predicate Serves(h: Hub, e: Event, b: Call) {
    && (Served(Step(h, e), b) <==> !Displaces(h, e, b))
    && (Deserted(Step(h, e), b) <==> Displaces(h, e, b))
  }

  lemma StartServes(h: Hub, e: Event, b: Call)
    requires HasSender(h, b) && (e.StartOpen? || e.StartAccept? || e.StartPoll? || e.GiveUp?)
    ensures Serves(h, e, b)
  {
  }

  lemma StoreServes(h: Hub, e: Event, b: Call)
    requires HasSender(h, b) && (e.OpenStore? || e.AcceptCheck? || e.Poll?)
    ensures Serves(h, e, b)
  {
  }

  lemma NotifyServes(h: Hub, e: Event, b: Call)
    requires ChannelOk(h) && NotifiersOk(h) && HasSender(h, b) && e.OpenNotify?
    ensures Serves(h, e, b)
  {
  }

  lemma ReceiveServes(h: Hub, e: Event, b: Call)
    requires HasSender(h, b) && (e.Receive? || e.SenderLost?)
    ensures Serves(h, e, b)
  {
  }

  lemma RegisterServes(h: Hub, e: Event, b: Call)
    requires HasSender(h, b) && e.AcceptRegister?
    ensures Serves(h, e, b)
  {
  }

  lemma CleanupServes(h: Hub, e: Event, b: Call)
    requires HasSender(h, b) && e.Cleanup?
    ensures Serves(h, e, b)
  {
  }

  lemma TimeoutServes(h: Hub, e: Event, b: Call)
    requires HasSender(h, b) && e.Timeout? && e.call != b
    ensures Serves(h, e, b)
  {
  }

  /** Short of its own timeout, a call that has a sender loses it exactly to such an event. */
  lemma StepServes(h: Hub, e: Event, b: Call)
    requires Inv(h) && HasSender(h, b) && e != Timeout(b)
    ensures Serves(h, e, b)
  {
    match e
    case StartOpen(_, _) => StartServes(h, e, b);
    case StartAccept(_, _) => StartServes(h, e, b);
    case StartPoll(_, _) => StartServes(h, e, b);
    case GiveUp(_) => StartServes(h, e, b);
    case OpenStore(_) => StoreServes(h, e, b);
    case AcceptCheck(_) => StoreServes(h, e, b);
    case Poll(_) => StoreServes(h, e, b);
    case OpenNotify(_) => NotifyServes(h, e, b);
    case Receive(_) => ReceiveServes(h, e, b);
    case SenderLost(_) => ReceiveServes(h, e, b);
    case AcceptRegister(_) => RegisterServes(h, e, b);
    case Cleanup(_) => CleanupServes(h, e, b);
    case Timeout(_) => TimeoutServes(h, e, b);
  }

  lemma StepKeepsDeserted(h: Hub, e: Event, b: Call)
    requires NotifiersOk(h) && Deserted(h, b) && e != Timeout(b)
    ensures Deserted(Step(h, e), b)
  {
  }

  ghost predicate DisplacedIn(h: Hub, es: seq<Event>, b: Call)
    decreases |es|
  {
    es != [] && (Displaces(h, es[0], b) || DisplacedIn(Step(h, es[0]), es[1..], b))
  }

  lemma {:induction false} DesertedForGood(h: Hub, es: seq<Event>, b: Call)
    requires Inv(h) && Deserted(h, b)
    requires forall i :: 0 <= i < |es| ==> es[i] != Timeout(b)
    ensures Deserted(Run(h, es), b)
    decreases |es|
  {
    if es != [] {
      StepKeepsInv(h, es[0]);
      StepKeepsDeserted(h, es[0], b);
      DesertedForGood(Step(h, es[0]), es[1..], b);
    }
  }

  lemma {:induction false} AcceptedNotDisplaced(h: Hub, es: seq<Event>, b: Call)
    requires In(h, b) && h.calls[b].Accepted?
    ensures !DisplacedIn(h, es, b)
    decreases |es|
  {
    if es != [] {
      AcceptedStays(h, es[0], b);
      AcceptedNotDisplaced(Step(h, es[0]), es[1..], b);
    }
  }

  /**
    Over every run without its own timeout: a call that has a sender still has one, or has returned a
    stream, exactly when no other call cleaned up or registered under its id before it was sent to;
    otherwise it has failed, or waits for a stream that never comes.
  */
  lemma {:induction false} ServedUnlessDisplaced(h: Hub, es: seq<Event>, b: Call)
    requires Inv(h) && HasSender(h, b)
    requires forall i :: 0 <= i < |es| ==> es[i] != Timeout(b)
    ensures Served(Run(h, es), b) <==> !DisplacedIn(h, es, b)
    ensures Deserted(Run(h, es), b) <==> DisplacedIn(h, es, b)
    decreases |es|
  {
    if es != [] {
      var h', rest := Step(h, es[0]), es[1..];
      StepKeepsInv(h, es[0]);
      StepServes(h, es[0], b);
      if Displaces(h, es[0], b) {
        DesertedForGood(h', rest, b);
      } else if h'.calls[b].Accepted? {
        AcceptedNotDisplaced(h', rest, b);
        AcceptedIsFinal(h', rest, b);
      } else {
        ServedUnlessDisplaced(h', rest, b);
      }
    }
  }

  // ---------------------------------------------------------------- a run where it happens

  lemma {:induction false} RunConcat(h: Hub, xs: seq<Event>, ys: seq<Event>)
    ensures Run(h, xs + ys) == Run(Run(h, xs), ys)
    decreases |xs|
  {
    if xs == [] {
      assert xs + ys == ys;
    } else {
      RunConcat(Step(h, xs[0]), xs[1..], ys);
      assert (xs + ys)[0] == xs[0] && (xs + ys)[1..] == xs[1..] + ys;
    }
  }

  lemma RunTwo(h: Hub, e: Event, f: Event)
    ensures Run(h, [e, f]) == Step(Step(h, e), f)
  {
    assert [e, f][1..] == [f] && [f][1..] == [];
    assert Run(Step(h, e), [f]) == Step(Step(h, e), f);
  }

  /** One call waits, registered. */
  function OneWaits(id: Id, a: Call): Hub {
    Hub(map[], map[id := a], map[], map[a := Waiting(id)], map[])
  }

  /** The first has timed out but not cleaned up; the second has replaced its registration. */
  function Replaced(id: Id, a: Call, b: Call): Hub {
    Hub(map[], map[id := b], map[], map[a := TimedOut(id), b := Waiting(id)], map[])
  }

  lemma FirstWaits(id: Id, a: Call)
    ensures Run(Empty, [StartAccept(a, id)] + [AcceptCheck(a), AcceptRegister(a)]) == OneWaits(id, a)
  {
    RunConcat(Empty, [StartAccept(a, id)], [AcceptCheck(a), AcceptRegister(a)]);
    var h := Step(Empty, StartAccept(a, id));
    assert [StartAccept(a, id)][1..] == [];
    assert Run(h, []) == h;
    RunTwo(h, AcceptCheck(a), AcceptRegister(a));
  }

  /** The first has timed out but not cleaned up; the second is about to look. */
  function BothThere(id: Id, a: Call, b: Call): Hub {
    Hub(map[], map[id := a], map[], map[a := TimedOut(id), b := Accepting(id)], map[])
  }

  lemma SecondArrives(id: Id, a: Call, b: Call)
    requires a != b
    ensures Run(OneWaits(id, a), [Timeout(a), StartAccept(b, id)]) == BothThere(id, a, b)
  {
    RunTwo(OneWaits(id, a), Timeout(a), StartAccept(b, id));
    var h := Step(OneWaits(id, a), Timeout(a));
    assert h == Hub(map[], map[id := a], map[], map[a := TimedOut(id)], map[]);
    assert Step(h, StartAccept(b, id)) == BothThere(id, a, b);
  }

  lemma SecondRegisters(id: Id, a: Call, b: Call)
    requires a != b
    ensures Run(BothThere(id, a, b), [AcceptCheck(b), AcceptRegister(b)]) == Replaced(id, a, b)
  {
    RunTwo(BothThere(id, a, b), AcceptCheck(b), AcceptRegister(b));
    var h := Step(BothThere(id, a, b), AcceptCheck(b));
    assert h == Hub(map[], map[id := a], map[], map[a := TimedOut(id), b := AcceptMissed(id)], map[]);
    assert Step(h, AcceptRegister(b)) == Replaced(id, a, b);
  }

  lemma SecondReplaces(id: Id, a: Call, b: Call)
    requires a != b
    ensures Run(OneWaits(id, a), [Timeout(a), StartAccept(b, id)] + [AcceptCheck(b), AcceptRegister(b)])
         == Replaced(id, a, b)
  {
    RunConcat(OneWaits(id, a), [Timeout(a), StartAccept(b, id)], [AcceptCheck(b), AcceptRegister(b)]);
    SecondArrives(id, a, b);
    SecondRegisters(id, a, b);
  }

  /**
    The cleanup after a timeout removes whatever is registered under the id. A second call that
    registered in between loses its sender and fails, whatever its own timeout.
  */
  lemma LateCleanupFailsAnother(id: Id, a: Call, b: Call)
    requires a != b
    ensures var es := [StartAccept(a, id)] + [AcceptCheck(a), AcceptRegister(a)]
                      + ([Timeout(a), StartAccept(b, id)] + [AcceptCheck(b), AcceptRegister(b)])
                      + [Cleanup(a), SenderLost(b)];
      In(Run(Empty, es), b) && Run(Empty, es).calls[b] == Failed(id)
  {
    var xs := [StartAccept(a, id)] + [AcceptCheck(a), AcceptRegister(a)];
    var ys := [Timeout(a), StartAccept(b, id)] + [AcceptCheck(b), AcceptRegister(b)];
    RunConcat(Empty, xs + ys, [Cleanup(a), SenderLost(b)]);
    RunConcat(Empty, xs, ys);
    FirstWaits(id, a);
    SecondReplaces(id, a, b);
    RunTwo(Replaced(id, a, b), Cleanup(a), SenderLost(b));
  }

  // ---------------------------------------------------------------- what was sent is received

  /** The remote end x was sent to the waiting call c and is not received yet. */
  ghost predicate Sent(h: Hub, c: Call, x: Remote) {
    In(h, c) && h.calls[c].Waiting? && c in h.channel && h.channel[c] == x
  }

  /** The call with its id, and what was sent to it. */
  ghost predicate SameWait(h: Hub, h': Hub, c: Call) {
    && In(h, c) && In(h', c) && h'.calls[c] == h.calls[c]
    && c in h.channel && c in h'.channel && h'.channel[c] == h.channel[c]
  }

  lemma NotifyLeavesSent(h: Hub, d: Call, c: Call, x: Remote)
    requires NotifiersOk(h) && ChannelOk(h) && Sent(h, c, x)
    ensures SameWait(h, StepOpenNotify(h, d), c)
  {
  }

  lemma OpenLeavesSent(h: Hub, e: Event, c: Call, x: Remote)
    requires Sent(h, c, x) && (e.StartOpen? || e.OpenStore? || e.StartAccept? || e.StartPoll? || e.GiveUp?)
    ensures SameWait(h, Step(h, e), c)
  {
  }

  lemma TakeLeavesSent(h: Hub, e: Event, c: Call, x: Remote)
    requires Sent(h, c, x) && (e.AcceptCheck? || e.Poll? || e.AcceptRegister? || e.Cleanup?)
    ensures SameWait(h, Step(h, e), c)
  {
  }

  lemma OthersLeaveSent(h: Hub, e: Event, c: Call, x: Remote)
    requires Sent(h, c, x) && (e.Receive? || e.SenderLost? || e.Timeout?) && e != Receive(c) && e != Timeout(c)
    ensures SameWait(h, Step(h, e), c)
  {
  }

  /** Until the call receives or times out, what was sent to it stays there for it. */
  lemma {:induction false} SentStays(h: Hub, es: seq<Event>, c: Call, x: Remote)
    requires Inv(h) && Sent(h, c, x) && forall i :: 0 <= i < |es| ==> es[i] != Receive(c) && es[i] != Timeout(c)
    ensures Inv(Run(h, es)) && Sent(Run(h, es), c, x) && SameWait(h, Run(h, es), c)
    decreases |es|
  {
    if es != [] {
      var e := es[0];
      StepKeepsInv(h, e);
      if e.OpenNotify? {
        NotifyLeavesSent(h, e.call, c, x);
      } else if e.StartOpen? || e.OpenStore? || e.StartAccept? || e.StartPoll? || e.GiveUp? {
        OpenLeavesSent(h, e, c, x);
      } else if e.AcceptCheck? || e.Poll? || e.AcceptRegister? || e.Cleanup? {
        TakeLeavesSent(h, e, c, x);
      } else {
        OthersLeaveSent(h, e, c, x);
      }
      SentStays(Step(h, e), es[1..], c, x);
    }
  }

  /**
    A stream that an open hands to a waiting call is what that call returns, for good, when it receives
    before its timeout; whatever happens in between.
  */
  lemma HandedIsReturned(h: Hub, o: Call, c: Call, es: seq<Event>, fs: seq<Event>)
    requires Inv(h) && In(h, o) && h.calls[o].Opening? && Registered(h, c) && h.calls[c].Waiting?
    requires h.calls[o].id == h.calls[c].id
    requires forall i :: 0 <= i < |es| ==> es[i] != Receive(c) && es[i] != Timeout(c)
    ensures var h' := Run(Step(Run(Step(h, OpenNotify(o)), es), Receive(c)), fs);
      In(h', c) && h'.calls[c] == Accepted(h.calls[c].id, o)
  {
    var h1 := Step(h, OpenNotify(o));
    StepKeepsInv(h, OpenNotify(o));
    assert Sent(h1, c, o) && h1.calls[c] == h.calls[c];
    SentStays(h1, es, c, o);
    var h2 := Step(Run(h1, es), Receive(c));
    assert h2.calls[c] == Accepted(h.calls[c].id, o);
    AcceptedIsFinal(h2, fs, c);
  }

  /** Calls that nobody serves end: a poll gives up, a call whose sender is gone fails, a timeout ends the wait. */
  lemma UnservedCallsEnd(h: Hub, c: Call)
    requires In(h, c)
    ensures h.calls[c].Polling? ==> Step(h, GiveUp(c)).calls[c] == Failed(h.calls[c].id)
    ensures h.calls[c].Waiting? && !HasSender(h, c) ==> Step(h, SenderLost(c)).calls[c] == Failed(h.calls[c].id)
    ensures h.calls[c].Waiting? ==>
      Step(h, Timeout(c)).calls[c] == TimedOut(h.calls[c].id) && c !in Step(h, Timeout(c)).channel
  {
  }
}
