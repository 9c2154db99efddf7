/**
  The managers of one node and the handlers of its event loop. Each handler takes the step of
  `RequestResponse` that bears its name: the fields of the objects stay the node's part of the
  system state.
*/
module NetworkService {
  import opened Common
  import opened RequestResponse

  class OutboundManager {
    var pendingResponses: map<nat, Waiter>

    constructor ()
      ensures pendingResponses == map[]
    {
      pendingResponses := map[];
    }

    method RegisterOutbound(id: nat, tx: Waiter)
      modifies this
      ensures pendingResponses == old(pendingResponses)[id := tx]
    {
      pendingResponses := pendingResponses[id := tx];
    }

    /** Takes the sender of an outbound id; it can be told only once. */
    method Route(id: nat) returns (tx: Option<Waiter>)
      modifies this
      ensures tx == if id in old(pendingResponses) then Some(old(pendingResponses)[id]) else None
      ensures pendingResponses == old(pendingResponses) - {id}
    {
      if id in pendingResponses {
        tx := Some(pendingResponses[id]);
        pendingResponses := pendingResponses - {id};
      } else {
        tx := None;
        assert pendingResponses - {id} == pendingResponses;
      }
    }

    /** Drains the map; every sender in it is told that the service stopped. */
    method ClearAll() returns (told: set<Waiter>)
      modifies this
      ensures pendingResponses == map[]
      ensures told == old(pendingResponses).Values
    {
      told := {};
      while pendingResponses != map[]
        invariant pendingResponses.Keys <= old(pendingResponses).Keys
        invariant forall id :: id in pendingResponses ==> pendingResponses[id] == old(pendingResponses)[id]
        invariant told <= old(pendingResponses).Values
        invariant forall id :: id in old(pendingResponses) && id !in pendingResponses ==>
          old(pendingResponses)[id] in told
        decreases pendingResponses.Keys
      {
        var id :| id in pendingResponses;
        told := told + {pendingResponses[id]};
        pendingResponses := pendingResponses - {id};
      }
    }
  }

  class InboundManager {
    var pendingReplies: map<nat, Request>
    var nextInboundId: nat

    constructor ()
      ensures pendingReplies == map[] && nextInboundId == 1
    {
      pendingReplies, nextInboundId := map[], 1;
    }

    method RegisterInbound(channel: Request, forwarded: bool) returns (id: nat)
      modifies this
      ensures id == old(nextInboundId) && nextInboundId == id + 1
      ensures forwarded ==> pendingReplies == old(pendingReplies)[id := channel]
      ensures !forwarded ==> pendingReplies == old(pendingReplies) - {id}
    {
      id := nextInboundId;
      nextInboundId := nextInboundId + 1;
      pendingReplies := pendingReplies[id := channel];
      if !forwarded {
        pendingReplies := pendingReplies - {id};
        assert pendingReplies == old(pendingReplies) - {id};
      }
    }

    method TakeReplyChannel(id: nat) returns (channel: Option<Request>)
      modifies this
      ensures channel == if id in old(pendingReplies) then Some(old(pendingReplies)[id]) else None
      ensures pendingReplies == old(pendingReplies) - {id}
      ensures nextInboundId == old(nextInboundId)
    {
      channel := if id in pendingReplies then Some(pendingReplies[id]) else None;
      pendingReplies := pendingReplies - {id};
    }

    method ClearAll()
      modifies this
      ensures pendingReplies == map[] && nextInboundId == old(nextInboundId)
    {
      pendingReplies := map[];
    }
  }

  class Service {
    const node: NodeId
    const outbound: OutboundManager
    const inbound: InboundManager
    var nextOut: nat
    var running: bool

    /** The objects hold this node's part of the system state. */
    ghost predicate Holds(s: System)
      reads this, outbound, inbound
    {
      && running == (node in s.running)
      && node in s.nextOut && s.nextOut[node] == nextOut
      && node in s.nextInbound && s.nextInbound[node] == inbound.nextInboundId
      && (forall out: nat {:trigger Request(node, out)} ::
            Request(node, out) in s.pendingResponses <==> out in outbound.pendingResponses)
      && (forall out :: out in outbound.pendingResponses ==>
            s.pendingResponses[Request(node, out)] == outbound.pendingResponses[out])
      && (forall id: nat {:trigger Inbound(node, id)} ::
            Inbound(node, id) in s.pendingReplies <==> id in inbound.pendingReplies)
      && (forall id :: id in inbound.pendingReplies ==>
            s.pendingReplies[Inbound(node, id)] == inbound.pendingReplies[id])
    }

    constructor (node: NodeId, ghost ids: set<NodeId>)
      requires node in ids
      ensures this.node == node && Holds(Init(ids)) && fresh(outbound) && fresh(inbound)
    {
      this.node := node;
      outbound := new OutboundManager();
      inbound := new InboundManager();
      nextOut, running := 0, true;
    }

    method HandleSendData(ghost s: System, to: NodeId, m: Message, waiter: Option<Waiter>) returns (id: nat)
      requires Holds(s) && running
      requires waiter.Some? ==> waiter.value !in s.askedBy
      modifies this, outbound
      ensures Holds(StepSend(s, node, to, m, waiter)) && running
      ensures id == old(nextOut) && nextOut == id + 1
      ensures StepSend(s, node, to, m, waiter).requests == s.requests[Request(node, id) := (to, m)]
      ensures outbound.pendingResponses ==
        if waiter.Some? then old(outbound.pendingResponses)[id := waiter.value] else old(outbound.pendingResponses)
    {
      id := nextOut;
      nextOut := nextOut + 1;
      if waiter.Some? {
        outbound.RegisterOutbound(id, waiter.value);
      }
    }

    /** An incoming Data or Info is answered by the network itself. */
    method HandleBuiltIn(ghost s: System, r: Request, m: Message, sent: bool) returns (reply: Message)
      requires Holds(s) && running
      requires r in s.requests && s.requests[r] == (node, m) && m.dataType in {Data, Info}
      ensures Holds(StepBuiltIn(s, r, sent))
      ensures reply.dataType == m.dataType && reply.payload == "OK"
      ensures StepBuiltIn(s, r, sent).requests == s.requests - {r}
      ensures StepBuiltIn(s, r, sent).responses == if sent then s.responses[r := reply] else s.responses
    {
      reply := Message(m.dataType, "OK");
    }

    /** An incoming Command or File. */
    method HandleForwardedRequest(ghost s: System, r: Request, forwarded: bool) returns (id: nat)
      requires Holds(s) && running && Inv(s)
      requires r in s.requests && s.requests[r].0 == node && s.requests[r].1.dataType in {Command, File}
      modifies inbound
      ensures Holds(StepRegister(s, r, forwarded))
      ensures id == s.nextInbound[node]
      ensures inbound.pendingReplies ==
        if forwarded then old(inbound.pendingReplies)[id := r] else old(inbound.pendingReplies) - {id}
      ensures StepRegister(s, r, forwarded).requests == s.requests - {r}
    {
      assert Inbound(node, inbound.nextInboundId) !in s.pendingReplies;
      id := inbound.RegisterInbound(r, forwarded);
    }

    method HandleSendResponse(ghost s: System, id: nat, m: Message, sent: bool) returns (channel: Option<Request>)
      requires Holds(s) && running
      modifies inbound
      ensures Holds(StepRespond(s, Inbound(node, id), m, sent))
      ensures channel.Some? <==> Inbound(node, id) in s.pendingReplies
      ensures channel.Some? ==> channel.value == s.pendingReplies[Inbound(node, id)]
      ensures inbound.pendingReplies == old(inbound.pendingReplies) - {id}
      ensures StepRespond(s, Inbound(node, id), m, sent).responses ==
        if channel.Some? && sent then s.responses[channel.value := m] else s.responses
    {
      channel := inbound.TakeReplyChannel(id);
    }

    /** A response or a send failure for an outbound id of this node. */
    method HandleOutcome(ghost s: System, out: nat, o: Outcome) returns (tx: Option<Waiter>)
      requires Holds(s) && running
      modifies outbound
      ensures Holds(StepRoute(s, Request(node, out), o))
      ensures tx.Some? <==> Request(node, out) in s.pendingResponses
      ensures tx.Some? ==> tx.value == s.pendingResponses[Request(node, out)]
      ensures outbound.pendingResponses == old(outbound.pendingResponses) - {out}
      ensures tx.Some? && tx.value in s.resolved ==>
        StepRoute(s, Request(node, out), o).resolved == s.resolved[tx.value := s.resolved[tx.value] + [o]]
      ensures tx.None? ==> StepRoute(s, Request(node, out), o) == s
    {
      tx := outbound.Route(out);
    }

    method HandleStop(ghost s: System) returns (told: set<Waiter>)
      requires Holds(s) && running
      modifies this, outbound, inbound
      ensures Holds(StepStop(s, node)) && !running
      ensures told == WaitersAt(s, node)
      ensures outbound.pendingResponses == map[] && inbound.pendingReplies == map[]
      ensures StepStop(s, node).resolved ==
        map w | w in s.resolved :: if w in told then s.resolved[w] + [Stopped] else s.resolved[w]
    {
      inbound.ClearAll();
      told := outbound.ClearAll();
      running := false;
      forall w ensures w in told <==> w in WaitersAt(s, node) {
        if w in told {
          var out :| out in old(outbound.pendingResponses) && old(outbound.pendingResponses)[out] == w;
          assert Request(node, out) in s.pendingResponses;
        }
        if w in WaitersAt(s, node) {
          var r :| r in s.pendingResponses && r.node == node && s.pendingResponses[r] == w;
          assert r == Request(node, r.out);
          assert r.out in old(outbound.pendingResponses);
        }
      }
    }
  }
}
