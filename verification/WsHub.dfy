/** The WebSocket hub: it broadcasts every message to its member clients through bounded
    buffers and drops a client whose buffer is full. */
module WsHub {
  import opened Runs

  type Message = string
  type ClientId = nat

  const SEND_BUFFER := 256

  /** One client. `member` is its presence in the hub's map, `closed` the state of its send
      channel; `taken` is what its write pump has received, `since` the number of broadcasts made
      before it registered, `faults` the operations that would panic: a send on a closed channel
      or a second close. */
  datatype Client = Client(member: bool, closed: bool, send: seq<Message>, taken: seq<Message>, since: nat, faults: nat)
  {
    function Received(): seq<Message> { taken + send }
  }

  function Joined(since: nat): Client { Client(true, false, [], [], since, 0) }

  function Close(c: Client): Client { if c.closed then c.(faults := c.faults + 1) else c.(closed := true) }

  // unregister: only a member's channel is closed.
  function Leave(c: Client): Client { if c.member then Close(c.(member := false)) else c }

  // One client's share of a broadcast: a non-blocking send, and out of the hub if the buffer is full.
  function Deliver(c: Client, m: Message): Client
  {
    if !c.member then c
    else if c.closed then c.(faults := c.faults + 1)
    else if |c.send| < SEND_BUFFER then c.(send := c.send + [m])
    else Close(c.(member := false))
  }

  // The write pump receives the oldest buffered message; a closed channel is still drained.
  function Take(c: Client): Client
  {
    if c.send == [] then c else c.(taken := c.taken + [c.send[0]], send := c.send[1..])
  }

  datatype State = State(broadcasts: seq<Message>, clients: map<ClientId, Client>)

  datatype Event =
    | Register(c: ClientId)       // every connection makes its own client, and registers it once
    | Unregister(c: ClientId)
    | Broadcast(m: Message)
    | PumpTakes(c: ClientId)

  function Step(s: State, e: Event): State
  {
    match e
    case Register(c) => if c in s.clients then s else s.(clients := s.clients[c := Joined(|s.broadcasts|)])
    case Unregister(c) => if c in s.clients then s.(clients := s.clients[c := Leave(s.clients[c])]) else s
    case Broadcast(m) => State(s.broadcasts + [m], map c | c in s.clients :: Deliver(s.clients[c], m))
    case PumpTakes(c) => if c in s.clients then s.(clients := s.clients[c := Take(s.clients[c])]) else s
  }

  const EMPTY := State([], map[])

  // What a client has been handed, against the broadcasts made since it registered.
  ghost predicate ClientOk(c: Client, broadcasts: seq<Message>)
  {
    && c.since <= |broadcasts|
    && |c.send| <= SEND_BUFFER
    && c.Received() <= broadcasts[c.since..]
    && (c.member ==> c.Received() == broadcasts[c.since..])
    && c.closed == !c.member
    && c.faults == 0
  }

  ghost predicate Inv(s: State) { forall c <- s.clients :: ClientOk(s.clients[c], s.broadcasts) }

  lemma DeliverKeepsOk(c: Client, broadcasts: seq<Message>, m: Message)
    requires ClientOk(c, broadcasts)
    ensures ClientOk(Deliver(c, m), broadcasts + [m])
  {
    assert (broadcasts + [m])[c.since..] == broadcasts[c.since..] + [m];
    assert c.taken + (c.send + [m]) == c.Received() + [m];
  }

  lemma TakeKeepsReceived(c: Client)
    ensures Take(c).Received() == c.Received()
  {
    if c.send != [] {
      assert c.send == [c.send[0]] + c.send[1..];
    }
  }

  lemma StepKeepsInv(s: State, e: Event)
    requires Inv(s)
    ensures Inv(Step(s, e))
  {
    if e.Broadcast? {
      forall c | c in s.clients ensures ClientOk(Deliver(s.clients[c], e.m), s.broadcasts + [e.m]) {
        DeliverKeepsOk(s.clients[c], s.broadcasts, e.m);
      }
    } else if e.PumpTakes? && e.c in s.clients {
      TakeKeepsReceived(s.clients[e.c]);
    }
  }

  lemma {:induction false} AllRuns(es: seq<Event>)
    ensures Inv(Run(Step, EMPTY, es))
  {
    forall s, e | Inv(s) ensures Inv(Step(s, e)) { StepKeepsInv(s, e); }
    Invariant(Step, Inv, EMPTY, es);
  }

  /** In every run, what any client ever registered has taken and still has queued is a prefix of the
      broadcasts since it registered, without gaps, and all of them while it is a member. */
  lemma {:induction false} ReceivesPrefix(es: seq<Event>, c: ClientId)
    requires c in Run(Step, EMPTY, es).clients
    ensures var s := Run(Step, EMPTY, es);
      var client := s.clients[c];
      && client.since <= |s.broadcasts|
      && client.taken + client.send <= s.broadcasts[client.since..]
      && (client.member ==> client.taken + client.send == s.broadcasts[client.since..])
  {
    AllRuns(es);
    assert ClientOk(Run(Step, EMPTY, es).clients[c], Run(Step, EMPTY, es).broadcasts);
  }

  /** No send channel is closed twice and the hub never sends on a closed one: a channel is closed
      exactly when its client has left the hub. */
  lemma {:induction false} NoPanic(es: seq<Event>, c: ClientId)
    requires c in Run(Step, EMPTY, es).clients
    ensures var client := Run(Step, EMPTY, es).clients[c]; client.faults == 0 && client.closed == !client.member
  {
    AllRuns(es);
    assert ClientOk(Run(Step, EMPTY, es).clients[c], Run(Step, EMPTY, es).broadcasts);
  }

  /** A broadcast drops a member exactly when its 256-slot buffer is full: what it is handed in the
      end stops just before that message. */
  lemma {:induction false} DroppedOnlyWhenFull(es: seq<Event>, c: ClientId, m: Message)
    requires c in Run(Step, EMPTY, es).clients && Run(Step, EMPTY, es).clients[c].member
    ensures var s, t := Run(Step, EMPTY, es), Run(Step, EMPTY, es + [Broadcast(m)]);
      && c in t.clients
      && (!t.clients[c].member <==> |s.clients[c].send| == 256)
      && t.clients[c].Received() == s.clients[c].Received() + (if t.clients[c].member then [m] else [])
  {
    AllRuns(es);
    RunSnoc(Step, EMPTY, es, Broadcast(m));
    var client := Run(Step, EMPTY, es).clients[c];
    assert ClientOk(client, Run(Step, EMPTY, es).broadcasts);
    assert client.taken + (client.send + [m]) == client.Received() + [m];
  }

  // Once out, a client keeps what it was handed, and is never let in again.
  ghost predicate Gone(c: ClientId, received: seq<Message>, s: State)
  {
    c in s.clients && !s.clients[c].member && s.clients[c].Received() == received
  }

  /** After it has left, a client is handed nothing more, whatever the hub does. */
  lemma {:induction false} NothingAfterLeaving(es: seq<Event>, later: seq<Event>, c: ClientId)
    requires c in Run(Step, EMPTY, es).clients && !Run(Step, EMPTY, es).clients[c].member
    ensures Gone(c, Run(Step, EMPTY, es).clients[c].Received(), Run(Step, EMPTY, es + later))
  {
    var s := Run(Step, EMPTY, es);
    var received := s.clients[c].Received();
    RunConcat(Step, EMPTY, es, later);
    forall t, e | Gone(c, received, t) ensures Gone(c, received, Step(t, e)) {
      if e == PumpTakes(c) { TakeKeepsReceived(t.clients[c]); }
    }
    Invariant(Step, t => Gone(c, received, t), s, later);
  }

  /** A client that registers is a member from the next broadcast on; one that unregisters is out, its channel
      closed; and its write pump receives what was queued first. */
  lemma {:induction false} ComingAndGoing(es: seq<Event>, c: ClientId)
    ensures var s, t := Run(Step, EMPTY, es), Run(Step, EMPTY, es + [Register(c)]);
      && c in t.clients && t.broadcasts == s.broadcasts
      && (c !in s.clients ==> t.clients[c].member && t.clients[c].since == |s.broadcasts|
                              && t.clients[c].taken == t.clients[c].send == [])
    ensures var s, t := Run(Step, EMPTY, es), Run(Step, EMPTY, es + [Unregister(c)]);
      c in s.clients ==>
        && c in t.clients && !t.clients[c].member && t.clients[c].closed
        && t.clients[c].send == s.clients[c].send && t.clients[c].taken == s.clients[c].taken
    ensures var s, t := Run(Step, EMPTY, es), Run(Step, EMPTY, es + [PumpTakes(c)]);
      c in s.clients && s.clients[c].send != [] ==>
        && c in t.clients && s.clients[c].send == [s.clients[c].send[0]] + t.clients[c].send
        && t.clients[c].taken == s.clients[c].taken + [s.clients[c].send[0]]
  {
    AllRuns(es);
    RunSnoc(Step, EMPTY, es, Register(c));
    RunSnoc(Step, EMPTY, es, Unregister(c));
    RunSnoc(Step, EMPTY, es, PumpTakes(c));
    hide Run;
    var s := Run(Step, EMPTY, es);
    assert c in s.clients ==> ClientOk(s.clients[c], s.broadcasts);
  }

  // ---------- the hub's own loop ----------

  class WSClient {
    var closed: bool
    var send: seq<Message>
    ghost var member: bool
    ghost var taken: seq<Message>
    ghost var since: nat
    ghost var faults: nat

    ghost function Value(): Client reads this { Client(member, closed, send, taken, since, faults) }

    constructor ()
      ensures Value() == Client(false, false, [], [], 0, 0)
    {
      closed, send, member, taken, since, faults := false, [], false, [], 0, 0;
    }

    method CloseSend()
      modifies this
      ensures Value() == Close(old(Value()))
    {
      if closed { faults := faults + 1; }
      closed := true;
    }

    // The select with a default branch: a send that does not wait, or else the end of the membership.
    method Offer(message: Message) returns (kept: bool)
      requires member && !closed
      modifies this
      ensures Value() == Deliver(old(Value()), message) && kept == member == (old(|send|) < 256)
    {
      kept := |send| < SEND_BUFFER;
      if kept {
        send := send + [message];
      } else {
        member := false;
        CloseSend();
      }
    }
  }

  class WSHub {
    var clients: set<WSClient>
    ghost var broadcasts: seq<Message>

    ghost predicate Valid() reads this, clients { forall c <- clients :: c.member && ClientOk(c.Value(), broadcasts) }

    constructor ()
      ensures Valid() && clients == {} && broadcasts == []
    {
      clients, broadcasts := {}, [];
    }

    method Register(client: WSClient)
      requires Valid() && client !in clients && client.Value() == Client(false, false, [], [], 0, 0)
      modifies this, client
      ensures Valid() && clients == old(clients) + {client} && client.Value() == Joined(|broadcasts|)
      ensures client.member && client.since == |broadcasts| && client.send == []
      ensures broadcasts == old(broadcasts)
    {
      client.member, client.since := true, |broadcasts|;
      clients := clients + {client};
    }

    method Unregister(client: WSClient)
      requires Valid() && (client.member ==> client in clients)
      modifies this, client
      ensures Valid() && clients == old(clients) - {client} && client.Value() == Leave(old(client.Value()))
      ensures old(client.member) ==> !client.member && client.closed && client.send == old(client.send)
      ensures !old(client.member) ==> client.Value() == old(client.Value())
      ensures broadcasts == old(broadcasts)
    {
      if client in clients {
        clients := clients - {client};
        client.member := false;
        client.CloseSend();
      }
    }

    /** The broadcast case of run: the loop over the map hands the message to every member, in
        whatever order the map is walked, and deletes the slow ones while it goes. */
    method Broadcast(message: Message)
      requires Valid()
      modifies this, clients
      ensures Valid() && broadcasts == old(broadcasts) + [message]
      ensures forall c <- old(clients) :: c.Value() == Deliver(old(c.Value()), message)
      ensures clients == set c | c in old(clients) && old(|c.send|) < 256
      ensures forall c <- clients :: c.send == old(c.send) + [message] && !c.closed
      ensures forall c <- old(clients) - clients :: c.send == old(c.send) && c.closed
    {
      var todo := clients;
      assert forall c <- clients :: c.member && !c.closed;
      hide ClientOk;
      while todo != {}
        invariant todo <= old(clients) && clients <= old(clients)
        invariant forall c <- todo :: c in clients && c.Value() == old(c.Value())
        invariant forall c <- old(clients) - todo :: c.Value() == Deliver(old(c.Value()), message)
        invariant forall c <- old(clients) - todo :: c in clients <==> old(|c.send|) < SEND_BUFFER
        invariant broadcasts == old(broadcasts)
      {
        var client :| client in todo;
        todo := todo - {client};
        var kept := client.Offer(message);
        if !kept { clients := clients - {client}; }
      }
      broadcasts := broadcasts + [message];
      forall c | c in clients ensures ClientOk(c.Value(), broadcasts) {
        DeliverKeepsOk(old(c.Value()), old(broadcasts), message);
      }
    }
  }
}
