/** The relay server: a map from connection id to the player's last known
    transform, updated on connect, `playerMovement` and disconnect, each event
    answered with an outbox of `(recipients, message)` pairs.

    Recipients are written out as sets of connection ids: `socket.emit` goes
    to the connection itself, `socket.broadcast.emit` to every other open
    connection. Only connections, movement and disconnects are handled; the
    server has no handler for `shootBullet` or `playerHit`. */
module Relay {
  import opened Common

  /** A stored player: `{position, rotation: {y}}`. */
  datatype Transform = Transform(position: Vec3, rotationY: real)

  /** Where a new player is put: position (0, 1.5, 0), rotation.y 0. */
  const Spawn: Transform := Transform(Vec3(0.0, 1.5, 0.0), 0.0)

  /** A `playerMovement` payload. Its fields are spread into the relayed
      message after the sender's id, so an `id` field of its own, when
      present, replaces the sender's id there. */
  datatype Movement = Movement(position: Vec3, rotationY: real, id: Option<string>)

  datatype ServerMsg =
    | CurrentPlayers(players: map<string, Transform>)
    | NewPlayer(id: string, transform: Transform)
    | PlayerMoved(id: string, position: Vec3, rotationY: real)
    | PlayerDisconnected(id: string)

  datatype Envelope = Envelope(to: set<string>, msg: ServerMsg)

  /** The server's `players` map, and the ids of the open connections. */
  datatype Relay = Relay(players: map<string, Transform>, sockets: set<string>)

  datatype Step = Step(relay: Relay, outbox: seq<Envelope>)

  const Empty: Relay := Relay(map[], {})

  /** The `connection` handler: store the newcomer at the spawn transform, send
      it the whole map (its own entry included), and tell every other
      connection about it. */
  function OnConnection(s: Relay, id: string): (r: Step)
    ensures r.relay.players == s.players[id := Spawn]
    ensures r.relay.sockets == s.sockets + {id}
    ensures |r.outbox| == 2
    ensures r.outbox[0].to == {id} && r.outbox[0].msg == CurrentPlayers(r.relay.players)
    ensures id in r.outbox[0].msg.players && r.outbox[0].msg.players[id] == Spawn
    ensures r.outbox[1].to == r.relay.sockets - {id} && id !in r.outbox[1].to
    ensures r.outbox[1].msg == NewPlayer(id, Spawn)
  {
    var players := s.players[id := Spawn];
    var sockets := s.sockets + {id};
    Step(Relay(players, sockets),
         [Envelope({id}, CurrentPlayers(players)), Envelope(sockets - {id}, NewPlayer(id, players[id]))])
  }

  /** The `playerMovement` handler: for a known sender, overwrite its position
      and rotation and relay `{id, ...data}` to everyone else; for an unknown
      sender, nothing. */
  function OnPlayerMovement(s: Relay, id: string, data: Movement): (r: Step)
    ensures id !in s.players ==> r == Step(s, [])
    ensures id in s.players ==>
              && r.relay.players.Keys == s.players.Keys
              && r.relay.players[id] == Transform(data.position, data.rotationY)
              && (forall other | other in s.players && other != id :: r.relay.players[other] == s.players[other])
              && r.relay.sockets == s.sockets
              && |r.outbox| == 1
              && r.outbox[0].to == s.sockets - {id}
              && r.outbox[0].msg == PlayerMoved(if data.id.Some? then data.id.value else id, data.position, data.rotationY)
  {
    if id in s.players then
      var relayed := match data.id case Some(own) => own case None => id;
      Step(s.(players := s.players[id := Transform(data.position, data.rotationY)]),
           [Envelope(s.sockets - {id}, PlayerMoved(relayed, data.position, data.rotationY))])
    else
      Step(s, [])
  }

  /** The `disconnect` handler: drop the entry and tell the remaining
      connections. */
  function OnDisconnect(s: Relay, id: string): (r: Step)
    ensures r.relay.players.Keys == s.players.Keys - {id}
    ensures forall other | other in r.relay.players :: r.relay.players[other] == s.players[other]
    ensures r.relay.sockets == s.sockets - {id}
    ensures r.outbox == [Envelope(r.relay.sockets, PlayerDisconnected(id))]
  {
    var players := map k | k in s.players && k != id :: s.players[k];
    Step(Relay(players, s.sockets - {id}), [Envelope(s.sockets - {id}, PlayerDisconnected(id))])
  }

  /** A movement relayed for a payload without an `id` field names its
      sender, and never reaches the sender. */
  lemma MovementNamesSender(s: Relay, id: string, data: Movement)
    requires id in s.players && data.id.None?
    ensures var r := OnPlayerMovement(s, id, data);
            forall e | e in r.outbox :: e.msg.PlayerMoved? && e.msg.id == id && id !in e.to
  {
  }

  /** A connection that leaves again restores the map it joined, when its id
      was not already present. */
  lemma ConnectThenDisconnect(s: Relay, id: string)
    requires id !in s.players && id !in s.sockets
    ensures var joined := OnConnection(s, id).relay;
            OnDisconnect(joined, id).relay == s
  {
    var left := OnDisconnect(OnConnection(s, id).relay, id).relay;
    assert left.players == s.players;
  }

  // ---------------------------------------------------------------------------
  // Event traces
  // ---------------------------------------------------------------------------

  datatype Event = Connect(id: string) | Move(id: string, data: Movement) | Disconnect(id: string)

  function Handle(s: Relay, ev: Event): Step
  {
    match ev
    case Connect(id) => OnConnection(s, id)
    case Move(id, data) => OnPlayerMovement(s, id, data)
    case Disconnect(id) => OnDisconnect(s, id)
  }

  /** The relay after a sequence of events. */
  function Run(events: seq<Event>): Relay
    decreases |events|
  {
    if |events| == 0 then Empty else Handle(Run(events[..|events| - 1]), events[|events| - 1]).relay
  }

  /** Ids that connected and have not disconnected since. */
  function Online(events: seq<Event>): set<string>
    decreases |events|
  {
    if |events| == 0 then {}
    else
      var before := Online(events[..|events| - 1]);
      match events[|events| - 1]
      case Connect(id) => before + {id}
      case Move(_, _) => before
      case Disconnect(id) => before - {id}
  }

  /** The map's keys are always exactly the connected ids that have not
      disconnected, and so are the open connections the relay broadcasts to. */
  lemma {:induction false} KeysAreOnline(events: seq<Event>)
    ensures Run(events).players.Keys == Online(events)
    ensures Run(events).sockets == Online(events)
  {
    if |events| > 0 {
      KeysAreOnline(events[..|events| - 1]);
    }
  }

  /** No message ever goes back to the connection that caused it, except the
      newcomer's own `currentPlayers`. */
  lemma NoEcho(s: Relay, ev: Event)
    ensures forall e | e in Handle(s, ev).outbox && !e.msg.CurrentPlayers? :: ev.id !in e.to
  {
  }
}
