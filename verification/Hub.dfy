/** The websocket hub: clients by user, pushes to a user, broadcasts to a room, and each client's
    bounded queue. */
module Hub {

  const CAPACITY := 256

  // ---------------------------------------------------------------- one client's view

  /** All that pushes and broadcasts have to do with one client. `accepted` is everything its queue ever
      took, `sent` what the write pump has taken out again. */
  datatype View = View(user: string, registered: bool, room: string, cancelled: bool,
                       queue: seq<string>, accepted: seq<string>, sent: seq<string>)

  /** What happens, as one client sees it; what happens to other clients is not among it. */
  datatype Op =
    | Registers
    | Unregisters
    | Pushes(user: string, data: string)
    | Broadcasts(room: string, data: string)
    | SetsRoom(room: string)
    | Cancels
    | Pumps

  function NewView(user: string): View {
    View(user, false, "", false, [], [], [])
  }

  predicate Concerns(v: View, op: Op) {
    match op
    case Pushes(user, _) => v.registered && v.user == user
    case Broadcasts(room, _) => v.registered && v.room == room
    case _ => false
  }

  /** Nothing keeps the client from taking a message. */
  predicate Open(v: View) {
    !v.cancelled && |v.queue| < CAPACITY
  }

  /** `Send`: a full queue refuses; a cancelled client with room may do either. */
  function Offered(v: View, data: string, takes: bool): View {
    if |v.queue| >= CAPACITY || (v.cancelled && !takes) then v
    else v.(queue := v.queue + [data], accepted := v.accepted + [data])
  }

  function Step(v: View, op: Op, takes: bool): View {
    match op
    case Registers => v.(registered := true)
    case Unregisters => v.(registered := false)
    case Pushes(_, data) => if Concerns(v, op) then Offered(v, data, takes) else v
    case Broadcasts(_, data) => if Concerns(v, op) then Offered(v, data, takes) else v
    case SetsRoom(room) => v.(room := room)
    case Cancels => v.(cancelled := true)
    case Pumps => if v.queue == [] then v else v.(queue := v.queue[1..], sent := v.sent + [v.queue[0]])
  }

  function Steps(v: View, ops: seq<(Op, bool)>): View
    decreases |ops|
  {
    if ops == [] then v else Steps(Step(v, ops[0].0, ops[0].1), ops[1..])
  }

  /** What is meant for the client: everything pushed to its user or broadcast to its active room while
      it is registered, in order. */
  function MeantFor(v: View, ops: seq<(Op, bool)>): seq<string>
    decreases |ops|
  {
    if ops == [] then []
    else
      var rest := MeantFor(Step(v, ops[0].0, ops[0].1), ops[1..]);
      if Concerns(v, ops[0].0) then [ops[0].0.data] + rest else rest
  }

  /** Whenever something is meant for the client, it can take it. */
  predicate AlwaysOpen(v: View, ops: seq<(Op, bool)>)
    decreases |ops|
  {
    ops == [] || ((Concerns(v, ops[0].0) ==> Open(v)) && AlwaysOpen(Step(v, ops[0].0, ops[0].1), ops[1..]))
  }

  /** `a` is `b` with some messages left out. */
  predicate Subsequence(a: seq<string>, b: seq<string>)
    decreases |b|
  {
    if b == [] then a == []
    else (a != [] && a[0] == b[0] && Subsequence(a[1..], b[1..])) || Subsequence(a, b[1..])
  }

  ghost predicate Fifo(v: View) {
    v.sent + v.queue == v.accepted && |v.queue| <= CAPACITY
  }

  lemma FifoStep(v: View, op: Op, takes: bool)
    requires Fifo(v)
    ensures Fifo(Step(v, op, takes))
  {
  }

  /** Delivery: in any run a client accepts, in order and at most once each, messages that are meant for
      it, and the pump sends what was accepted, first in first out; it accepts all of them if it is open
      whenever one comes. */
  lemma {:induction false} Delivery(v: View, ops: seq<(Op, bool)>) returns (taken: seq<string>)
    requires Fifo(v)
    ensures Steps(v, ops).accepted == v.accepted + taken && Subsequence(taken, MeantFor(v, ops))
    ensures AlwaysOpen(v, ops) ==> taken == MeantFor(v, ops)
    ensures Fifo(Steps(v, ops))
    decreases |ops|
  {
    if ops == [] {
      taken := [];
    } else {
      var op, takes := ops[0].0, ops[0].1;
      var v1 := Step(v, op, takes);
      FifoStep(v, op, takes);
      var rest := Delivery(v1, ops[1..]);
      taken := if v1.accepted == v.accepted then rest else [op.data] + rest;
      StepTakes(v, op, takes, rest, MeantFor(v1, ops[1..]));
    }
  }

  /** One step adds at most the message it is about. */
  lemma StepTakes(v: View, op: Op, takes: bool, rest: seq<string>, meant: seq<string>)
    requires Subsequence(rest, meant)
    ensures var v1 := Step(v, op, takes);
            if !Concerns(v, op) then v1.accepted == v.accepted
            else if v1.accepted == v.accepted then Subsequence(rest, [op.data] + meant) && !Open(v)
            else v1.accepted + rest == v.accepted + ([op.data] + rest) && Subsequence([op.data] + rest, [op.data] + meant)
  {
  }

  // ---------------------------------------------------------------- what is meant for a client

  /** Whether the client is registered after some operations, by the last one that says so. */
  function RegisteredAfter(v: View, ops: seq<(Op, bool)>): bool {
    if ops == [] then v.registered
    else
      var last := ops[|ops| - 1].0;
      if last.Registers? then true
      else if last.Unregisters? then false
      else RegisteredAfter(v, ops[..|ops| - 1])
  }

  function RoomAfter(v: View, ops: seq<(Op, bool)>): string {
    if ops == [] then v.room
    else
      var last := ops[|ops| - 1].0;
      if last.SetsRoom? then last.room else RoomAfter(v, ops[..|ops| - 1])
  }

  /** A push to the client's user, or a broadcast to the room it entered last, while it is registered. */
  predicate Hears(v: View, before: seq<(Op, bool)>, op: Op) {
    && RegisteredAfter(v, before)
    && ((op.Pushes? && op.user == v.user) || (op.Broadcasts? && op.room == RoomAfter(v, before)))
  }

  function Heard(v: View, ops: seq<(Op, bool)>): seq<string> {
    if ops == [] then []
    else
      var before, last := ops[..|ops| - 1], ops[|ops| - 1].0;
      Heard(v, before) + if Hears(v, before, last) then [last.data] else []
  }

  lemma {:induction false} OneMore(v: View, ops: seq<(Op, bool)>, x: (Op, bool))
    ensures Steps(v, ops + [x]) == Step(Steps(v, ops), x.0, x.1)
    ensures MeantFor(v, ops + [x]) == MeantFor(v, ops) + if Concerns(Steps(v, ops), x.0) then [x.0.data] else []
    decreases |ops|
  {
    if ops == [] {
      assert [] + [x] == [x];
    } else {
      assert (ops + [x])[1..] == ops[1..] + [x];
      OneMore(Step(v, ops[0].0, ops[0].1), ops[1..], x);
    }
  }

  /** What is meant for a client in a run, by the operations alone. */
  lemma {:induction false} MeantIsHeard(v: View, ops: seq<(Op, bool)>)
    ensures MeantFor(v, ops) == Heard(v, ops)
    ensures var f := Steps(v, ops);
            f.user == v.user && f.registered == RegisteredAfter(v, ops) && f.room == RoomAfter(v, ops)
    decreases |ops|
  {
    if ops != [] {
      var n := |ops| - 1;
      assert ops == ops[..n] + [ops[n]];
      MeantIsHeard(v, ops[..n]);
      OneMore(v, ops[..n], ops[n]);
    }
  }

  /** A message is refused exactly if 256 are waiting, or if the client is cancelled and refuses. */
  lemma RefusedIff(v: View, data: string, takes: bool)
    ensures var v' := Offered(v, data, takes);
            if |v.queue| >= 256 || (v.cancelled && !takes) then v' == v
            else v'.queue == v.queue + [data] && v'.accepted == v.accepted + [data]
  {
  }

  // ---------------------------------------------------------------- the hub with its clients

  class Client {
    const userID: string
    var activeRoom: string
    var cancelled: bool
    var send: seq<string>
    ghost var accepted: seq<string>
    ghost var sent: seq<string>

    constructor (userID: string)
      ensures AsView(false) == NewView(userID)
    {
      this.userID := userID;
      activeRoom, cancelled, send := "", false, [];
      accepted, sent := [], [];
    }

    ghost function AsView(registered: bool): View
      reads this
    {
      View(userID, registered, activeRoom, cancelled, send, accepted, sent)
    }

    method Send(msg: string) returns (ok: bool)
      modifies this
      ensures exists takes :: AsView(true) == Offered(old(AsView(true)), msg, takes)
      ensures Open(old(AsView(true))) ==> ok
      ensures ok <==> AsView(true) != old(AsView(true))
    {
      if |send| >= CAPACITY {
        assert AsView(true) == Offered(old(AsView(true)), msg, true);
        return false;
      }
      if cancelled {
        var takes := *;
        if !takes {
          assert AsView(true) == Offered(old(AsView(true)), msg, false);
          return false;
        }
      }
      send := send + [msg];
      accepted := accepted + [msg];
      assert AsView(true) == Offered(old(AsView(true)), msg, true);
      ok := true;
    }

    method SetActiveRoom(room: string)
      modifies this`activeRoom
      ensures forall registered, takes :: AsView(registered) == Step(old(AsView(registered)), SetsRoom(room), takes)
    {
      activeRoom := room;
    }

    /** One message of the write pump. */
    method Pump() returns (msg: string)
      requires send != []
      modifies this
      ensures forall registered, takes :: AsView(registered) == Step(old(AsView(registered)), Pumps, takes)
      ensures msg == old(send)[0]
    {
      msg := send[0];
      send := send[1..];
      sent := sent + [msg];
    }
  }

  class ClientHub {
    var clients: map<string, set<Client>>

    constructor ()
      ensures Valid() && clients == map[]
    {
      clients := map[];
    }

    /** Every client is in the bucket of its own user, and no bucket is empty. */
    ghost predicate Valid()
      reads this
    {
      forall u :: u in clients ==> clients[u] != {} && forall c :: c in clients[u] ==> c.userID == u
    }

    predicate Registered(c: Client)
      reads this
    {
      c.userID in clients && c in clients[c.userID]
    }

    /** All registered clients. */
    ghost function All(): set<Client>
      reads this
    {
      set u, c | u in clients && c in clients[u] :: c
    }

    method Register(c: Client)
      requires Valid()
      modifies this
      ensures Valid() && Registered(c)
      ensures All() == old(All()) + {c}
    {
      if c.userID !in clients {
        clients := clients[c.userID := {}];
      }
      clients := clients[c.userID := clients[c.userID] + {c}];
      forall d | d in All() ensures d in old(All()) + {c} {
        var u :| u in clients && d in clients[u];
      }
      forall d | d in old(All()) ensures d in All() {
        var u :| u in old(clients) && d in old(clients)[u];
        assert u in clients && d in clients[u];
      }
    }

    method Unregister(c: Client)
      requires Valid()
      modifies this
      ensures Valid() && !Registered(c)
      ensures All() == old(All()) - {c}
    {
      if c.userID !in clients {
        return;
      }
      var bucket := clients[c.userID];
      if c !in bucket {
        return;
      }
      bucket := bucket - {c};
      clients := if bucket == {} then clients - {c.userID} else clients[c.userID := bucket];
      forall d | d in All() ensures d in old(All()) && d != c {
        var u :| u in clients && d in clients[u];
        assert u in old(clients) && d in old(clients)[u];
      }
      forall d | d in old(All()) && d != c ensures d in All() {
        var u :| u in old(clients) && d in old(clients)[u];
        assert u == c.userID ==> d in bucket;
        assert u in clients && d in clients[u];
      }
    }

    /** The client has seen the operation as `Step` says. */
    twostate predicate Saw(c: Client, op: Op)
      reads c
    {
      exists takes :: c.AsView(true) == Step(old(c.AsView(true)), op, takes)
    }

    /** The clients of `bucket` are offered the message, in any order. */
    method SendAll(bucket: set<Client>, op: Op)
      requires op.Pushes? || op.Broadcasts?
      requires forall c :: c in bucket ==> Concerns(c.AsView(true), op)
      modifies bucket
      ensures forall c :: c in bucket ==> Saw(c, op)
    {
      var todo := bucket;
      while todo != {}
        invariant todo <= bucket
        invariant forall c :: c in todo ==> unchanged(c)
        invariant forall c :: c in bucket - todo ==> Saw(c, op)
        decreases todo
      {
        var c :| c in todo;
        ghost var v := c.AsView(true);
        var _ := c.Send(op.data);
        ghost var takes :| c.AsView(true) == Offered(v, op.data, takes);
        assert c.AsView(true) == Step(old(c.AsView(true)), op, takes);
        todo := todo - {c};
      }
    }

    method Push(userID: string, data: string)
      requires Valid()
      modifies if userID in clients then clients[userID] else {}
      ensures forall c :: c in All() && c.userID == userID ==> Saw(c, Pushes(userID, data))
      ensures clients == old(clients)
    {
      if userID in clients {
        SendAll(clients[userID], Pushes(userID, data));
      }
    }

    method BroadcastToRoom(room: string, data: string)
      requires Valid()
      modifies All()
      ensures forall c :: c in All() ==> Saw(c, Broadcasts(room, data))
      ensures clients == old(clients)
    {
      var users := clients.Keys;
      ghost var served: set<Client> := {};
      while users != {}
        invariant users <= clients.Keys
        invariant forall u, c :: u in clients && c in clients[u] && u in users ==> unchanged(c)
        invariant forall u, c :: u in clients && c in clients[u] && u !in users ==> Saw(c, Broadcasts(room, data))
        decreases users
      {
        var user :| user in users;
        BroadcastToBucket(clients[user], room, data);
        users := users - {user};
      }
    }

    method BroadcastToBucket(bucket: set<Client>, room: string, data: string)
      modifies bucket
      ensures forall c :: c in bucket ==> Saw(c, Broadcasts(room, data))
    {
      var op := Broadcasts(room, data);
      var todo := bucket;
      while todo != {}
        invariant todo <= bucket
        invariant forall c :: c in todo ==> unchanged(c)
        invariant forall c :: c in bucket - todo ==> Saw(c, op)
        decreases todo
      {
        var c :| c in todo;
        ghost var v := c.AsView(true);
        if c.activeRoom == room {
          var _ := c.Send(data);
          ghost var takes :| c.AsView(true) == Offered(v, data, takes);
          assert c.AsView(true) == Step(old(c.AsView(true)), op, takes);
        } else {
          assert c.AsView(true) == Step(old(c.AsView(true)), op, true);
        }
        todo := todo - {c};
      }
    }
  }
}
