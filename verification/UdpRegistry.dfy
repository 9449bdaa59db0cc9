/** The UDP chat server, which learns its clients from the datagrams it receives
    (MoreLearning/UDP_CHAT/Brodcast/Server.c). */
module UdpRegistry {
  import opened Common
  import opened Mail

  type Msg = string

  const MAX_CLIENTS: nat := 10

  /** The part of sockaddr_in the server compares. */
  datatype Address = Address(host: int, port: int)

  datatype Datagram = Datagram(from: Address, msg: Msg)

  type Post = Letter<Address, Msg>

  datatype State = State(clients: seq<Address>, sent: seq<Post>)

  const INIT := State([], [])

  // ---------------------------------------------------------------------------------------------
  // The server
  // ---------------------------------------------------------------------------------------------

  function Register(clients: seq<Address>, a: Address): seq<Address> {
    if a !in clients && |clients| < MAX_CLIENTS then clients + [a] else clients
  }

  /** What broadcasting to the first n clients sends. */
  function Posts(clients: seq<Address>, sender: Address, msg: Msg, n: nat): seq<Post>
    requires n <= |clients|
  {
    if n == 0 then []
    else if clients[n - 1] != sender then Posts(clients, sender, msg, n - 1) + [Letter(clients[n - 1], msg)]
    else Posts(clients, sender, msg, n - 1)
  }

  function Handle(s: State, d: Datagram): State {
    var clients := Register(s.clients, d.from);
    State(clients, s.sent + Posts(clients, d.from, d.msg, |clients|))
  }

  function Run(ds: seq<Datagram>): State {
    if ds == [] then INIT else Handle(Run(ds[..|ds| - 1]), Last(ds))
  }

  // ---------------------------------------------------------------------------------------------
  // The same as a function of the history alone
  // ---------------------------------------------------------------------------------------------

  /** The senders, each at its first datagram. */
  function Senders(ds: seq<Datagram>): seq<Address> {
    if ds == [] then []
    else
      var before := Senders(ds[..|ds| - 1]);
      if Last(ds).from in before then before else before + [Last(ds).from]
  }

  /** The first ten distinct senders. */
  function Roll(ds: seq<Datagram>): seq<Address> {
    var all := Senders(ds);
    all[..Min(MAX_CLIENTS, |all|)]
  }

  /** What a should be sent: from its registration on, every message that comes from another. */
  function Due(ds: seq<Datagram>, a: Address): seq<Msg> {
    if ds == [] then []
    else
      var before := ds[..|ds| - 1];
      if a in Roll(before) && Last(ds).from != a then Due(before, a) + [Last(ds).msg] else Due(before, a)
  }

  lemma {:induction false} SendersOnce(ds: seq<Datagram>)
    ensures Distinct(Senders(ds))
    ensures forall a :: a in Senders(ds) <==> exists i :: 0 <= i < |ds| && ds[i].from == a
  {
    if ds != [] {
      var before, d := ds[..|ds| - 1], Last(ds);
      SendersOnce(before);
      forall a ensures a in Senders(ds) <==> exists i :: 0 <= i < |ds| && ds[i].from == a {
        if a == d.from {
          assert ds[|ds| - 1].from == a;
        } else if exists i :: 0 <= i < |ds| && ds[i].from == a {
          var i :| 0 <= i < |ds| && ds[i].from == a;
          assert before[i].from == a;
        }
        if a in Senders(before) {
          var i :| 0 <= i < |before| && before[i].from == a;
          assert ds[i].from == a;
        }
      }
    }
  }

  function Origins(ds: seq<Datagram>): seq<Address> {
    seq(|ds|, i requires 0 <= i < |ds| => ds[i].from)
  }

  /** The senders stand in the order of their first datagrams. */
  lemma {:induction false} SendersByFirst(ds: seq<Datagram>)
    ensures forall i :: 0 <= i < |Senders(ds)| ==> IndexOf(Origins(ds), Senders(ds)[i]) < |ds|
    ensures forall i, j :: 0 <= i < j < |Senders(ds)| ==>
              IndexOf(Origins(ds), Senders(ds)[i]) < IndexOf(Origins(ds), Senders(ds)[j])
  {
    if ds != [] {
      var before, a := ds[..|ds| - 1], Last(ds).from;
      SendersByFirst(before);
      forall x ensures IndexOf(Origins(ds), x) == if IndexOf(Origins(before), x) < |before| then
                         IndexOf(Origins(before), x) else if x == a then |before| else |ds|
      {
        IndexOfAppend(Origins(before), a, x);
        assert Origins(ds) == Origins(before) + [a];
      }
      SendersOnce(before);
      if IndexOf(Origins(before), a) < |before| { assert before[IndexOf(Origins(before), a)].from == a; }
    }
  }

  /** After any datagrams the table is the first ten distinct senders in order of arrival. */
  lemma {:induction false} TableIsRoll(ds: seq<Datagram>)
    ensures Run(ds).clients == Roll(ds) && Distinct(Roll(ds)) && |Roll(ds)| <= MAX_CLIENTS
    ensures Run(ds).clients == Senders(ds)[..Min(10, |Senders(ds)|)]
  {
    SendersOnce(ds);
    if ds != [] {
      var before, a := ds[..|ds| - 1], Last(ds).from;
      TableIsRoll(before);
      var all := Senders(before);
      if |all| <= MAX_CLIENTS {
        assert Roll(before) == all;
      } else {
        assert Roll(ds) == Roll(before);
      }
    }
  }

  /** A broadcast reaches each registered address but the sender, once. */
  lemma {:induction false} PostsReach(clients: seq<Address>, sender: Address, msg: Msg, n: nat, a: Address)
    requires n <= |clients| && Distinct(clients)
    ensures Inbox(Posts(clients, sender, msg, n), a) == if Among(clients, n, a) && a != sender then [msg] else []
  {
    if n > 0 {
      PostsReach(clients, sender, msg, n - 1, a);
      AmongNext(clients, n - 1, a);
      InboxStep(Posts(clients, sender, msg, n - 1), Letter(clients[n - 1], msg), a);
    }
  }

  /** Each address has been sent exactly the messages that came from others after it was registered,
      once each and in order, whether or not their senders ever fitted in the table; and an address
      that is not registered has been sent nothing. */
  lemma {:induction false} InboxIsDue(ds: seq<Datagram>, a: Address)
    ensures Inbox(Run(ds).sent, a) == Due(ds, a)
    ensures a !in Roll(ds) ==> Due(ds, a) == []
  {
    if ds != [] {
      var before, d := ds[..|ds| - 1], Last(ds);
      InboxIsDue(before, a);
      TableIsRoll(before);
      TableIsRoll(ds);
      var clients := Run(ds).clients;
      assert clients == Register(Run(before).clients, d.from);
      PostsReach(clients, d.from, d.msg, |clients|, a);
      assert Among(clients, |clients|, a) <==> a in clients;
      InboxConcat(Run(before).sent, Posts(clients, d.from, d.msg, |clients|), a);
    }
  }

  // ---------------------------------------------------------------------------------------------
  // The server's code
  // ---------------------------------------------------------------------------------------------

  class Server {
    const clients: array<Address>
    var clientCount: nat
    var sent: seq<Post>

    ghost predicate Valid()
      reads this
    {
      clients.Length == MAX_CLIENTS && clientCount <= MAX_CLIENTS
    }

    ghost function Abs(): State
      requires Valid()
      reads this, clients
    {
      State(clients[..clientCount], sent)
    }

    constructor ()
      ensures Valid() && fresh(clients) && Abs() == INIT
    {
      clients := new Address[MAX_CLIENTS](_ => Address(0, 0));
      clientCount, sent := 0, [];
    }

    method Broadcast(sender: Address, msg: Msg)
      requires Valid()
      modifies this`sent
      ensures sent == old(sent) + Posts(clients[..clientCount], sender, msg, clientCount)
    {
      for i := 0 to clientCount
        invariant Valid()
        invariant sent == old(sent) + Posts(clients[..clientCount], sender, msg, i)
      {
        if clients[i].port != sender.port || clients[i].host != sender.host {
          sent := sent + [Letter(clients[i], msg)];
        }
      }
    }

    /** One turn of the main loop. */
    method Receive(d: Datagram)
      requires Valid()
      modifies this, clients
      ensures Valid() && Abs() == Handle(old(Abs()), d)
    {
      var found := false;
      for i := 0 to clientCount
        invariant Valid() && !found
        invariant d.from !in clients[..i]
      {
        if clients[i].port == d.from.port && clients[i].host == d.from.host {
          found := true;
          break;
        }
        assert clients[..i + 1] == clients[..i] + [clients[i]];
      }
      assert found <==> d.from in old(clients[..clientCount]);
      if !found && clientCount < MAX_CLIENTS {
        clients[clientCount] := d.from;
        clientCount := clientCount + 1;
      }
      assert clients[..clientCount] == Register(old(clients[..clientCount]), d.from);
      Broadcast(d.from, d.msg);
    }
  }
}
