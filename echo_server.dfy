/** The echo server of server.js: every connection is tracked in
    `serv.clients` (insertion order), every message is echoed to every OPEN
    client, and a liveness sweep pings each live client and terminates each
    one that did not answer the previous ping. Unlike the sweep of
    src/server.ts, the `return` inside the `forEach` callback only ends that
    client's visit, so the sweep always visits every client. */
module EchoServer {
  import opened Wire
  import LobbyState

  /** `sock.terminate()`: the connection is destroyed at once. */
  function Terminate(k: Sock): Sock {
    k.(state := Closed)
  }

  /** The visit of one client in the sweep: terminate it when its flag is
      clear, otherwise clear the flag and ping it. */
  function SweepSock(k: Sock): Sock {
    if !k.isAlive then Terminate(k) else LobbyState.Probe(k)
  }

  /** `heartbeat`, the pong listener. */
  function Heartbeat(k: Sock): Sock {
    k.(isAlive := true)
  }

  /** One client's life across sweep intervals: in interval i it answers the
      pending ping exactly when answered[i], and then the sweep visits it. */
  function Lifetime(k: Sock, answered: seq<bool>): Sock
    decreases |answered|
  {
    if answered == [] then k
    else
      var n := |answered| - 1;
      var before := Lifetime(k, answered[..n]);
      SweepSock(if answered[n] then Heartbeat(before) else before)
  }

  /** After a sweep visit no client is marked alive. */
  lemma SweepClearsFlag(k: Sock)
    ensures !SweepSock(k).isAlive
    ensures SweepSock(k).state == Closed || SweepSock(k).state == k.state
  {
  }

  /** A client that answers every ping stays open, and is pinged once per
      interval. */
  lemma {:induction false} AnsweringClientSurvives(k: Sock, answered: seq<bool>)
    requires k.state == Open
    requires forall i :: 0 <= i < |answered| ==> answered[i]
    ensures Lifetime(k, answered).state == Open
    ensures Lifetime(k, answered).pings == k.pings + |answered|
    decreases |answered|
  {
    if answered != [] {
      var n := |answered| - 1;
      assert forall i :: 0 <= i < n ==> answered[..n][i] == answered[i];
      AnsweringClientSurvives(k, answered[..n]);
    }
  }

  /** A client that lets one interval (after the first) pass without
      answering is terminated by the sweep that ends it. */
  lemma MissedIntervalTerminates(k: Sock, answered: seq<bool>)
    requires |answered| >= 2 && !answered[|answered| - 1]
    ensures Lifetime(k, answered).state == Closed
  {
    var n := |answered| - 1;
    var prev := answered[..n];
    assert prev[..n - 1] == answered[..n - 1];
    SweepClearsFlag(if prev[n - 1] then Heartbeat(Lifetime(k, prev[..n - 1])) else Lifetime(k, prev[..n - 1]));
  }

  /** A terminated client stays terminated, whatever it answers later. */
  lemma {:induction false} TerminatedStaysClosed(k: Sock, answered: seq<bool>)
    requires k.state == Closed
    ensures Lifetime(k, answered).state == Closed
    decreases |answered|
  {
    if answered != [] {
      TerminatedStaysClosed(k, answered[..|answered| - 1]);
    }
  }

  class Server {
    var clients: seq<ConnId>        // serv.clients, in insertion order
    var socks: map<ConnId, Sock>
    var sent: seq<Delivery>

    predicate Valid()
      reads this
    {
      Distinct(clients) && forall i :: 0 <= i < |clients| ==> clients[i] in socks
    }

    constructor ()
      ensures Valid() && clients == [] && socks == map[] && sent == []
    {
      clients, socks, sent := [], map[], [];
    }

    /** A new connection joins `serv.clients` and starts alive. */
    method OnConnection(c: ConnId)
      requires Valid() && c !in socks
      modifies this
      ensures Valid()
      ensures clients == old(clients) + [c] && socks == old(socks)[c := Sock(Open, true, 0)]
      ensures sent == old(sent)
    {
      clients := clients + [c];
      socks := socks[c := Sock(Open, true, 0)];
    }

    /** A pong from connection `c`. */
    method OnPong(c: ConnId)
      requires Valid() && c in socks
      modifies this
      ensures Valid()
      ensures socks == old(socks)[c := Heartbeat(old(socks)[c])]
      ensures clients == old(clients) && sent == old(sent)
    {
      socks := socks[c := Heartbeat(socks[c])];
    }

    /** `serv.broadcast(data)`: send `data` to every OPEN client, in order. */
    method Broadcast(data: string)
      modifies this
      ensures sent == old(sent) + Fanout(socks, clients, Raw(data))
      ensures clients == old(clients) && socks == old(socks)
    {
      var log := sent;
      var i := 0;
      while i < |clients|
        invariant 0 <= i <= |clients|
        invariant clients == old(clients) && socks == old(socks) && sent == old(sent)
        invariant sent + Fanout(socks, clients, Raw(data)) == log + Fanout(socks, clients[i..], Raw(data))
      {
        var c := clients[i];
        var head: seq<Delivery> := if IsOpen(socks, c) then [Delivery(c, Raw(data))] else [];
        assert clients[i..][1..] == clients[i + 1..];
        AppendAssoc(log, head, Fanout(socks, clients[i + 1..], Raw(data)));
        if IsOpen(socks, c) {
          log := log + [Delivery(c, Raw(data))];
        }
        i := i + 1;
      }
      assert clients[i..] == [];
      assert log == sent + Fanout(socks, clients, Raw(data));
      sent := log;
    }

    /** The message listener: echo the frame unchanged to every OPEN client,
        the sender included, and to nobody else. */
    method OnMessage(data: string)
      requires Valid()
      modifies this
      ensures Valid() && clients == old(clients) && socks == old(socks)
      ensures forall c :: (Inbox(sent, c) == Inbox(old(sent), c) +
        (if c in clients && IsOpen(socks, c) then [Raw(data)] else []))
    {
      ghost var before := sent;
      Broadcast(data);
      forall c ensures Inbox(sent, c) == Inbox(before, c) +
        (if c in clients && IsOpen(socks, c) then [Raw(data)] else [])
      {
        InboxAppend(before, Fanout(socks, clients, Raw(data)), c);
        InboxOfFanout(socks, clients, Raw(data), c);
      }
    }

    /** The `ping` interval: every client is visited once, in order. */
    method Sweep()
      requires Valid()
      modifies this
      ensures Valid() && clients == old(clients) && sent == old(sent)
      ensures socks.Keys == old(socks).Keys
      ensures forall c :: c in old(socks) ==>
        socks[c] == if c in clients then SweepSock(old(socks)[c]) else old(socks)[c]
    {
      var table := socks;
      for i := 0 to |clients|
        invariant table.Keys == socks.Keys
        invariant forall j :: 0 <= j < i ==> table[clients[j]] == SweepSock(socks[clients[j]])
        invariant forall c :: c in socks && c !in clients[..i] ==> table[c] == socks[c]
      {
        var c := clients[i];
        assert c !in clients[..i];
        if !table[c].isAlive {
          table := table[c := Terminate(table[c])];
        } else {
          table := table[c := LobbyState.Probe(table[c])];
        }
        assert forall j :: 0 <= j < i ==> clients[j] != c;
      }
      assert clients[..|clients|] == clients;
      forall c | c in socks && c in clients
        ensures table[c] == SweepSock(socks[c])
      {
        var j :| 0 <= j < |clients| && clients[j] == c;
      }
      socks := table;
    }
  }
}
