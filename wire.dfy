/** The observable surface of the lobby server of src/server.ts (and of the
    echo server of server.js): connections as
    the transport sees them, the outbound messages, the inbound messages, and the
    ordered log of every frame the server sends.

    A connection is identified by a `ConnId`. The transport keeps, per
    connection, its ready state, the `isAlive` flag the liveness sweep toggles,
    and how many pings it was sent. Every message the server sends is appended to
    one global log of `Delivery` records, in the order the sends are issued; the
    outbox of one connection is the projection `Inbox(log, c)`. */
module Wire {

  type ConnId = nat

  /** The ready states of a server-side WebSocket once it is connected. */
  datatype ReadyState = Open | Closing | Closed

  /** What the transport tracks per connection. */
  datatype Sock = Sock(state: ReadyState, isAlive: bool, pings: nat)

  /** Outbound messages, one variant per `type` the server emits. */
  datatype Msg =
    | JoinNotice(message: string)            // type "join"
    | LeaveNotice(message: string)           // type "leave"
    | ChatLine(message: string)              // type "chat"
    | FullLobby(message: string)             // type "fullLobby"
    | StartCountDown                         // type "startCountDown"
    | StopCountDown                          // type "stopCountDown"
    | Tick(time: string)                     // type "tick"
    | ShowCharacters                         // type "showCharacters"
    | PhaseAnnouncement(message: string)     // type "phaseAnnouncement"
    | RoleAssignment(message: string)        // type "roleAssignment"
    | CharacterSelected(index: int)          // type "characterSelection"
    | CharacterDeselected(index: int)        // type "characterDeselection"
    | GameStart(characters: seq<bool>)       // type "gameStart"
    | Raw(data: string)                      // an untyped frame, as server.js echoes it

  /** Inbound messages after JSON parsing, dispatched on their `type` field;
      any other `type` is `Other`. */
  datatype InMsg =
    | JoinRequest(username: string)          // type "join"
    | SelectCharacter(index: int)            // type "characterSelection"
    | ChatRequest(message: string)           // type "chat"
    | Other(kind: string)

  /** One frame handed to the transport: message `msg` sent on connection `to`. */
  datatype Delivery = Delivery(to: ConnId, msg: Msg)

  predicate IsOpen(socks: map<ConnId, Sock>, c: ConnId) {
    c in socks && socks[c].state == Open
  }

  predicate Distinct<T(==)>(s: seq<T>) {
    forall i, j :: 0 <= i < j < |s| ==> s[i] != s[j]
  }

  /** The frames one broadcast of `m` over `channel` emits: one per member whose
      connection is OPEN at that moment, in channel order. */
  function Fanout(socks: map<ConnId, Sock>, channel: seq<ConnId>, m: Msg): (r: seq<Delivery>)
    ensures |r| <= |channel|
    decreases |channel|
  {
    if channel == [] then []
    else
      var c := channel[0];
      (if IsOpen(socks, c) then [Delivery(c, m)] else []) + Fanout(socks, channel[1..], m)
  }

  /** Every frame of a broadcast carries its message and goes to an OPEN member
      of the channel. */
  lemma {:induction false} FanoutFrames(socks: map<ConnId, Sock>, channel: seq<ConnId>, m: Msg)
    ensures forall k :: 0 <= k < |Fanout(socks, channel, m)| ==>
      Fanout(socks, channel, m)[k].msg == m && Fanout(socks, channel, m)[k].to in channel &&
      IsOpen(socks, Fanout(socks, channel, m)[k].to)
    decreases |channel|
  {
    if channel != [] {
      var c := channel[0];
      var head: seq<Delivery> := if IsOpen(socks, c) then [Delivery(c, m)] else [];
      var rest := Fanout(socks, channel[1..], m);
      FanoutFrames(socks, channel[1..], m);
      assert forall x :: x in channel[1..] ==> x in channel;
      forall k | 0 <= k < |head + rest|
        ensures (head + rest)[k].msg == m && (head + rest)[k].to in channel && IsOpen(socks, (head + rest)[k].to)
      {
        if k >= |head| {
          assert (head + rest)[k] == rest[k - |head|];
        } else {
          assert (head + rest)[k] == Delivery(c, m) && channel[0] == c;
        }
      }
    }
  }

  /** The messages of `log` addressed to `c`, in log order. */
  function Inbox(log: seq<Delivery>, c: ConnId): seq<Msg>
    decreases |log|
  {
    if log == [] then []
    else (if log[0].to == c then [log[0].msg] else []) + Inbox(log[1..], c)
  }

  /** The connections the frames of `log` go to, in log order. */
  function Recipients(log: seq<Delivery>): (r: seq<ConnId>)
    ensures |r| == |log| && forall k :: 0 <= k < |log| ==> r[k] == log[k].to
  {
    seq(|log|, k requires 0 <= k < |log| => log[k].to)
  }

  /** `xs` is `ys` with some elements left out. */
  predicate IsSubsequence<T(==)>(xs: seq<T>, ys: seq<T>)
    decreases |ys|
  {
    if xs == [] then true
    else if ys == [] then false
    else (xs[0] == ys[0] && IsSubsequence(xs[1..], ys[1..])) || IsSubsequence(xs, ys[1..])
  }

  /** Concatenation regroups freely; stated once so that proofs about logs
      can cite it instead of rediscovering it element by element. */
  lemma AppendAssoc<T>(x: seq<T>, y: seq<T>, z: seq<T>)
    ensures x + (y + z) == (x + y) + z
  {
  }

  lemma {:induction false} InboxAppend(a: seq<Delivery>, b: seq<Delivery>, c: ConnId)
    ensures Inbox(a + b, c) == Inbox(a, c) + Inbox(b, c)
    decreases |a|
  {
    if a == [] {
      assert a + b == b;
    } else {
      var head := if a[0].to == c then [a[0].msg] else [];
      assert (a + b)[0] == a[0];
      assert (a + b)[1..] == a[1..] + b;
      InboxAppend(a[1..], b, c);
      AppendAssoc(head, Inbox(a[1..], c), Inbox(b, c));
    }
  }

  lemma InboxSnoc(log: seq<Delivery>, d: Delivery, c: ConnId)
    ensures Inbox(log + [d], c) == Inbox(log, c) + (if d.to == c then [d.msg] else [])
  {
    InboxAppend(log, [d], c);
    assert [d][1..] == [];
  }

  /** A connection no frame was addressed to has an empty outbox. */
  lemma {:induction false} InboxNone(log: seq<Delivery>, c: ConnId)
    requires forall k :: 0 <= k < |log| ==> log[k].to != c
    ensures Inbox(log, c) == []
    decreases |log|
  {
    if log != [] {
      assert forall k :: 0 <= k < |log[1..]| ==> log[1..][k] == log[k + 1];
      InboxNone(log[1..], c);
    }
  }

  /** A broadcast over a channel without repeated members gives each OPEN member
      exactly one copy of the message and nobody else anything. */
  lemma {:induction false} InboxOfFanout(socks: map<ConnId, Sock>, channel: seq<ConnId>, m: Msg, c: ConnId)
    requires Distinct(channel)
    ensures Inbox(Fanout(socks, channel, m), c) == if c in channel && IsOpen(socks, c) then [m] else []
    decreases |channel|
  {
    if channel != [] {
      var first := channel[0];
      var rest := channel[1..];
      assert channel == [first] + rest;
      assert Distinct(rest) by {
        forall i, j | 0 <= i < j < |rest| ensures rest[i] != rest[j] {
          assert rest[i] == channel[i + 1] && rest[j] == channel[j + 1];
        }
      }
      assert first !in rest by {
        forall j | 0 <= j < |rest| ensures rest[j] != first {
          assert rest[j] == channel[j + 1];
        }
      }
      InboxOfFanout(socks, rest, m, c);
      var head := if IsOpen(socks, first) then [Delivery(first, m)] else [];
      InboxAppend(head, Fanout(socks, rest, m), c);
      if head != [] {
        assert head[1..] == [];
      }
    }
  }

  /** The frames of one broadcast go out in channel order. */
  lemma {:induction false} FanoutInChannelOrder(socks: map<ConnId, Sock>, channel: seq<ConnId>, m: Msg)
    ensures IsSubsequence(Recipients(Fanout(socks, channel, m)), channel)
    decreases |channel|
  {
    if channel != [] {
      var rest := channel[1..];
      FanoutInChannelOrder(socks, rest, m);
      var f := Fanout(socks, rest, m);
      if IsOpen(socks, channel[0]) {
        var r := Recipients([Delivery(channel[0], m)] + f);
        assert r[1..] == Recipients(f);
      } else {
        assert Fanout(socks, channel, m) == f;
      }
    }
  }

  lemma {:induction false} SubsequenceOfItself<T>(a: seq<T>)
    ensures IsSubsequence(a, a)
    decreases |a|
  {
    if a != [] {
      SubsequenceOfItself(a[1..]);
    }
  }

  /** Removing one element (as `splice(k, 1)` does) leaves a subsequence. */
  lemma {:induction false} RemovalIsSubsequence<T>(a: seq<T>, k: nat)
    requires k < |a|
    ensures IsSubsequence(a[..k] + a[k + 1..], a)
    decreases |a|
  {
    var xs := a[..k] + a[k + 1..];
    if k == 0 {
      assert xs == a[1..];
      SubsequenceOfItself(a[1..]);
    } else {
      var tail := a[1..];
      assert xs[0] == a[0];
      assert xs[1..] == tail[..k - 1] + tail[k..];
      RemovalIsSubsequence(tail, k - 1);
    }
  }

  // Decimal rendering of the countdown value, as `String(n)` writes a
  // non-negative integer.

  function DigitChar(d: nat): (ch: char)
    requires d < 10
    ensures '0' <= ch <= '9'
  {
    (('0' as int) + d) as char
  }

  function Decimal(n: nat): (s: string)
    ensures |s| >= 1
    ensures forall i :: 0 <= i < |s| ==> '0' <= s[i] <= '9'
    ensures (s[0] == '0') <==> (n == 0)
    decreases n
  {
    if n < 10 then [DigitChar(n)] else Decimal(n / 10) + [DigitChar(n % 10)]
  }

  /** Reads back a string of decimal digits, as a client's `Number(time)` does. */
  function ParseDecimal(s: string): nat
    requires forall i :: 0 <= i < |s| ==> '0' <= s[i] <= '9'
    decreases |s|
  {
    if s == [] then 0
    else ParseDecimal(s[..|s| - 1]) * 10 + ((s[|s| - 1] as int) - ('0' as int))
  }

  lemma {:induction false} DecimalRoundTrip(n: nat)
    ensures ParseDecimal(Decimal(n)) == n
    decreases n
  {
    if n >= 10 {
      var s := Decimal(n);
      assert s[..|s| - 1] == Decimal(n / 10);
      DecimalRoundTrip(n / 10);
    }
  }

  /** Different counts give different tick strings. */
  lemma DecimalInjective(a: nat, b: nat)
    requires Decimal(a) == Decimal(b)
    ensures a == b
  {
    DecimalRoundTrip(a);
    DecimalRoundTrip(b);
  }
}
