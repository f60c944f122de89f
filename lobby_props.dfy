/** What the handlers of src/server.ts guarantee, proved over the step functions
    of LobbyState: each handler keeps the invariant `Inv`, and each has the
    effect on the roster, the character slots, the phase and the outboxes that
    the server's clients rely on. */
module LobbyProps {
  import opened Wire
  import opened Dealing
  import opened LobbyState

  // ----- helpers -----

  lemma RosterConnsDistinct(ps: seq<Player>)
    requires RosterOk(ps)
    ensures Distinct(Conns(ps))
  {
  }

  /** What one broadcast adds to the outbox of `x`. */
  lemma InboxAfterBroadcast(s: State, channel: seq<ConnId>, m: Msg, x: ConnId)
    requires Distinct(channel)
    ensures Inbox(WithBroadcast(s, channel, m).sent, x)
         == Inbox(s.sent, x) + (if x in channel && IsOpen(s.socks, x) then [m] else [])
  {
    InboxAppend(s.sent, Fanout(s.socks, channel, m), x);
    InboxOfFanout(s.socks, channel, m, x);
  }

  /** What two broadcasts over the same channel add to the outbox of `x`. */
  lemma InboxAfterTwo(log: seq<Delivery>, socks: map<ConnId, Sock>, channel: seq<ConnId>, m1: Msg, m2: Msg, x: ConnId)
    requires Distinct(channel)
    ensures Inbox(log + Fanout(socks, channel, m1) + Fanout(socks, channel, m2), x)
         == Inbox(log, x) + (if x in channel && IsOpen(socks, x) then [m1, m2] else [])
  {
    InboxAppend(log, Fanout(socks, channel, m1), x);
    InboxAppend(log + Fanout(socks, channel, m1), Fanout(socks, channel, m2), x);
    InboxOfFanout(socks, channel, m1, x);
    InboxOfFanout(socks, channel, m2, x);
  }

  /** Two logs addressed to known connections concatenate to one. */
  lemma KnownAppend(log: seq<Delivery>, more: seq<Delivery>, socks: map<ConnId, Sock>)
    requires forall k :: 0 <= k < |log| ==> log[k].to in socks
    requires forall k :: 0 <= k < |more| ==> more[k].to in socks
    ensures forall k :: 0 <= k < |log + more| ==> (log + more)[k].to in socks
  {
    forall k | 0 <= k < |log + more| ensures (log + more)[k].to in socks {
      if k >= |log| { assert (log + more)[k] == more[k - |log|]; }
    }
  }

  lemma BroadcastKeepsSentToKnown(s: State, channel: seq<ConnId>, m: Msg)
    requires SentToKnown(s)
    ensures SentToKnown(WithBroadcast(s, channel, m))
  {
    var f := Fanout(s.socks, channel, m);
    FanoutFrames(s.socks, channel, m);
    assert forall k :: 0 <= k < |f| ==> f[k].to in s.socks;
    KnownAppend(s.sent, f, s.socks);
  }

  lemma BroadcastKeepsCore(s: State, channel: seq<ConnId>, m: Msg)
    requires Core(s)
    ensures Core(WithBroadcast(s, channel, m))
  {
    BroadcastKeepsSentToKnown(s, channel, m);
  }

  /** The core carries over to a state with the same roster, slots,
      sockets and roles, a log to known connections, a clock in range, and a
      phase on the same side of the deal. */
  lemma CoreKept(s: State, r: State)
    requires Core(s)
    requires r.characters == s.characters && r.players == s.players && r.socks == s.socks
    requires r.roles == s.roles && r.sheep == s.sheep && r.wolves == s.wolves
    requires SentToKnown(r) && ClockOk(r)
    requires r.phase == PreGame || r.phase == CharacterSelection ==> s.phase == PreGame || s.phase == CharacterSelection
    requires InRound(r.phase) ==> InRound(s.phase)
    ensures Core(r)
  {
  }

  /** Roles carry over when the roster keeps each player's connection and role. */
  lemma RolesAfterRetag(s: State, r: State)
    requires RolesOk(s)
    requires r.roles == s.roles && r.phase == s.phase && r.sheep == s.sheep && r.wolves == s.wolves
    requires |r.players| == |s.players|
    requires forall k :: 0 <= k < |s.players| ==> r.players[k].conn == s.players[k].conn && r.players[k].role == s.players[k].role
    ensures RolesOk(r)
  {
  }

  /** Roles carry over when a player leaves the roster. */
  lemma RolesAfterRemoval(s: State, r: State, k: nat)
    requires RolesOk(s) && k < |s.players|
    requires r.roles == s.roles && r.phase == s.phase && r.sheep == s.sheep && r.wolves == s.wolves
    requires r.players == s.players[..k] + s.players[k + 1..]
    ensures RolesOk(r)
  {
    assert forall j :: 0 <= j < |r.players| ==> r.players[j] == s.players[if j < k then j else j + 1];
  }

  lemma HeldSlotsSameCharacters(ps: seq<Player>, qs: seq<Player>)
    requires |ps| == |qs| && forall k :: 0 <= k < |ps| ==> ps[k].character == qs[k].character
    ensures HeldSlots(ps) == HeldSlots(qs)
  {
    forall x | x in HeldSlots(ps) ensures x in HeldSlots(qs) {
      var k :| 0 <= k < |ps| && ps[k].character == x;
      assert qs[k].character == x;
    }
    forall x | x in HeldSlots(qs) ensures x in HeldSlots(ps) {
      var k :| 0 <= k < |qs| && qs[k].character == x;
      assert ps[k].character == x;
    }
  }

  lemma HeldSlotsUpdate(ps: seq<Player>, k: nat, q: Player)
    requires RosterOk(ps) && k < |ps|
    ensures HeldSlots(ps[k := q]) == (HeldSlots(ps) - {ps[k].character}) + {q.character}
  {
    var qs := ps[k := q];
    forall x | x in HeldSlots(qs) ensures x in (HeldSlots(ps) - {ps[k].character}) + {q.character} {
      var j :| 0 <= j < |qs| && qs[j].character == x;
      if j != k { assert ps[j].character == x; }
    }
    forall x | x in (HeldSlots(ps) - {ps[k].character}) + {q.character} ensures x in HeldSlots(qs) {
      if x == q.character {
        assert qs[k].character == x;
      } else {
        var j :| 0 <= j < |ps| && ps[j].character == x;
        assert j != k;
        assert qs[j].character == x;
      }
    }
  }

  /** Where each element of a roster with entry k removed came from. */
  lemma RemovalIndex<T>(a: seq<T>, k: nat, r: seq<T>)
    requires k < |a| && r == a[..k] + a[k + 1..]
    ensures |r| == |a| - 1
    ensures forall j :: 0 <= j < k ==> r[j] == a[j]
    ensures forall j :: k <= j < |r| ==> r[j] == a[j + 1]
  {
  }

  lemma HeldSlotsRemove(ps: seq<Player>, k: nat)
    requires RosterOk(ps) && k < |ps|
    ensures HeldSlots(ps[..k] + ps[k + 1..]) == HeldSlots(ps) - {ps[k].character}
  {
    var qs := ps[..k] + ps[k + 1..];
    RemovalIndex(ps, k, qs);
    forall x | x in HeldSlots(qs) ensures x in HeldSlots(ps) - {ps[k].character} {
      var j :| 0 <= j < |qs| && qs[j].character == x;
      var j' := if j < k then j else j + 1;
      assert qs[j] == ps[j'] && j' != k;
    }
    forall x | x in HeldSlots(ps) - {ps[k].character} ensures x in HeldSlots(qs) {
      var j :| 0 <= j < |ps| && ps[j].character == x;
      var i := if j < k then j else j - 1;
      assert qs[i] == ps[j];
    }
  }

  lemma RemovalKeepsRosterOk(ps: seq<Player>, k: nat)
    requires RosterOk(ps) && k < |ps|
    ensures RosterOk(ps[..k] + ps[k + 1..])
  {
    var qs := ps[..k] + ps[k + 1..];
    forall a, b | 0 <= a < b < |qs|
      ensures qs[a].conn != qs[b].conn && qs[a].character != qs[b].character
    {
      var a' := if a < k then a else a + 1;
      var b' := if b < k then b else b + 1;
      assert qs[a] == ps[a'] && qs[b] == ps[b'];
    }
  }

  // ----- initial state -----

  lemma InitialInv()
    ensures Inv(Initial())
  {
    var s := Initial();
    assert TakenSlots(s.characters) == {};
    assert multiset(s.roles) == multiset(RoleManifest);
  }

  // ----- connections -----

  /** Admission is refused exactly when the roster is full or the round has
      started. A refused connection gets one `fullLobby` message, which is all
      its outbox ever holds, and is closed; the roster, the slots, the phase,
      the countdown, the roles and the other sockets are untouched, and nobody
      else receives anything. */
  lemma ConnectionRefused(s: State, c: ConnId)
    requires SlotsOk(s) && SentToKnown(s) && c !in s.socks
    requires |s.players| >= MAX_PLAYERS || s.phase != PreGame
    ensures var r := ConnectionStep(s, c);
      r.players == s.players && r.characters == s.characters && r.phase == s.phase &&
      r.timeRemaining == s.timeRemaining && r.ticking == s.ticking &&
      r.sheep == s.sheep && r.wolves == s.wolves && r.roles == s.roles &&
      c in r.socks && r.socks[c].state == Closing && r.socks == s.socks[c := r.socks[c]] &&
      Inbox(r.sent, c) == [FullLobby(FULL_LOBBY_TEXT)] &&
      (forall x :: x != c ==> Inbox(r.sent, x) == Inbox(s.sent, x))
  {
    var d := Delivery(c, FullLobby(FULL_LOBBY_TEXT));
    InboxNone(s.sent, c);
    InboxSnoc(s.sent, d, c);
    forall x | x != c ensures Inbox(s.sent + [d], x) == Inbox(s.sent, x) {
      InboxSnoc(s.sent, d, x);
    }
  }

  /** An admitted connection joins the end of the roster, nameless and
      role-less, holding the lowest-numbered free slot, which is now marked
      taken; the connection that fills the lobby starts the countdown (which
      was not running) from the full lobby duration, and every open member is
      told so. The roles, the role
      channels and the other sockets are untouched. */
  lemma ConnectionAdmitted(s: State, c: ConnId)
    requires Inv(s) && c !in s.socks
    requires |s.players| < MAX_PLAYERS && s.phase == PreGame
    ensures var r := ConnectionStep(s, c);
      var n := |s.players|;
      |r.players| == n + 1 && r.players[..n] == s.players &&
      r.players[n].conn == c && r.players[n].username == "" && r.players[n].role == None &&
      var slot := r.players[n].character;
      slot < NUM_CHARACTERS && s.characters[slot] &&
      (forall j :: 0 <= j < slot ==> !s.characters[j]) &&
      r.characters == s.characters[slot := false] &&
      c in r.socks && r.socks[c] == Sock(Open, true, 0) && r.socks == s.socks[c := r.socks[c]] &&
      r.roles == s.roles && r.sheep == s.sheep && r.wolves == s.wolves &&
      r.phase == PreGame && r.timeRemaining == s.timeRemaining &&
      (r.ticking <==> |r.players| == MAX_PLAYERS) &&
      (|r.players| == MAX_PLAYERS ==> !s.ticking) &&
      (r.ticking ==> r.timeRemaining == TIME_UNTIL_GAME_START) &&
      forall x :: Inbox(r.sent, x) == Inbox(s.sent, x) +
        (if |r.players| == MAX_PLAYERS && x in Roster(r) && IsOpen(r.socks, x) then [StartCountDown] else [])
  {
    assert exists i :: 0 <= i < |s.characters| && s.characters[i] by {
      FreeSlotExists(s.characters, s.players);
    }
    var slot := LowestFree(s.characters);
    var s1 := Admit(s, c, slot);
    assert s1.players[..|s.players|] == s.players;
    var r := ConnectionStep(s, c);
    ConnectionKeepsInv(s, c);
    if |s1.players| == MAX_PLAYERS {
      RosterConnsDistinct(r.players);
      forall x ensures Inbox(r.sent, x) == Inbox(s.sent, x) + (if x in Roster(r) && IsOpen(r.socks, x) then [StartCountDown] else []) {
        InboxAfterBroadcast(s1, Roster(s1), StartCountDown, x);
      }
    }
  }

  /** A new player on a free slot keeps the roster well formed. */
  lemma AdmitKeepsCore(s: State, c: ConnId, slot: nat)
    requires Core(s) && c !in s.socks && |s.players| < MAX_PLAYERS && s.phase == PreGame
    requires slot < |s.characters| && s.characters[slot]
    ensures Core(Admit(s, c, slot))
  {
    var p := Player(c, "", slot, None);
    var r := Admit(s, c, slot);
    assert slot !in HeldSlots(s.players);
    HeldSlotsSnoc(s.players, p);
    assert RosterOk(r.players) by {
      forall a, b | 0 <= a < b < |r.players|
        ensures r.players[a].conn != r.players[b].conn && r.players[a].character != r.players[b].character
      {
        assert r.players[a] == s.players[a];
        if b == |s.players| {
          assert s.players[a].conn in s.socks;
          assert s.players[a].character in HeldSlots(s.players);
        } else {
          assert r.players[b] == s.players[b];
        }
      }
    }
    assert SlotsOk(r);
    assert SentToKnown(r);
    assert RolesOk(r) by {
      assert forall k :: 0 <= k < |s.players| ==> r.players[k] == s.players[k];
    }
  }

  lemma ConnectionKeepsInv(s: State, c: ConnId)
    requires Inv(s) && c !in s.socks
    ensures Inv(ConnectionStep(s, c))
  {
    if |s.players| >= MAX_PLAYERS || s.phase != PreGame {
    } else {
      assert exists i :: 0 <= i < |s.characters| && s.characters[i] by {
        FreeSlotExists(s.characters, s.players);
      }
      var s1 := Admit(s, c, LowestFree(s.characters));
      AdmitKeepsCore(s, c, LowestFree(s.characters));
      if |s1.players| == MAX_PLAYERS {
        BroadcastKeepsCore(s1, Roster(s1), StartCountDown);
      }
    }
  }

  // ----- messages -----

  lemma JoinKeepsInv(s: State, k: nat, u: string)
    requires Inv(s) && k < |s.players|
    ensures Inv(JoinStep(s, k, u))
  {
    var s1 := s.(players := s.players[k := s.players[k].(username := u)]);
    HeldSlotsSameCharacters(s.players, s1.players);
    assert Core(s1);
    BroadcastKeepsCore(s1, Roster(s1), JoinNotice(u + " has joined!"));
  }

  /** Moving player k from its slot to the free slot i keeps the roster well
      formed. */
  lemma ReseatKeepsSlots(s: State, k: nat, i: nat)
    requires SlotsOk(s) && k < |s.players| && i < NUM_CHARACTERS && s.characters[i]
    ensures var q := s.players[k].(character := i);
      SlotsOk(s.(players := s.players[k := q],
                 characters := s.characters[s.players[k].character := true][i := false]))
  {
    var q := s.players[k].(character := i);
    var ps := s.players[k := q];
    assert i !in HeldSlots(s.players);
    assert s.players[k].character in HeldSlots(s.players);
    HeldSlotsUpdate(s.players, k, q);
    assert RosterOk(ps) by {
      forall a, b | 0 <= a < b < |ps|
        ensures ps[a].conn != ps[b].conn && ps[a].character != ps[b].character
      {
        if a == k {
          assert s.players[b].character in HeldSlots(s.players);
        } else if b == k {
          assert s.players[a].character in HeldSlots(s.players);
        }
      }
    }
  }

  lemma SelectionKeepsInv(s: State, k: nat, i: int)
    requires Inv(s) && k < |s.players|
    ensures Inv(SelectionStep(s, k, i))
  {
    if 0 <= i < NUM_CHARACTERS && s.characters[i] {
      var previous := s.players[k].character;
      var s1 := s.(characters := s.characters[previous := true]);
      var s2 := WithBroadcast(s1, Roster(s1), CharacterDeselected(previous));
      var q := s2.players[k].(character := i);
      var s3 := s2.(players := s2.players[k := q], characters := s2.characters[i := false]);
      ReseatKeepsSlots(s, k, i);
      assert SlotsOk(s3);
      BroadcastKeepsSentToKnown(s1, Roster(s1), CharacterDeselected(previous));
      RolesAfterRetag(s, s3);
      assert Core(s3);
      BroadcastKeepsCore(s3, Roster(s3), CharacterSelected(i));
    }
  }

  lemma MessageKeepsInv(s: State, c: ConnId, m: InMsg)
    requires Inv(s)
    ensures Inv(MessageStep(s, c, m))
  {
    var k := IndexOf(s.players, c);
    if k >= 0 {
      match m
      case JoinRequest(u) => JoinKeepsInv(s, k, u);
      case SelectCharacter(i) => SelectionKeepsInv(s, k, i);
      case ChatRequest(t) => BroadcastKeepsCore(s, Roster(s), ChatLine(ChatBody(s.players[k].username, t)));
      case Other(_) =>
    }
  }

  /** Selecting a slot that is taken (by anyone, the sender included) or
      outside 0..14 changes nothing and sends nothing. */
  lemma SelectionRefused(s: State, c: ConnId, i: int)
    requires Seated(s) && IndexOf(s.players, c) >= 0
    requires !(0 <= i < NUM_CHARACTERS && s.characters[i])
    ensures MessageStep(s, c, SelectCharacter(i)) == s
  {
  }

  /** Selecting a free slot moves the sender from its old slot, which becomes
      free, to the new one, which becomes taken; nothing else but the log
      changes. */
  lemma SelectionMoves(s: State, c: ConnId, i: int)
    requires Seated(s) && IndexOf(s.players, c) >= 0
    requires 0 <= i < NUM_CHARACTERS && s.characters[i]
    ensures var k := IndexOf(s.players, c);
      var r := MessageStep(s, c, SelectCharacter(i));
      r == s.(players := s.players[k := s.players[k].(character := i)],
              characters := s.characters[s.players[k].character := true][i := false],
              sent := r.sent)
  {
  }

  /** The frames a selection of a free slot sends. */
  lemma SelectionLog(s: State, c: ConnId, i: int)
    requires Seated(s) && IndexOf(s.players, c) >= 0
    requires 0 <= i < NUM_CHARACTERS && s.characters[i]
    ensures var k := IndexOf(s.players, c);
      MessageStep(s, c, SelectCharacter(i)).sent
        == s.sent + Fanout(s.socks, Roster(s), CharacterDeselected(s.players[k].character))
                  + Fanout(s.socks, Roster(s), CharacterSelected(i))
  {
    var k := IndexOf(s.players, c);
    var s3 := s.(players := s.players[k := s.players[k].(character := i)]);
    assert Roster(s3) == Roster(s);
  }

  /** ... and every open member is sent `characterDeselection(old)` and then
      `characterSelection(new)`. */
  lemma SelectionNotifies(s: State, c: ConnId, i: int, x: ConnId)
    requires Seated(s) && RosterOk(s.players) && IndexOf(s.players, c) >= 0
    requires 0 <= i < NUM_CHARACTERS && s.characters[i]
    ensures var k := IndexOf(s.players, c);
      Inbox(MessageStep(s, c, SelectCharacter(i)).sent, x) == Inbox(s.sent, x) +
        (if x in Roster(s) && IsOpen(s.socks, x)
         then [CharacterDeselected(s.players[k].character), CharacterSelected(i)] else [])
  {
    var k := IndexOf(s.players, c);
    SelectionLog(s, c, i);
    RosterConnsDistinct(s.players);
    InboxAfterTwo(s.sent, s.socks, Roster(s), CharacterDeselected(s.players[k].character), CharacterSelected(i), x);
  }

  /** A chat message reaches every open member, the sender included, as the
      sender's name, ": " and at most MAX_MESSAGE_LENGTH characters. */
  lemma ChatEffect(s: State, c: ConnId, text: string)
    requires Seated(s) && RosterOk(s.players) && IndexOf(s.players, c) >= 0
    ensures var r := MessageStep(s, c, ChatRequest(text));
      var body := ChatBody(s.players[IndexOf(s.players, c)].username, text);
      r == s.(sent := r.sent) &&
      forall x :: Inbox(r.sent, x) == Inbox(s.sent, x) +
        (if x in Roster(s) && IsOpen(s.socks, x) then [ChatLine(body)] else [])
  {
    var k := IndexOf(s.players, c);
    RosterConnsDistinct(s.players);
    forall x ensures Inbox(ChatStep(s, k, text).sent, x) == Inbox(s.sent, x) +
        (if x in Roster(s) && IsOpen(s.socks, x) then [ChatLine(ChatBody(s.players[k].username, text))] else [])
    {
      InboxAfterBroadcast(s, Roster(s), ChatLine(ChatBody(s.players[k].username, text)), x);
    }
  }

  /** A `join` renames the sender (again, if it had a name) and announces it to
      every open member. */
  lemma JoinEffect(s: State, c: ConnId, u: string)
    requires Seated(s) && RosterOk(s.players) && IndexOf(s.players, c) >= 0
    ensures var k := IndexOf(s.players, c);
      var r := MessageStep(s, c, JoinRequest(u));
      r.players == s.players[k := s.players[k].(username := u)] &&
      r == s.(players := r.players, sent := r.sent) &&
      forall x :: Inbox(r.sent, x) == Inbox(s.sent, x) +
        (if x in Roster(s) && IsOpen(s.socks, x) then [JoinNotice(u + " has joined!")] else [])
  {
    var k := IndexOf(s.players, c);
    var s1 := s.(players := s.players[k := s.players[k].(username := u)]);
    assert Roster(s1) == Roster(s);
    RosterConnsDistinct(s.players);
    forall x ensures Inbox(JoinStep(s, k, u).sent, x) == Inbox(s.sent, x) +
        (if x in Roster(s) && IsOpen(s.socks, x) then [JoinNotice(u + " has joined!")] else [])
    {
      InboxAfterBroadcast(s1, Roster(s1), JoinNotice(u + " has joined!"), x);
    }
  }

  /** Messages of any other type, and messages on connections outside the
      roster, change nothing. */
  lemma IgnoredMessages(s: State, c: ConnId, m: InMsg)
    requires Seated(s)
    requires IndexOf(s.players, c) < 0 || m.Other?
    ensures MessageStep(s, c, m) == s
  {
  }

  // ----- slots -----

  /** The number of taken slots equals the roster size. */
  lemma TakenSlotsMatchRoster(s: State)
    requires Core(s)
    ensures |TakenSlots(s.characters)| == |s.players|
  {
    TakenAreHeld(s.characters, s.players);
    HeldSlotsSize(s.players);
  }

  // ----- close -----

  /** The frames a departure sends: `characterDeselection`, then `leave`, each
      to the whole roster (the leaver still in it). */
  lemma DepartLog(s: State, k: nat)
    requires k < |s.players| && s.players[k].character < |s.characters|
    ensures Depart(s, k).sent
         == s.sent + Fanout(s.socks, Roster(s), CharacterDeselected(s.players[k].character))
                   + Fanout(s.socks, Roster(s), LeaveNotice(s.players[k].username + " has left!"))
  {
  }

  /** What a departure adds to the outbox of `x`. */
  lemma DepartInbox(s: State, k: nat, x: ConnId)
    requires RosterOk(s.players) && k < |s.players| && s.players[k].character < |s.characters|
    ensures Inbox(Depart(s, k).sent, x) == Inbox(s.sent, x) +
      (if x in Roster(s) && IsOpen(s.socks, x)
       then [CharacterDeselected(s.players[k].character), LeaveNotice(s.players[k].username + " has left!")]
       else [])
  {
    DepartLog(s, k);
    RosterConnsDistinct(s.players);
    InboxAfterTwo(s.sent, s.socks, Roster(s), CharacterDeselected(s.players[k].character),
                  LeaveNotice(s.players[k].username + " has left!"), x);
  }

  /** A departure changes the slots, the roster and the log, nothing else. */
  lemma DepartShape(s: State, k: nat)
    requires k < |s.players| && s.players[k].character < |s.characters|
    ensures var r := Depart(s, k);
      r.characters == s.characters[s.players[k].character := true] &&
      r.players == s.players[..k] + s.players[k + 1..] &&
      r.socks == s.socks && r.phase == s.phase && r.timeRemaining == s.timeRemaining &&
      r.ticking == s.ticking && r.roles == s.roles && r.sheep == s.sheep && r.wolves == s.wolves
  {
  }

  /** A player's departure keeps the roster well formed. */
  lemma DepartKeepsCore(s: State, k: nat)
    requires Core(s) && k < |s.players|
    ensures Core(Depart(s, k))
  {
    var p := s.players[k];
    var r := Depart(s, k);
    DepartShape(s, k);
    DepartKeepsSlots(s, k);
    DepartKeepsSentToKnown(s, k);
    RolesAfterRemoval(s, r, k);
  }

  lemma DepartKeepsSlots(s: State, k: nat)
    requires SlotsOk(s) && k < |s.players|
    ensures SlotsOk(Depart(s, k))
  {
    var r := Depart(s, k);
    DepartShape(s, k);
    HeldSlotsRemove(s.players, k);
    RemovalKeepsRosterOk(s.players, k);
    assert s.players[k].character in HeldSlots(s.players);
    assert forall j :: 0 <= j < |r.players| ==> r.players[j] == s.players[if j < k then j else j + 1];
  }

  lemma DepartKeepsSentToKnown(s: State, k: nat)
    requires SentToKnown(s) && k < |s.players| && s.players[k].character < |s.characters|
    ensures SentToKnown(Depart(s, k))
  {
    var p := s.players[k];
    var s1 := s.(characters := s.characters[p.character := true]);
    var s2 := WithBroadcast(s1, Roster(s1), CharacterDeselected(p.character));
    BroadcastKeepsSentToKnown(s1, Roster(s1), CharacterDeselected(p.character));
    BroadcastKeepsSentToKnown(s2, Roster(s2), LeaveNotice(p.username + " has left!"));
  }

  /** Cancelling the lobby countdown touches only the clock, the timer flag
      and the log. */
  lemma HaltShape(s: State)
    ensures var r := HaltLobbyCountdown(s);
      var halt := |s.players| < MAX_PLAYERS && s.phase == PreGame;
      r.characters == s.characters && r.players == s.players && r.socks == s.socks &&
      r.phase == s.phase && r.roles == s.roles && r.sheep == s.sheep && r.wolves == s.wolves &&
      r.timeRemaining == (if halt then TIME_UNTIL_GAME_START else s.timeRemaining) &&
      r.ticking == (if halt then false else s.ticking)
  {
  }

  lemma HaltLog(s: State)
    ensures HaltLobbyCountdown(s).sent == s.sent +
      (if |s.players| < MAX_PLAYERS && s.phase == PreGame then Fanout(s.socks, Roster(s), StopCountDown) else [])
  {
  }

  /** What the cancellation adds to the outbox of `x`. */
  lemma HaltInbox(s: State, x: ConnId)
    requires RosterOk(s.players)
    ensures Inbox(HaltLobbyCountdown(s).sent, x) == Inbox(s.sent, x) +
      (if |s.players| < MAX_PLAYERS && s.phase == PreGame && x in Roster(s) && IsOpen(s.socks, x)
       then [StopCountDown] else [])
  {
    HaltLog(s);
    RosterConnsDistinct(s.players);
    var f := Fanout(s.socks, Roster(s), StopCountDown);
    if |s.players| < MAX_PLAYERS && s.phase == PreGame {
      InboxAppend(s.sent, f, x);
      InboxOfFanout(s.socks, Roster(s), StopCountDown, x);
    } else {
      assert s.sent + [] == s.sent;
    }
  }

  lemma HaltKeepsCore(s: State)
    requires Core(s)
    ensures Core(HaltLobbyCountdown(s))
  {
    if |s.players| < MAX_PLAYERS && s.phase == PreGame {
      var s1 := s.(timeRemaining := TIME_UNTIL_GAME_START);
      BroadcastKeepsCore(s1, Roster(s1), StopCountDown);
    }
  }

  lemma CloseKeepsInv(s: State, c: ConnId)
    requires Inv(s) && c in s.socks
    ensures Inv(CloseStep(s, c))
  {
    var s0 := MarkClosed(s, c);
    assert Core(s0);
    var k := IndexOf(s0.players, c);
    if k >= 0 {
      DepartKeepsCore(s0, k);
      DepartShape(s0, k);
      HaltKeepsCore(Depart(s0, k));
      HaltShape(Depart(s0, k));
    }
  }

  /** Splicing out the one player on connection c leaves exactly the others. */
  lemma RemovalMembers(ps: seq<Player>, k: nat, c: ConnId)
    requires RosterOk(ps) && k < |ps| && ps[k].conn == c
    ensures forall q :: q in ps[..k] + ps[k + 1..] <==> q in ps && q.conn != c
  {
    var rest := ps[..k] + ps[k + 1..];
    forall q ensures q in rest <==> q in ps && q.conn != c {
      if q in ps && q.conn != c {
        var j :| 0 <= j < |ps| && ps[j] == q;
        if j < k { assert rest[j] == q; } else { assert j > k; assert rest[j - 1] == q; }
      }
      if q in rest {
        var j :| 0 <= j < |rest| && rest[j] == q;
        if j < k { assert q == ps[j]; } else { assert q == ps[j + 1]; }
      }
    }
  }

  /** The close of a roster member frees its slot, removes exactly that player
      (the others keep their order) and leaves the role channels alone; in the
      lobby it also resets the countdown to TIME_UNTIL_GAME_START and stops it.
      Outside the lobby the round goes on with fewer players. */
  lemma CloseEvicts(s: State, c: ConnId)
    requires Seated(s) && |s.players| <= MAX_PLAYERS && RosterOk(s.players) && c in s.socks && IndexOf(s.players, c) >= 0
    ensures var r := CloseStep(s, c);
      var p := s.players[IndexOf(s.players, c)];
      |r.players| == |s.players| - 1 &&
      IsSubsequence(r.players, s.players) &&
      (forall q :: q in r.players <==> q in s.players && q.conn != c) &&
      r.characters == s.characters[p.character := true] &&
      r.sheep == s.sheep && r.wolves == s.wolves && r.phase == s.phase && r.roles == s.roles &&
      r.socks == s.socks[c := s.socks[c].(state := Closed)] &&
      (if s.phase == PreGame
       then r.timeRemaining == TIME_UNTIL_GAME_START && !r.ticking
       else r.timeRemaining == s.timeRemaining && r.ticking == s.ticking)
  {
    var k := IndexOf(s.players, c);
    var s0 := MarkClosed(s, c);
    DepartShape(s0, k);
    HaltShape(Depart(s0, k));
    RemovalIsSubsequence(s.players, k);
    RemovalMembers(s.players, k, c);
  }

  lemma OthersStay(ps: seq<Player>, k: nat, x: ConnId)
    requires k < |ps| && x in Conns(ps) && ps[k].conn != x
    ensures x in Conns(ps[..k] + ps[k + 1..])
  {
    var rest := ps[..k] + ps[k + 1..];
    var j :| 0 <= j < |ps| && Conns(ps)[j] == x;
    if j < k {
      assert rest[j] == ps[j];
      assert Conns(rest)[j] == x;
    } else {
      assert rest[j - 1] == ps[j];
      assert Conns(rest)[j - 1] == x;
    }
  }

  /** After a member's close, every other member that was open has been sent
      `characterDeselection`, then `leave`, then (in the lobby)
      `stopCountDown`. */
  lemma CloseNotifies(s: State, c: ConnId, x: ConnId)
    requires Seated(s) && |s.players| <= MAX_PLAYERS && RosterOk(s.players) && c in s.socks && IndexOf(s.players, c) >= 0
    requires x != c && x in Roster(s) && IsOpen(s.socks, x)
    ensures var r := CloseStep(s, c);
      var p := s.players[IndexOf(s.players, c)];
      Inbox(r.sent, x) == Inbox(s.sent, x) +
        [CharacterDeselected(p.character), LeaveNotice(p.username + " has left!")] +
        (if s.phase == PreGame then [StopCountDown] else [])
  {
    var s0 := MarkClosed(s, c);
    var k := IndexOf(s.players, c);
    var s4 := Depart(s0, k);
    DepartInbox(s0, k, x);
    DepartShape(s0, k);
    RemovalKeepsRosterOk(s.players, k);
    HaltInbox(s4, x);
    OthersStay(s.players, k, x);
  }

  /** The closed connection is sent nothing by its own close. */
  lemma CloseSilencesLeaver(s: State, c: ConnId)
    requires Seated(s) && |s.players| <= MAX_PLAYERS && RosterOk(s.players) && c in s.socks && IndexOf(s.players, c) >= 0
    ensures Inbox(CloseStep(s, c).sent, c) == Inbox(s.sent, c)
  {
    var s0 := MarkClosed(s, c);
    var k := IndexOf(s.players, c);
    var s4 := Depart(s0, k);
    DepartInbox(s0, k, c);
    DepartShape(s0, k);
    RemovalKeepsRosterOk(s.players, k);
    HaltInbox(s4, c);
  }

  /** The close of a connection outside the roster (a refused one) only marks
      it closed. */
  lemma CloseOfStranger(s: State, c: ConnId)
    requires Seated(s) && c in s.socks && IndexOf(s.players, c) < 0
    ensures CloseStep(s, c) == s.(socks := s.socks[c := s.socks[c].(state := Closed)])
  {
  }

  // ----- liveness -----

  lemma PongKeepsInv(s: State, c: ConnId)
    requires Inv(s)
    ensures Inv(PongStep(s, c))
  {
  }

  /** The ping sweep from position i on, when the first member whose flag is
      clear is at position d (d == |conns| when there is none): the members
      before d are probed (flag cleared, one more ping), the one at d is
      closed, and every other connection, including those after d, is left as
      it was. */
  lemma {:induction false} SweepStopsAtFirstDead(socks: map<ConnId, Sock>, conns: seq<ConnId>, i: nat, d: nat)
    requires Distinct(conns) && AllKnown(socks, conns) && i <= d <= |conns|
    requires forall j :: i <= j < d ==> socks[conns[j]].isAlive
    requires d < |conns| ==> !socks[conns[d]].isAlive
    ensures var r := SweepFrom(socks, conns, i);
      (forall j :: i <= j < d ==> r[conns[j]] == Probe(socks[conns[j]])) &&
      (d < |conns| ==> r[conns[d]] == CloseSock(socks[conns[d]])) &&
      (forall x :: x in socks && (forall j :: i <= j <= d && j < |conns| ==> conns[j] != x) ==> r[x] == socks[x])
    decreases |conns| - i
  {
    if i < |conns| && i < d {
      var c := conns[i];
      var next := socks[c := Probe(socks[c])];
      assert forall j :: i + 1 <= j < d ==> next[conns[j]] == socks[conns[j]];
      SweepStopsAtFirstDead(next, conns, i + 1, d);
    }
  }

  /** A member whose flag is set when the sweep runs is never closed by it;
      neither is a connection the rest of the sweep does not visit. */
  lemma {:induction false} SweepSparesLive(socks: map<ConnId, Sock>, conns: seq<ConnId>, i: nat, x: ConnId)
    requires Distinct(conns) && AllKnown(socks, conns) && i <= |conns| && x in socks
    requires socks[x].isAlive || x !in conns[i..]
    ensures SweepFrom(socks, conns, i)[x].state == socks[x].state
    decreases |conns| - i
  {
    if i < |conns| {
      var c := conns[i];
      if socks[c].isAlive {
        var next := socks[c := Probe(socks[c])];
        if c == x {
          assert x !in conns[i + 1..] by {
            forall j | i + 1 <= j < |conns| ensures conns[j] != x { }
          }
        } else {
          assert conns[i + 1..] == conns[i..][1..];
        }
        SweepSparesLive(next, conns, i + 1, x);
      }
    }
  }

  lemma SweepKeepsInv(s: State)
    requires Inv(s)
    ensures Inv(SweepStep(s))
  {
    var r := SweepStep(s);
    assert forall k :: 0 <= k < |s.sent| ==> s.sent[k].to in r.socks;
  }
}
