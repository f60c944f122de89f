/** The round engine of src/server.ts: the phase cycle of `Game.cyclePhase`,
    the deal of `Game.start`, and the once-per-second `countDown`. */
module RoundProps {
  import opened Wire
  import opened Dealing
  import opened LobbyState
  import opened LobbyProps

  // ----- dealing -----

  /** `Game.start` changes the roles, the roster's roles, the channels and the
      log, nothing else. */
  lemma StartShape(s: State, js: seq<nat>)
    requires |s.roles| == |RoleManifest| && Oracle(js) && |s.roles| <= |s.players|
    ensures var roles := Shuffled(s.roles, js);
      var r := StartStep(s, js);
      r.roles == roles && r.players == DealtRoster(s.players, roles) &&
      r.sheep == s.sheep + Channel(roles, Roster(s), Sheep) &&
      r.wolves == s.wolves + Channel(roles, Roster(s), Wolf) &&
      r.characters == s.characters && r.socks == s.socks && r.phase == s.phase &&
      r.timeRemaining == s.timeRemaining && r.ticking == s.ticking
  {
  }

  /** Dealing a permutation of the manifest over a roster of three: each
      player gets the role at its position, and is in the channel of its role
      and no other. */
  lemma DealtRosterDealt(ps: seq<Player>, roles: seq<Role>)
    requires RosterOk(ps) && |roles| == |ps| && multiset(roles) == multiset(RoleManifest)
    ensures var qs := DealtRoster(ps, roles);
      var conns := Conns(ps);
      forall k :: 0 <= k < |qs| ==>
        qs[k] == ps[k].(role := roles[k]) && qs[k].role != None &&
        (qs[k].conn in Channel(roles, conns, Wolf) <==> qs[k].role == Wolf) &&
        (qs[k].conn in Channel(roles, conns, Sheep) <==> qs[k].role == Sheep)
  {
    RosterConnsDistinct(ps);
    DealManifest(roles, Conns(ps));
  }

  /** On a full, undealt roster, `Game.start` gives every player the role at
      its position in the shuffled list, one wolf and two sheep, and puts each
      player in the channel of its role and no other. */
  lemma StartDeals(s: State, js: seq<nat>)
    requires |s.roles| == |RoleManifest| && multiset(s.roles) == multiset(RoleManifest) && Oracle(js)
    requires RosterOk(s.players) && |s.players| == MAX_PLAYERS && Undealt(s)
    ensures var r := StartStep(s, js);
      var roles := Shuffled(s.roles, js);
      multiset(r.roles) == multiset(RoleManifest) &&
      (forall i :: 0 <= i < |r.players| ==> r.players[i] == s.players[i].(role := roles[i])) &&
      |r.wolves| == NUM_WOLVES && |r.sheep| == NUM_SHEEP &&
      Dealt(r)
  {
    var roles := Shuffled(s.roles, js);
    StartShape(s, js);
    RosterConnsDistinct(s.players);
    DealManifest(roles, Roster(s));
    DealtRosterDealt(s.players, roles);
    assert s.wolves + Channel(roles, Roster(s), Wolf) == Channel(roles, Roster(s), Wolf);
    assert s.sheep + Channel(roles, Roster(s), Sheep) == Channel(roles, Roster(s), Sheep);
  }

  /** The `roleAssignment` text for a dealt role. */
  function RoleText(role: Role): string {
    if role == Wolf then WOLF_TEXT else SHEEP_TEXT
  }

  /** The three broadcasts of a deal over `conns`: the round announcement to
      everyone, then each role text to the members dealt that role. */
  function DealFrames(socks: map<ConnId, Sock>, conns: seq<ConnId>, roles: seq<Role>, chars: seq<bool>): seq<Delivery>
    requires |roles| <= |conns|
  {
    Fanout(socks, conns, GameStart(chars)) +
    Fanout(socks, Channel(roles, conns, Sheep), RoleAssignment(SHEEP_TEXT)) +
    Fanout(socks, Channel(roles, conns, Wolf), RoleAssignment(WOLF_TEXT))
  }

  /** When no roles were dealt before, `Game.start` sends exactly the deal's
      three broadcasts over the roster. */
  lemma StartLog(s: State, js: seq<nat>)
    requires |s.roles| == |RoleManifest| && Oracle(js) && |s.roles| <= |s.players| && Undealt(s)
    ensures StartStep(s, js).sent ==
      s.sent + DealFrames(s.socks, Roster(s), Shuffled(s.roles, js), s.characters)
  {
    var roles := Shuffled(s.roles, js);
    var conns := Roster(s);
    assert s.sheep + Channel(roles, conns, Sheep) == Channel(roles, conns, Sheep);
    assert s.wolves + Channel(roles, conns, Wolf) == Channel(roles, conns, Wolf);
    var f1 := Fanout(s.socks, conns, GameStart(s.characters));
    var f2 := Fanout(s.socks, Channel(roles, conns, Sheep), RoleAssignment(SHEEP_TEXT));
    var f3 := Fanout(s.socks, Channel(roles, conns, Wolf), RoleAssignment(WOLF_TEXT));
    AppendAssoc(s.sent, f1 + f2, f3);
    AppendAssoc(s.sent, f1, f2);
  }

  /** The open member at position k hears the round start, then its own
      role's text. */
  lemma RoleNoticeTo(socks: map<ConnId, Sock>, conns: seq<ConnId>, roles: seq<Role>, chars: seq<bool>, k: nat)
    requires multiset(roles) == multiset(RoleManifest) && |roles| == |conns| && Distinct(conns)
    requires k < |conns| && IsOpen(socks, conns[k])
    ensures Inbox(DealFrames(socks, conns, roles, chars), conns[k]) ==
      [GameStart(chars), RoleAssignment(RoleText(roles[k]))]
  {
    var x := conns[k];
    var f1 := Fanout(socks, conns, GameStart(chars));
    var f2 := Fanout(socks, Channel(roles, conns, Sheep), RoleAssignment(SHEEP_TEXT));
    var f3 := Fanout(socks, Channel(roles, conns, Wolf), RoleAssignment(WOLF_TEXT));
    DealManifest(roles, conns);
    assert roles[k] != None;
    assert x in Channel(roles, conns, Wolf) <==> roles[k] == Wolf;
    assert x in Channel(roles, conns, Sheep) <==> roles[k] == Sheep;
    ChannelDistinct(roles, conns, Sheep);
    ChannelDistinct(roles, conns, Wolf);
    InboxOfFanout(socks, conns, GameStart(chars), x);
    InboxOfFanout(socks, Channel(roles, conns, Sheep), RoleAssignment(SHEEP_TEXT), x);
    InboxOfFanout(socks, Channel(roles, conns, Wolf), RoleAssignment(WOLF_TEXT), x);
    var m := RoleAssignment(RoleText(roles[k]));
    if roles[k] == Wolf {
      assert Inbox(f2, x) == [] && Inbox(f3, x) == [m];
    } else {
      assert Inbox(f2, x) == [m] && Inbox(f3, x) == [];
    }
    OneFromEach(f1, f2, f3, x, GameStart(chars), m);
  }

  /** One message from the first log and one from exactly one of the others. */
  lemma OneFromEach(f1: seq<Delivery>, f2: seq<Delivery>, f3: seq<Delivery>, x: ConnId, m1: Msg, m2: Msg)
    requires Inbox(f1, x) == [m1]
    requires (Inbox(f2, x) == [m2] && Inbox(f3, x) == []) || (Inbox(f2, x) == [] && Inbox(f3, x) == [m2])
    ensures Inbox(f1 + f2 + f3, x) == [m1, m2]
  {
    InboxAppend(f1 + f2, f3, x);
    InboxAppend(f1, f2, x);
  }

  /** A connection that is not an open member hears nothing of the deal. */
  lemma RoleNoticeNone(socks: map<ConnId, Sock>, conns: seq<ConnId>, roles: seq<Role>, chars: seq<bool>, x: ConnId)
    requires |roles| <= |conns| && Distinct(conns)
    requires !(x in conns && IsOpen(socks, x))
    ensures Inbox(DealFrames(socks, conns, roles, chars), x) == []
  {
    var f1 := Fanout(socks, conns, GameStart(chars));
    var f2 := Fanout(socks, Channel(roles, conns, Sheep), RoleAssignment(SHEEP_TEXT));
    var f3 := Fanout(socks, Channel(roles, conns, Wolf), RoleAssignment(WOLF_TEXT));
    InboxAppend(f1 + f2, f3, x);
    InboxAppend(f1, f2, x);
    ChannelDistinct(roles, conns, Sheep);
    ChannelDistinct(roles, conns, Wolf);
    ChannelMembership(roles, conns, Sheep, x);
    ChannelMembership(roles, conns, Wolf, x);
    InboxOfFanout(socks, conns, GameStart(chars), x);
    InboxOfFanout(socks, Channel(roles, conns, Sheep), RoleAssignment(SHEEP_TEXT), x);
    InboxOfFanout(socks, Channel(roles, conns, Wolf), RoleAssignment(WOLF_TEXT), x);
  }

  /** A log grown by a deal over the roster of `s`: every open member hears
      the round start and then the text of the role dealt at its position;
      nobody else hears anything. */
  lemma DealInbox(s: State, r: State, roles: seq<Role>, x: ConnId)
    requires RosterOk(s.players) && multiset(roles) == multiset(RoleManifest) && |roles| == |s.players|
    requires r.sent == s.sent + DealFrames(s.socks, Roster(s), roles, s.characters)
    ensures Inbox(r.sent, x) == Inbox(s.sent, x) +
        (if x in Roster(s) && IsOpen(s.socks, x)
         then [GameStart(s.characters), RoleAssignment(RoleText(roles[IndexOf(s.players, x)]))]
         else [])
  {
    var conns := Roster(s);
    RosterConnsDistinct(s.players);
    InboxAppend(s.sent, DealFrames(s.socks, conns, roles, s.characters), x);
    if x in conns && IsOpen(s.socks, x) {
      RoleNoticeTo(s.socks, conns, roles, s.characters, IndexOf(s.players, x));
    } else {
      RoleNoticeNone(s.socks, conns, roles, s.characters, x);
    }
  }

  /** What `Game.start` sends: every open member of the roster hears
      `gameStart`, then the text of the role dealt at its position; nobody
      else hears anything. With `StartDeals` (one wolf, two sheep, each
      player holding the role at its position), exactly one member is told
      it is the wolf and two that they are sheep. */
  lemma StartNotifies(s: State, js: seq<nat>, x: ConnId)
    requires |s.roles| == |RoleManifest| && multiset(s.roles) == multiset(RoleManifest) && Oracle(js)
    requires RosterOk(s.players) && |s.players| == MAX_PLAYERS && Undealt(s)
    ensures Inbox(StartStep(s, js).sent, x) == Inbox(s.sent, x) +
        (if x in Roster(s) && IsOpen(s.socks, x)
         then [GameStart(s.characters), RoleAssignment(RoleText(Shuffled(s.roles, js)[IndexOf(s.players, x)]))]
         else [])
  {
    StartLog(s, js);
    DealInbox(s, StartStep(s, js), Shuffled(s.roles, js), x);
  }

  /** Slots and connections carry over when each player keeps its
      connection and slot. */
  lemma RetagKeepsSlots(s: State, r: State)
    requires SlotsOk(s) && r.characters == s.characters && r.socks == s.socks
    requires |r.players| == |s.players|
    requires forall k :: 0 <= k < |s.players| ==>
      r.players[k].conn == s.players[k].conn && r.players[k].character == s.players[k].character
    ensures SlotsOk(r)
  {
    HeldSlotsSameCharacters(s.players, r.players);
  }

  lemma StartKeepsSlots(s: State, js: seq<nat>)
    requires SlotsOk(s) && |s.roles| == |RoleManifest| && Oracle(js) && |s.roles| <= |s.players|
    ensures SlotsOk(StartStep(s, js))
  {
    StartShape(s, js);
    RetagKeepsSlots(s, StartStep(s, js));
  }

  lemma StartKeepsSentToKnown(s: State, js: seq<nat>)
    requires SentToKnown(s) && |s.roles| == |RoleManifest| && Oracle(js) && |s.roles| <= |s.players|
    ensures SentToKnown(StartStep(s, js))
  {
    var roles := Shuffled(s.roles, js);
    var a := s.(roles := roles,
                players := DealtRoster(s.players, roles),
                sheep := s.sheep + Channel(roles, Roster(s), Sheep),
                wolves := s.wolves + Channel(roles, Roster(s), Wolf));
    var b := WithBroadcast(a, Roster(a), GameStart(a.characters));
    var c := WithBroadcast(b, b.sheep, RoleAssignment(SHEEP_TEXT));
    BroadcastKeepsSentToKnown(a, Roster(a), GameStart(a.characters));
    BroadcastKeepsSentToKnown(b, b.sheep, RoleAssignment(SHEEP_TEXT));
    BroadcastKeepsSentToKnown(c, c.wolves, RoleAssignment(WOLF_TEXT));
  }

  // ----- phases -----

  /** Entering a timed phase keeps the invariant's core when the roles are in
      the state that phase demands. */
  lemma AnnounceKeepsCore(s: State, p: Phase, text: string)
    requires SlotsOk(s) && SentToKnown(s)
    requires |s.roles| == |RoleManifest| && multiset(s.roles) == multiset(RoleManifest)
    requires p != PreGame && p != PostGame
    requires p == CharacterSelection ==> Undealt(s)
    requires InRound(p) ==> Dealt(s)
    ensures Core(Announce(s, p, text))
  {
    BroadcastKeepsSentToKnown(s.(phase := p), Roster(s), PhaseAnnouncement(text));
  }

  /** The PreGame case of `cyclePhase` only moves the phase and the clock
      and appends to the log. */
  lemma OpenSelectionShape(s: State)
    requires |s.characters| == NUM_CHARACTERS
    ensures var r := OpenSelection(s);
      r.phase == CharacterSelection && r.timeRemaining == CHARACTER_SELECTION_DURATION &&
      r.characters == s.characters && r.players == s.players && r.socks == s.socks &&
      r.roles == s.roles && r.sheep == s.sheep && r.wolves == s.wolves && r.ticking == s.ticking
  {
  }

  /** It shows the picker to every open member, then replays the taken slots. */
  lemma OpenSelectionLog(s: State)
    requires |s.characters| == NUM_CHARACTERS
    ensures OpenSelection(s).sent == s.sent + Fanout(s.socks, Roster(s), ShowCharacters) +
                RevealTaken(s.socks, Roster(s), s.characters, |s.characters|)
  {
  }

  lemma OpenSelectionKeepsCore(s: State)
    requires Core(s) && s.phase == PreGame
    ensures Core(OpenSelection(s))
  {
    OpenSelectionShape(s);
    OpenSelectionKeepsSentToKnown(s);
    SelectionOpeningKeepsCore(s, OpenSelection(s));
  }

  /** Any state that differs from a lobby state only in entering character
      selection with its full duration and in a log to known connections. */
  lemma SelectionOpeningKeepsCore(s: State, r: State)
    requires Core(s) && s.phase == PreGame
    requires r.phase == CharacterSelection && r.timeRemaining == CHARACTER_SELECTION_DURATION
    requires r.characters == s.characters && r.players == s.players && r.socks == s.socks
    requires r.roles == s.roles && r.sheep == s.sheep && r.wolves == s.wolves
    requires SentToKnown(r)
    ensures Core(r)
  {
    CoreKept(s, r);
  }

  /** The replayed selections go to open members of the channel only. */
  lemma {:induction false} RevealFrames(socks: map<ConnId, Sock>, channel: seq<ConnId>, chars: seq<bool>, n: nat)
    requires n <= |chars|
    ensures forall k :: 0 <= k < |RevealTaken(socks, channel, chars, n)| ==>
      RevealTaken(socks, channel, chars, n)[k].to in channel &&
      IsOpen(socks, RevealTaken(socks, channel, chars, n)[k].to)
    decreases n
  {
    if n > 0 {
      var init := RevealTaken(socks, channel, chars, n - 1);
      var last: seq<Delivery> := if !chars[n - 1] then Fanout(socks, channel, CharacterSelected(n - 1)) else [];
      RevealFrames(socks, channel, chars, n - 1);
      FanoutFrames(socks, channel, CharacterSelected(n - 1));
      forall k | 0 <= k < |init + last|
        ensures (init + last)[k].to in channel && IsOpen(socks, (init + last)[k].to)
      {
        if k >= |init| {
          assert (init + last)[k] == last[k - |init|];
        } else {
          assert (init + last)[k] == init[k];
        }
      }
    }
  }

  /** `q` announces the taken slots among the first n of `chars`: each entry
      is a `characterSelection` of a taken slot below n, the slots strictly
      increase, and every taken slot below n is announced. Together these fix
      `q` to the taken slots in increasing order, each exactly once. */
  predicate ListsTaken(q: seq<Msg>, chars: seq<bool>, n: nat)
    requires n <= |chars|
  {
    (forall k :: 0 <= k < |q| ==>
       q[k].CharacterSelected? && 0 <= q[k].index < n && !chars[q[k].index]) &&
    (forall k, j :: 0 <= k < j < |q| && q[k].CharacterSelected? && q[j].CharacterSelected? ==>
       q[k].index < q[j].index) &&
    (forall i :: 0 <= i < n && !chars[i] ==> CharacterSelected(i) in q)
  }

  /** Looking at one more slot adds its notice at the end when it is taken. */
  lemma ListsTakenStep(q: seq<Msg>, chars: seq<bool>, n: nat)
    requires 0 < n <= |chars| && ListsTaken(q, chars, n - 1)
    ensures ListsTaken(q + (if !chars[n - 1] then [CharacterSelected(n - 1)] else []), chars, n)
  {
    var q' := q + (if !chars[n - 1] then [CharacterSelected(n - 1)] else []);
    StepEntries(q, q', chars, n);
    StepOrder(q, q', chars, n);
    StepComplete(q, q', chars, n);
  }

  lemma StepEntries(q: seq<Msg>, q': seq<Msg>, chars: seq<bool>, n: nat)
    requires 0 < n <= |chars| && ListsTaken(q, chars, n - 1)
    requires q' == q + (if !chars[n - 1] then [CharacterSelected(n - 1)] else [])
    ensures forall k :: 0 <= k < |q'| ==>
      q'[k].CharacterSelected? && 0 <= q'[k].index < n && !chars[q'[k].index]
  {
    forall k | 0 <= k < |q'|
      ensures q'[k].CharacterSelected? && 0 <= q'[k].index < n && !chars[q'[k].index]
    {
      if k < |q| { assert q'[k] == q[k]; }
    }
  }

  lemma StepOrder(q: seq<Msg>, q': seq<Msg>, chars: seq<bool>, n: nat)
    requires 0 < n <= |chars| && ListsTaken(q, chars, n - 1)
    requires q' == q + (if !chars[n - 1] then [CharacterSelected(n - 1)] else [])
    ensures forall k, j :: 0 <= k < j < |q'| && q'[k].CharacterSelected? && q'[j].CharacterSelected? ==>
      q'[k].index < q'[j].index
  {
    forall k, j | 0 <= k < j < |q'| && q'[k].CharacterSelected? && q'[j].CharacterSelected?
      ensures q'[k].index < q'[j].index
    {
      assert q'[k] == q[k];
      if j < |q| { assert q'[j] == q[j]; }
    }
  }

  lemma StepComplete(q: seq<Msg>, q': seq<Msg>, chars: seq<bool>, n: nat)
    requires 0 < n <= |chars| && ListsTaken(q, chars, n - 1)
    requires q' == q + (if !chars[n - 1] then [CharacterSelected(n - 1)] else [])
    ensures forall i :: 0 <= i < n && !chars[i] ==> CharacterSelected(i) in q'
  {
    forall i | 0 <= i < n && !chars[i] ensures CharacterSelected(i) in q' {
      if i < n - 1 {
        var k :| 0 <= k < |q| && q[k] == CharacterSelected(i);
        assert q'[k] == q[k];
      } else {
        assert q'[|q|] == CharacterSelected(i);
      }
    }
  }

  /** The replayed selections an open member of the channel hears are the
      taken slots in increasing order; nobody else hears any. */
  lemma {:induction false} RevealInbox(socks: map<ConnId, Sock>, channel: seq<ConnId>, chars: seq<bool>, n: nat, x: ConnId)
    requires Distinct(channel) && n <= |chars|
    ensures var q := Inbox(RevealTaken(socks, channel, chars, n), x);
      if x in channel && IsOpen(socks, x) then ListsTaken(q, chars, n) else q == []
    decreases n
  {
    if n > 0 {
      var m := CharacterSelected(n - 1);
      var init := RevealTaken(socks, channel, chars, n - 1);
      var last: seq<Delivery> := if !chars[n - 1] then Fanout(socks, channel, m) else [];
      assert RevealTaken(socks, channel, chars, n) == init + last;
      RevealInbox(socks, channel, chars, n - 1, x);
      InboxOfFanout(socks, channel, m, x);
      if x in channel && IsOpen(socks, x) {
        assert Inbox(last, x) == if !chars[n - 1] then [m] else [];
        RevealStep(init, last, chars, n, x);
      } else {
        assert Inbox(last, x) == [];
        InboxAppend(init, last, x);
      }
    }
  }

  /** One more slot of the reveal, seen from one outbox. */
  lemma RevealStep(init: seq<Delivery>, last: seq<Delivery>, chars: seq<bool>, n: nat, x: ConnId)
    requires 0 < n <= |chars| && ListsTaken(Inbox(init, x), chars, n - 1)
    requires Inbox(last, x) == if !chars[n - 1] then [CharacterSelected(n - 1)] else []
    ensures ListsTaken(Inbox(init + last, x), chars, n)
  {
    InboxAppend(init, last, x);
    ListsTakenStep(Inbox(init, x), chars, n);
  }

  /** Leaving PreGame: every open member hears `showCharacters`, then one
      `characterSelection` per taken slot in increasing slot order; everyone
      else hears nothing. */
  lemma OpenSelectionNotifies(s: State, x: ConnId)
    requires RosterOk(s.players) && |s.characters| == NUM_CHARACTERS
    ensures var d := Inbox(OpenSelection(s).sent, x);
      var b := Inbox(s.sent, x);
      if x in Roster(s) && IsOpen(s.socks, x) then
        |d| > |b| && d[..|b| + 1] == b + [ShowCharacters] &&
        ListsTaken(d[|b| + 1..], s.characters, |s.characters|)
      else d == b
  {
    OpenSelectionLog(s);
    RosterConnsDistinct(s.players);
    var f := Fanout(s.socks, Roster(s), ShowCharacters);
    var rv := RevealTaken(s.socks, Roster(s), s.characters, |s.characters|);
    InboxAppend(s.sent + f, rv, x);
    InboxAppend(s.sent, f, x);
    InboxOfFanout(s.socks, Roster(s), ShowCharacters, x);
    RevealInbox(s.socks, Roster(s), s.characters, |s.characters|, x);
    var b := Inbox(s.sent, x);
    var q := Inbox(rv, x);
    if x in Roster(s) && IsOpen(s.socks, x) {
      var d := b + [ShowCharacters] + q;
      assert d[..|b| + 1] == b + [ShowCharacters];
      assert d[|b| + 1..] == q;
    }
  }

  lemma OpenSelectionKeepsSentToKnown(s: State)
    requires SentToKnown(s) && |s.characters| == NUM_CHARACTERS
    ensures SentToKnown(OpenSelection(s))
  {
    OpenSelectionShape(s);
    OpenSelectionLog(s);
    var f := Fanout(s.socks, Roster(s), ShowCharacters);
    var rv := RevealTaken(s.socks, Roster(s), s.characters, |s.characters|);
    FanoutFrames(s.socks, Roster(s), ShowCharacters);
    RevealFrames(s.socks, Roster(s), s.characters, NUM_CHARACTERS);
    assert forall k :: 0 <= k < |f| ==> f[k].to in s.socks;
    assert forall k :: 0 <= k < |rv| ==> rv[k].to in s.socks;
    KnownAppend(s.sent, f, s.socks);
    KnownAppend(s.sent + f, rv, s.socks);
  }

  /** The phase-specific part of `cyclePhase` keeps the core and never
      returns to the lobby. */
  lemma EnterKeepsCore(s: State, js: seq<nat>)
    requires Core(s) && Oracle(js)
    requires s.phase == CharacterSelection ==> |s.players| >= MAX_PLAYERS
    ensures Core(EnterNextPhase(s, js)) && EnterNextPhase(s, js).phase != PreGame
  {
    match s.phase {
      case PreGame => OpenSelectionKeepsCore(s);
      case CharacterSelection =>
        StartKeepsSlots(s, js);
        StartKeepsSentToKnown(s, js);
        StartDeals(s, js);
        AnnounceKeepsCore(StartStep(s, js), Day, DAY_TEXT);
      case Day => AnnounceKeepsCore(s, SuddenDeath, SUDDEN_DEATH_TEXT);
      case SuddenDeath => AnnounceKeepsCore(s, Night, NIGHT_TEXT);
      case Night => AnnounceKeepsCore(s, Day, DAY_TEXT);
      case PostGame => BroadcastKeepsCore(s, Roster(s), PhaseAnnouncement(GAME_OVER_TEXT));
    }
  }

  lemma CyclePhaseKeepsInv(s: State, js: seq<nat>)
    requires Core(s) && !s.ticking && Oracle(js)
    requires s.phase == CharacterSelection ==> |s.players| >= MAX_PLAYERS
    ensures Inv(CyclePhaseStep(s, js))
  {
    EnterKeepsCore(s, js);
    var s1 := EnterNextPhase(s, js);
    BroadcastKeepsCore(s1, Roster(s1), StartCountDown);
  }

  /** The phase-specific part of `cyclePhase`: the phase moves along PreGame,
      CharacterSelection, Day, SuddenDeath, Night, Day, ...; the new phase
      gets its configured duration; PostGame stays PostGame with its time
      untouched; roles are dealt on the CharacterSelection step and on no
      other; the roster's connections, the slots and the sockets never
      change. */
  lemma EnterEffect(s: State, js: seq<nat>)
    requires |s.characters| == NUM_CHARACTERS && |s.roles| == |RoleManifest| && Oracle(js)
    requires s.phase == CharacterSelection ==> |s.players| >= MAX_PLAYERS
    ensures var r := EnterNextPhase(s, js);
      r.phase == NextPhase(s.phase) &&
      (s.phase != PostGame ==> r.timeRemaining == Duration(r.phase)) &&
      (s.phase == PostGame ==> r.timeRemaining == s.timeRemaining) &&
      (s.phase != CharacterSelection ==>
         r.players == s.players && r.roles == s.roles && r.sheep == s.sheep && r.wolves == s.wolves) &&
      (s.phase == CharacterSelection ==> r.roles == Shuffled(s.roles, js)) &&
      Roster(r) == Roster(s) &&
      r.characters == s.characters && r.socks == s.socks && r.ticking == s.ticking
  {
    if s.phase == CharacterSelection {
      StartShape(s, js);
    }
  }

  /** `cyclePhase` ends by restarting the countdown, and every member that is
      open hears `startCountDown` last. */
  lemma CyclePhaseEndsWithStart(s: State, js: seq<nat>, x: ConnId)
    requires Core(s) && !s.ticking && Oracle(js)
    requires s.phase == CharacterSelection ==> |s.players| >= MAX_PLAYERS
    requires x in Roster(s) && IsOpen(s.socks, x)
    ensures var r := CyclePhaseStep(s, js);
      var inbox := Inbox(r.sent, x);
      r.ticking && |inbox| > 0 && inbox[|inbox| - 1] == StartCountDown
  {
    EnterEffect(s, js);
    var s1 := EnterNextPhase(s, js);
    RosterConnsDistinct(s.players);
    InboxAfterBroadcast(s1, Roster(s1), StartCountDown, x);
  }

  // ----- the countdown -----

  /** A countdown call with time left is a tick. */
  lemma CountDownWithTimeLeft(s: State, js: seq<nat>)
    requires |s.characters| == NUM_CHARACTERS && |s.roles| == |RoleManifest|
    requires s.ticking && Oracle(js) && CanDeal(s) && s.timeRemaining > 0
    ensures var r := CountDownStep(s, js);
      r == s.(timeRemaining := s.timeRemaining - 1, sent := r.sent) &&
      r.sent == s.sent + Fanout(s.socks, Roster(s), Tick(Decimal(s.timeRemaining)))
  {
  }

  /** A tick decrements the clock and sends the current count to every open
      member, nothing else. */
  lemma TickShape(s: State)
    requires s.timeRemaining > 0
    ensures TickStep(s) == s.(timeRemaining := s.timeRemaining - 1,
                              sent := s.sent + Fanout(s.socks, Roster(s), Tick(Decimal(s.timeRemaining))))
  {
  }

  /** A tick of the running countdown keeps the invariant. */
  lemma TickKeepsInv(s: State)
    requires Inv(s) && s.ticking && s.timeRemaining > 0
    ensures Inv(TickStep(s))
  {
    BroadcastKeepsCore(s, Roster(s), Tick(Decimal(s.timeRemaining)));
  }

  lemma CountDownKeepsInv(s: State, js: seq<nat>)
    requires Inv(s) && s.ticking && Oracle(js) && CanDeal(s)
    ensures Inv(CountDownStep(s, js))
  {
    if s.timeRemaining <= 0 {
      var s1 := WithBroadcast(s.(ticking := false), Roster(s), StopCountDown);
      BroadcastKeepsCore(s.(ticking := false), Roster(s), StopCountDown);
      CyclePhaseKeepsInv(s1, js);
    } else {
      TickKeepsInv(s);
    }
  }

  /** At zero, `countDown` stops the timer, tells every open member
      `stopCountDown`, and moves to the next phase with the timer running
      again; the roster's connections stay. */
  lemma CountDownAtZero(s: State, js: seq<nat>)
    requires |s.characters| == NUM_CHARACTERS && |s.roles| == |RoleManifest|
    requires s.ticking && Oracle(js) && CanDeal(s) && s.timeRemaining <= 0
    ensures var r := CountDownStep(s, js);
      r.phase == NextPhase(s.phase) && r.ticking && Roster(r) == Roster(s) && r.socks == s.socks &&
      (s.phase != PostGame ==> r.timeRemaining == Duration(NextPhase(s.phase))) &&
      (s.phase == PostGame ==> r.timeRemaining == s.timeRemaining)
  {
    var s1 := WithBroadcast(s.(ticking := false), Roster(s), StopCountDown);
    EnterEffect(s1, js);
  }

  /** Entering a timed phase adds the announcement to each open member's
      outbox and to no other. */
  lemma AnnounceInbox(s: State, p: Phase, text: string, x: ConnId)
    requires RosterOk(s.players)
    ensures Inbox(Announce(s, p, text).sent, x) ==
      Inbox(s.sent, x) + (if x in Roster(s) && IsOpen(s.socks, x) then [PhaseAnnouncement(text)] else [])
  {
    RosterConnsDistinct(s.players);
    InboxAfterBroadcast(s.(phase := p), Roster(s), PhaseAnnouncement(text), x);
  }

  /** A state whose log added `e` to each open member of the roster of `s`,
      followed by a phase announcement. */
  lemma ThenAnnounce(s: State, t: State, p: Phase, text: string, x: ConnId, e: seq<Msg>)
    requires RosterOk(t.players) && Roster(t) == Roster(s) && t.socks == s.socks
    requires Inbox(t.sent, x) == Inbox(s.sent, x) + e
    ensures Inbox(Announce(t, p, text).sent, x) ==
      Inbox(s.sent, x) + e + (if x in Roster(s) && IsOpen(s.socks, x) then [PhaseAnnouncement(text)] else [])
  {
    RosterConnsDistinct(t.players);
    InboxAfterBroadcast(t.(phase := p), Roster(t), PhaseAnnouncement(text), x);
  }

  /** The end of character selection: the deal, then the Day announcement. */
  lemma DealAndDayInbox(s: State, js: seq<nat>, x: ConnId)
    requires |s.roles| == |RoleManifest| && multiset(s.roles) == multiset(RoleManifest) && Oracle(js)
    requires RosterOk(s.players) && |s.players| == MAX_PLAYERS && Undealt(s)
    ensures Inbox(Announce(StartStep(s, js), Day, DAY_TEXT).sent, x) == Inbox(s.sent, x) +
      (if x in Roster(s) && IsOpen(s.socks, x)
       then [GameStart(s.characters), RoleAssignment(RoleText(Shuffled(s.roles, js)[IndexOf(s.players, x)])),
             PhaseAnnouncement(DAY_TEXT)]
       else [])
  {
    var t := StartStep(s, js);
    StartNotifies(s, js, x);
    StartShape(s, js);
    DealtRosterOk(s.players, Shuffled(s.roles, js));
    assert RosterOk(t.players) && Roster(t) == Roster(s) && t.socks == s.socks;
    var e: seq<Msg> := if x in Roster(s) && IsOpen(s.socks, x)
      then [GameStart(s.characters), RoleAssignment(RoleText(Shuffled(s.roles, js)[IndexOf(s.players, x)]))]
      else [];
    assert Inbox(t.sent, x) == Inbox(s.sent, x) + e;
    ThenAnnounce(s, t, Day, DAY_TEXT, x, e);
    if x in Roster(s) && IsOpen(s.socks, x) {
      ThreeNotices(Inbox(s.sent, x), GameStart(s.characters),
        RoleAssignment(RoleText(Shuffled(s.roles, js)[IndexOf(s.players, x)])), PhaseAnnouncement(DAY_TEXT));
    }
  }

  lemma ThreeNotices(b: seq<Msg>, m1: Msg, m2: Msg, m3: Msg)
    ensures b + [m1, m2] + [m3] == b + [m1, m2, m3]
  {
    assert [m1, m2] + [m3] == [m1, m2, m3];
  }

  /** Dealing keeps the roster well formed. */
  lemma DealtRosterOk(ps: seq<Player>, roles: seq<Role>)
    requires RosterOk(ps) && |roles| <= |ps|
    ensures RosterOk(DealtRoster(ps, roles))
  {
  }

  /** What entering the phase after `s.phase` tells an open member `x` of the
      roster: the selection screen followed by every taken slot, the round
      and the role dealt to `x` followed by the Day announcement, the next
      phase's announcement, or the end of the game. */
  predicate EntryNotice(s: State, js: seq<nat>, x: ConnId, e: seq<Msg>)
    requires |s.roles| == |RoleManifest| && Oracle(js)
  {
    match s.phase
    case PreGame =>
      e != [] && e[0] == ShowCharacters && ListsTaken(e[1..], s.characters, |s.characters|)
    case CharacterSelection =>
      0 <= IndexOf(s.players, x) < |s.roles| &&
      e == [GameStart(s.characters), RoleAssignment(RoleText(Shuffled(s.roles, js)[IndexOf(s.players, x)])),
            PhaseAnnouncement(DAY_TEXT)]
    case Day => e == [PhaseAnnouncement(SUDDEN_DEATH_TEXT)]
    case SuddenDeath => e == [PhaseAnnouncement(NIGHT_TEXT)]
    case Night => e == [PhaseAnnouncement(DAY_TEXT)]
    case PostGame => e == [PhaseAnnouncement(GAME_OVER_TEXT)]
  }

  /** An outbox `b + e` splits back into `b` and `e`. */
  lemma SplitAppend(b: seq<Msg>, e: seq<Msg>, d: seq<Msg>)
    requires d == b + e
    ensures d[..|b|] == b && d[|b|..] == e
  {
  }

  /** Outbox `d` is outbox `b` followed by the notice the next phase gives
      `x` when `x` is an open member of the roster, and `b` itself otherwise. */
  predicate NoticeAdded(s: State, js: seq<nat>, x: ConnId, b: seq<Msg>, d: seq<Msg>)
    requires |s.roles| == |RoleManifest| && Oracle(js)
  {
    if x in Roster(s) && IsOpen(s.socks, x) then
      |d| > |b| && d[..|b|] == b && EntryNotice(s, js, x, d[|b|..])
    else d == b
  }

  /** The phase-specific part of `cyclePhase` adds exactly the next phase's
      notice to the outbox of each open member of the roster, and nothing to
      any other outbox. */
  lemma EnterInbox(s: State, js: seq<nat>, x: ConnId)
    requires |s.characters| == NUM_CHARACTERS && |s.roles| == |RoleManifest| && Oracle(js)
    requires RosterOk(s.players)
    requires s.phase == CharacterSelection ==>
      |s.players| == MAX_PLAYERS && Undealt(s) && multiset(s.roles) == multiset(RoleManifest)
    ensures NoticeAdded(s, js, x, Inbox(s.sent, x), Inbox(EnterNextPhase(s, js).sent, x))
  {
    if s.phase == PreGame {
      EnterFromLobby(s, js, x);
    } else if s.phase == CharacterSelection {
      EnterFromSelection(s, js, x);
    } else {
      EnterAnnouncing(s, js, x);
    }
  }

  lemma EnterFromLobby(s: State, js: seq<nat>, x: ConnId)
    requires |s.characters| == NUM_CHARACTERS && |s.roles| == |RoleManifest| && Oracle(js)
    requires RosterOk(s.players) && s.phase == PreGame
    ensures NoticeAdded(s, js, x, Inbox(s.sent, x), Inbox(EnterNextPhase(s, js).sent, x))
  {
    assert EnterNextPhase(s, js) == OpenSelection(s);
    OpenSelectionNotifies(s, x);
    SelectionNotice(s, js, x, Inbox(s.sent, x), Inbox(OpenSelection(s).sent, x));
  }

  lemma EnterFromSelection(s: State, js: seq<nat>, x: ConnId)
    requires |s.characters| == NUM_CHARACTERS && |s.roles| == |RoleManifest| && Oracle(js)
    requires RosterOk(s.players) && s.phase == CharacterSelection
    requires |s.players| == MAX_PLAYERS && Undealt(s) && multiset(s.roles) == multiset(RoleManifest)
    ensures NoticeAdded(s, js, x, Inbox(s.sent, x), Inbox(EnterNextPhase(s, js).sent, x))
  {
    var r := Announce(StartStep(s, js), Day, DAY_TEXT);
    assert EnterNextPhase(s, js) == r;
    DealAndDayInbox(s, js, x);
    DealNotice(s, js, x, Inbox(s.sent, x), Inbox(r.sent, x));
  }

  lemma EnterAnnouncing(s: State, js: seq<nat>, x: ConnId)
    requires |s.characters| == NUM_CHARACTERS && |s.roles| == |RoleManifest| && Oracle(js)
    requires RosterOk(s.players) && s.phase != PreGame && s.phase != CharacterSelection
    ensures NoticeAdded(s, js, x, Inbox(s.sent, x), Inbox(EnterNextPhase(s, js).sent, x))
  {
    var b := Inbox(s.sent, x);
    match s.phase {
      case Day =>
        AnnounceInbox(s, SuddenDeath, SUDDEN_DEATH_TEXT, x);
        AnnouncedNotice(s, js, x, b, Inbox(EnterNextPhase(s, js).sent, x), SUDDEN_DEATH_TEXT);
      case SuddenDeath =>
        AnnounceInbox(s, Night, NIGHT_TEXT, x);
        AnnouncedNotice(s, js, x, b, Inbox(EnterNextPhase(s, js).sent, x), NIGHT_TEXT);
      case Night =>
        AnnounceInbox(s, Day, DAY_TEXT, x);
        AnnouncedNotice(s, js, x, b, Inbox(EnterNextPhase(s, js).sent, x), DAY_TEXT);
      case PostGame =>
        GameOverInbox(s, x);
        AnnouncedNotice(s, js, x, b, Inbox(EnterNextPhase(s, js).sent, x), GAME_OVER_TEXT);
    }
  }

  /** The selection screen and the taken slots are the notice of PreGame. */
  lemma SelectionNotice(s: State, js: seq<nat>, x: ConnId, b: seq<Msg>, d: seq<Msg>)
    requires |s.roles| == |RoleManifest| && Oracle(js) && s.phase == PreGame
    requires if x in Roster(s) && IsOpen(s.socks, x) then
               |d| > |b| && d[..|b| + 1] == b + [ShowCharacters] &&
               ListsTaken(d[|b| + 1..], s.characters, |s.characters|)
             else d == b
    ensures NoticeAdded(s, js, x, b, d)
  {
    if x in Roster(s) && IsOpen(s.socks, x) {
      assert d[..|b|] == (d[..|b| + 1])[..|b|];
      assert d[|b|..][0] == d[..|b| + 1][|b|];
      assert d[|b|..][1..] == d[|b| + 1..];
    }
  }

  /** A single announcement is the notice of a phase it announces. */
  lemma AnnouncedNotice(s: State, js: seq<nat>, x: ConnId, b: seq<Msg>, d: seq<Msg>, text: string)
    requires |s.roles| == |RoleManifest| && Oracle(js)
    requires EntryNotice(s, js, x, [PhaseAnnouncement(text)])
    requires d == b + (if x in Roster(s) && IsOpen(s.socks, x) then [PhaseAnnouncement(text)] else [])
    ensures NoticeAdded(s, js, x, b, d)
  {
    if x in Roster(s) && IsOpen(s.socks, x) {
      SplitAppend(b, [PhaseAnnouncement(text)], d);
    }
  }

  /** The deal's outbox for an open roster member is its notice. */
  lemma DealNotice(s: State, js: seq<nat>, x: ConnId, b: seq<Msg>, d: seq<Msg>)
    requires |s.roles| == |RoleManifest| && Oracle(js) && s.phase == CharacterSelection
    requires |s.players| == MAX_PLAYERS
    requires d == b + (if x in Roster(s) && IsOpen(s.socks, x)
      then [GameStart(s.characters), RoleAssignment(RoleText(Shuffled(s.roles, js)[IndexOf(s.players, x)])),
            PhaseAnnouncement(DAY_TEXT)]
      else [])
    ensures NoticeAdded(s, js, x, b, d)
  {
    if x in Roster(s) && IsOpen(s.socks, x) {
      SplitAppend(b, d[|b|..], d);
    }
  }

  lemma GameOverInbox(s: State, x: ConnId)
    requires RosterOk(s.players)
    ensures Inbox(WithBroadcast(s, Roster(s), PhaseAnnouncement(GAME_OVER_TEXT)).sent, x) ==
      Inbox(s.sent, x) + (if x in Roster(s) && IsOpen(s.socks, x) then [PhaseAnnouncement(GAME_OVER_TEXT)] else [])
  {
    RosterConnsDistinct(s.players);
    InboxAfterBroadcast(s, Roster(s), PhaseAnnouncement(GAME_OVER_TEXT), x);
  }

  /** A message first, a non-empty run `d2[|b1|..]`, a message last, for the
      open members; nothing for everyone else. */
  lemma Bracketed(b: seq<Msg>, b1: seq<Msg>, d2: seq<Msg>, d: seq<Msg>, grows: bool, first: Msg, last: Msg)
    requires b1 == b + (if grows then [first] else [])
    requires if grows then |d2| > |b1| && d2[..|b1|] == b1 else d2 == b1
    requires d == d2 + (if grows then [last] else [])
    ensures if grows then
              |d| >= |b| + 2 && d[|b| + 1..|d| - 1] == d2[|b1|..] &&
              d == b + [first] + d[|b| + 1..|d| - 1] + [last]
            else d == b
  {
    if grows {
      assert d2 == b1 + d2[|b1|..];
      assert d[|b| + 1..|d| - 1] == d2[|b1|..];
    }
  }

  /** At zero, every open member of the roster hears `stopCountDown` first,
      then exactly what the next phase announces, and `startCountDown` last;
      nobody else hears anything. */
  lemma CountDownAtZeroNotifies(s: State, js: seq<nat>, x: ConnId)
    requires Inv(s) && s.ticking && Oracle(js) && CanDeal(s) && s.timeRemaining <= 0
    ensures var d := Inbox(CountDownStep(s, js).sent, x);
      var b := Inbox(s.sent, x);
      if x in Roster(s) && IsOpen(s.socks, x) then
        |d| >= |b| + 2 && d == b + [StopCountDown] + d[|b| + 1..|d| - 1] + [StartCountDown] &&
        EntryNotice(s, js, x, d[|b| + 1..|d| - 1])
      else d == b
  {
    var grows := x in Roster(s) && IsOpen(s.socks, x);
    RosterConnsDistinct(s.players);
    var s0 := s.(ticking := false);
    var s1 := WithBroadcast(s0, Roster(s), StopCountDown);
    InboxAfterBroadcast(s0, Roster(s), StopCountDown, x);
    assert s1.players == s.players && s1.socks == s.socks && s1.phase == s.phase;
    assert s1.characters == s.characters && s1.roles == s.roles && s1.sheep == s.sheep && s1.wolves == s.wolves;
    assert RosterOk(s1.players) && |s1.characters| == NUM_CHARACTERS && |s1.roles| == |RoleManifest|;
    assert s1.phase == CharacterSelection ==>
      |s1.players| == MAX_PLAYERS && Undealt(s1) && multiset(s1.roles) == multiset(RoleManifest);
    var s2 := EnterNextPhase(s1, js);
    EnterInbox(s1, js, x);
    EnterEffect(s1, js);
    InboxAfterBroadcast(s2, Roster(s2), StartCountDown, x);
    assert CountDownStep(s, js) == WithBroadcast(s2, Roster(s2), StartCountDown).(ticking := true);
    var b1 := Inbox(s1.sent, x);
    var d2 := Inbox(s2.sent, x);
    Bracketed(Inbox(s.sent, x), b1, d2, Inbox(CountDownStep(s, js).sent, x), grows, StopCountDown, StartCountDown);
    if grows {
      NoticeOfSameRound(s1, s, js, x, d2[|b1|..]);
    }
  }

  /** The notice depends only on the phase, the roster, the characters and
      the roles. */
  lemma NoticeOfSameRound(s: State, t: State, js: seq<nat>, x: ConnId, e: seq<Msg>)
    requires |s.roles| == |RoleManifest| && Oracle(js)
    requires t.phase == s.phase && t.players == s.players && t.characters == s.characters && t.roles == s.roles
    requires EntryNotice(s, js, x, e)
    ensures EntryNotice(t, js, x, e)
  {
  }

  /** The tick texts a countdown from t emits over n calls: t, t-1, ... */
  function TickTexts(t: int, n: nat): (r: seq<Msg>)
    requires n <= t
    ensures |r| == n
    decreases n
  {
    if n == 0 then [] else [Tick(Decimal(t))] + TickTexts(t - 1, n - 1)
  }

  lemma TickTextsFirst(t: int, n: nat)
    requires 0 < n <= t
    ensures TickTexts(t, n) == [Tick(Decimal(t))] + TickTexts(t - 1, n - 1)
  {
  }

  /** The i-th tick text of a countdown from t is the count t - i. */
  lemma {:induction false} TickTextsCount(t: int, n: nat, i: nat)
    requires n <= t && i < n
    ensures TickTexts(t, n)[i] == Tick(Decimal(t - i))
    decreases n
  {
    if i > 0 {
      TickTextsCount(t - 1, n - 1, i - 1);
    }
  }

  /** n consecutive countdown calls while time is left, with no other event
      in between. */
  function Countdown(s: State, n: nat): (r: State)
    requires n <= s.timeRemaining
    ensures r == s.(timeRemaining := s.timeRemaining - n, sent := r.sent)
    decreases n
  {
    if n == 0 then s else Countdown(TickStep(s), n - 1)
  }

  lemma {:induction false} CountdownKeepsInv(s: State, n: nat)
    requires Inv(s) && s.ticking && n <= s.timeRemaining
    ensures Inv(Countdown(s, n))
    decreases n
  {
    if n > 0 {
      TickKeepsInv(s);
      CountdownKeepsInv(TickStep(s), n - 1);
    }
  }

  /** The frames n ticks from t send over `channel`. */
  function TickLog(socks: map<ConnId, Sock>, channel: seq<ConnId>, t: int, n: nat): seq<Delivery>
    requires n <= t
    decreases n
  {
    if n == 0 then [] else Fanout(socks, channel, Tick(Decimal(t))) + TickLog(socks, channel, t - 1, n - 1)
  }

  lemma {:induction false} CountdownLog(s: State, n: nat)
    requires n <= s.timeRemaining
    ensures Countdown(s, n).sent == s.sent + TickLog(s.socks, Roster(s), s.timeRemaining, n)
    decreases n
  {
    if n > 0 {
      var t := s.timeRemaining;
      var f := Fanout(s.socks, Roster(s), Tick(Decimal(t)));
      var s1 := TickStep(s);
      TickShape(s);
      assert s1.socks == s.socks && s1.players == s.players && s1.timeRemaining == t - 1;
      CountdownLog(s1, n - 1);
      var rest := TickLog(s.socks, Roster(s), t - 1, n - 1);
      assert Countdown(s, n).sent == (s.sent + f) + rest;
      assert TickLog(s.socks, Roster(s), t, n) == f + rest;
    }
  }

  /** An open member of the channel hears every tick, in order. */
  lemma {:induction false} TickLogReaches(socks: map<ConnId, Sock>, channel: seq<ConnId>, t: int, n: nat, x: ConnId)
    requires Distinct(channel) && n <= t && x in channel && IsOpen(socks, x)
    ensures Inbox(TickLog(socks, channel, t, n), x) == TickTexts(t, n)
    decreases n
  {
    if n > 0 {
      var m := Tick(Decimal(t));
      var f := Fanout(socks, channel, m);
      var rest := TickLog(socks, channel, t - 1, n - 1);
      assert TickLog(socks, channel, t, n) == f + rest;
      InboxAppend(f, rest, x);
      InboxOfFanout(socks, channel, m, x);
      TickLogReaches(socks, channel, t - 1, n - 1, x);
      TickTextsFirst(t, n);
      calc {
        Inbox(TickLog(socks, channel, t, n), x);
        Inbox(f, x) + Inbox(rest, x);
        [m] + TickTexts(t - 1, n - 1);
        TickTexts(t, n);
      }
    }
  }

  /** Everyone else hears none. */
  lemma {:induction false} TickLogMisses(socks: map<ConnId, Sock>, channel: seq<ConnId>, t: int, n: nat, x: ConnId)
    requires Distinct(channel) && n <= t && !(x in channel && IsOpen(socks, x))
    ensures Inbox(TickLog(socks, channel, t, n), x) == []
    decreases n
  {
    if n > 0 {
      TickLogMisses(socks, channel, t - 1, n - 1, x);
      NoneOfBoth(socks, channel, Tick(Decimal(t)), TickLog(socks, channel, t - 1, n - 1), x);
    }
  }

  /** A broadcast `x` is not an open member of, followed by frames none of which
      goes to `x`. */
  lemma NoneOfBoth(socks: map<ConnId, Sock>, channel: seq<ConnId>, m: Msg, rest: seq<Delivery>, x: ConnId)
    requires Distinct(channel) && !(x in channel && IsOpen(socks, x)) && Inbox(rest, x) == []
    ensures Inbox(Fanout(socks, channel, m) + rest, x) == []
  {
    InboxOfFanout(socks, channel, m, x);
    InboxAppend(Fanout(socks, channel, m), rest, x);
  }

  /** n countdown calls with at least n seconds left: only the time and the
      log change, the time drops by n, and each open member hears `tick`
      "t", "t-1", ..., "t-n+1" and nothing else. */
  lemma CountdownTicks(s: State, n: nat, x: ConnId)
    requires RosterOk(s.players) && n <= s.timeRemaining
    ensures var r := Countdown(s, n);
      Inbox(r.sent, x) == Inbox(s.sent, x) +
        (if x in Roster(s) && IsOpen(s.socks, x) then TickTexts(s.timeRemaining, n) else [])
  {
    CountdownLog(s, n);
    RosterConnsDistinct(s.players);
    var log := TickLog(s.socks, Roster(s), s.timeRemaining, n);
    InboxAppend(s.sent, log, x);
    if x in Roster(s) && IsOpen(s.socks, x) {
      TickLogReaches(s.socks, Roster(s), s.timeRemaining, n, x);
    } else {
      TickLogMisses(s.socks, Roster(s), s.timeRemaining, n, x);
    }
  }

  /** A phase that starts with its full duration d counts down d, ..., 1 in
      d calls, reaches zero without going below it, and the next call moves
      to the next phase. */
  lemma PhaseRunsItsCourse(s: State, js: seq<nat>, x: ConnId)
    requires Inv(s) && s.ticking && Oracle(js) && s.phase != PostGame
    requires s.timeRemaining == Duration(s.phase)
    requires s.phase == CharacterSelection ==> |s.players| >= MAX_PLAYERS
    ensures var r := Countdown(s, Duration(s.phase));
      r.timeRemaining == 0 && r.phase == s.phase && r.ticking &&
      Inbox(r.sent, x) == Inbox(s.sent, x) +
        (if x in Roster(s) && IsOpen(s.socks, x) then TickTexts(Duration(s.phase), Duration(s.phase)) else []) &&
      CanDeal(r) && CountDownStep(r, js).phase == NextPhase(s.phase)
  {
    CountdownTicks(s, Duration(s.phase), x);
    var r := Countdown(s, Duration(s.phase));
    CountDownAtZero(r, js);
  }

  /** Nothing stops the countdown of character selection when a player
      leaves: the round goes on with two players, and when the selection time
      runs out the deal finds fewer players than roles (`assignRoles` then
      reads `players[2]`, which does not exist). */
  lemma DepartureDuringSelection(s: State, c: ConnId)
    requires Inv(s) && s.phase == CharacterSelection && |s.players| == MAX_PLAYERS
    requires c in s.socks && IndexOf(s.players, c) >= 0
    ensures var r := CloseStep(s, c);
      Inv(r) && r.phase == CharacterSelection && r.ticking && |r.players| == MAX_PLAYERS - 1 &&
      !CanDeal(Countdown(r, r.timeRemaining))
  {
    CloseKeepsInv(s, c);
    CloseEvicts(s, c);
  }
}
