/** The lobby server of src/server.ts as the program runs it: one object
    holding the module-level globals and the fields of the one `Game`, with
    one method per event handler. `characters` and `Game.roles` are arrays the
    handlers update in place; the roster and the role channels are sequences
    the handlers reassign. Each handler promises that the new state, read
    through `Abs()`, is the step function of module LobbyState applied to the
    old one; that the handlers keep the invariant `Inv` is proved once, about
    the step functions, in modules LobbyProps and RoundProps. */
module Lobby {
  import opened Wire
  import opened Dealing
  import opened LobbyState
  import opened LobbyProps
  import opened RoundProps

  class Session {
    const characters: array<bool>   // true = slot free
    const roles: array<Role>        // Game.roles
    var players: seq<Player>
    var sheep: seq<ConnId>
    var wolves: seq<ConnId>
    var phase: Phase
    var timeRemaining: int
    var ticking: bool               // countDownInterval is set
    var socks: map<ConnId, Sock>
    var sent: seq<Delivery>

    /** The array sizes the source fixes at start-up. */
    predicate Valid() {
      characters.Length == NUM_CHARACTERS && roles.Length == |RoleManifest|
    }

    /** The state this object stands for. */
    ghost function Abs(): State
      reads this, characters, roles
    {
      State(characters[..], roles[..], players, sheep, wolves, phase,
            timeRemaining, ticking, socks, sent)
    }

    /** Module initialisation: every slot free, empty roster and channels, and
        `new Game()`. */
    constructor ()
      ensures Valid() && Abs() == Initial() && Inv(Abs())
    {
      characters := new bool[NUM_CHARACTERS](_ => true);
      var manifest := CreateRoleList();
      roles := new Role[|manifest|](i requires 0 <= i < |manifest| => manifest[i]);
      players, sheep, wolves := [], [], [];
      phase := PreGame;
      timeRemaining := TIME_UNTIL_GAME_START;
      ticking := false;
      socks, sent := map[], [];
      new;
      assert characters[..] == seq(NUM_CHARACTERS, _ => true);
      assert roles[..] == manifest;
      InitialInv();
    }

    /** `broadcast(channel, m)`: send `m` to every member of `channel` whose
        connection is OPEN, in channel order. */
    method Broadcast(channel: seq<ConnId>, m: Msg)
      modifies this
      ensures Abs() == WithBroadcast(old(Abs()), channel, m)
    {
      var log := sent;
      var i := 0;
      while i < |channel|
        invariant 0 <= i <= |channel|
        invariant Abs() == old(Abs())
        invariant sent + Fanout(socks, channel, m) == log + Fanout(socks, channel[i..], m)
      {
        var c := channel[i];
        var head: seq<Delivery> := if IsOpen(socks, c) then [Delivery(c, m)] else [];
        assert channel[i..][1..] == channel[i + 1..];
        AppendAssoc(log, head, Fanout(socks, channel[i + 1..], m));
        if IsOpen(socks, c) {
          log := log + [Delivery(c, m)];
        }
        i := i + 1;
      }
      assert channel[i..] == [];
      assert log == sent + Fanout(socks, channel, m);
      sent := log;
    }

    /** The slot loop of the `Player` constructor: take the first free slot. */
    method ClaimLowestFree() returns (slot: nat)
      requires exists i :: 0 <= i < characters.Length && characters[i]
      modifies characters
      ensures slot == LowestFree(old(characters[..]))
      ensures characters[..] == old(characters[..])[slot := false]
    {
      var i := 0;
      while i < characters.Length
        invariant 0 <= i <= characters.Length
        invariant forall j :: 0 <= j < i ==> !characters[j]
        invariant characters[..] == old(characters[..])
      {
        if characters[i] {
          slot := i;
          characters[i] := false;
          return;
        }
        i := i + 1;
      }
      assert false;
    }

    /** The connection handler. */
    method OnConnection(c: ConnId)
      requires Valid() && SlotsOk(Abs()) && c !in socks
      modifies this, characters
      ensures Abs() == ConnectionStep(old(Abs()), c)
    {
      ghost var s := Abs();
      if |players| >= MAX_PLAYERS || phase != PreGame {
        sent := sent + [Delivery(c, FullLobby(FULL_LOBBY_TEXT))];
        socks := socks[c := Sock(Closing, false, 0)];
      } else {
        FreeSlotExists(s.characters, s.players);
        var slot := ClaimLowestFree();
        socks := socks[c := Sock(Open, true, 0)];
        players := players + [Player(c, "", slot, None)];
        assert Abs() == Admit(s, c, slot);
        if |players| == MAX_PLAYERS {
          Broadcast(Conns(players), StartCountDown);
          ticking := true;
        }
      }
    }

    // ----- message handler -----

    /** The "join" case: record the name and announce it. */
    method Join(k: nat, username: string)
      requires k < |players|
      modifies this
      ensures Abs() == JoinStep(old(Abs()), k, username)
    {
      players := players[k := players[k].(username := username)];
      Broadcast(Conns(players), JoinNotice(username + " has joined!"));
    }

    /** The "characterSelection" case: move to slot i when it is free. */
    method SelectCharacter(k: nat, i: int)
      requires Valid() && k < |players| && players[k].character < NUM_CHARACTERS
      modifies this, characters
      ensures Abs() == SelectionStep(old(Abs()), k, i)
    {
      if 0 <= i < NUM_CHARACTERS && characters[i] {
        var previous := players[k].character;
        characters[previous] := true;
        Broadcast(Conns(players), CharacterDeselected(previous));
        players := players[k := players[k].(character := i)];
        characters[i] := false;
        Broadcast(Conns(players), CharacterSelected(i));
      }
    }

    /** The "chat" case: relay the truncated text under the sender's name. */
    method Chat(k: nat, text: string)
      requires k < |players|
      modifies this
      ensures Abs() == ChatStep(old(Abs()), k, text)
    {
      Broadcast(Conns(players), ChatLine(ChatBody(players[k].username, text)));
    }

    /** The message handler of connection `c`, dispatching on the type. */
    method OnMessage(c: ConnId, m: InMsg)
      requires Valid() && Seated(Abs())
      modifies this, characters
      ensures Abs() == MessageStep(old(Abs()), c, m)
    {
      var k := IndexOf(players, c);
      if k < 0 {
        return;
      }
      match m
      case JoinRequest(u) => Join(k, u);
      case SelectCharacter(i) => SelectCharacter(k, i);
      case ChatRequest(t) => Chat(k, t);
      case Other(_) =>
    }

    // ----- close handler -----

    /** Player k leaves: free its slot, tell everyone, drop it from the roster. */
    method Depart(k: nat)
      requires Valid() && k < |players| && players[k].character < NUM_CHARACTERS
      modifies this, characters
      ensures Abs() == LobbyState.Depart(old(Abs()), k)
    {
      var p := players[k];
      characters[p.character] := true;
      Broadcast(Conns(players), CharacterDeselected(p.character));
      Broadcast(Conns(players), LeaveNotice(p.username + " has left!"));
      players := players[..k] + players[k + 1..];
    }

    /** The close event of connection `c`. */
    method OnClose(c: ConnId)
      requires Valid() && Seated(Abs()) && c in socks
      modifies this, characters
      ensures Abs() == CloseStep(old(Abs()), c)
    {
      socks := socks[c := socks[c].(state := Closed)];
      var k := IndexOf(players, c);
      if k >= 0 {
        Depart(k);
        HaltLobbyCountdown();
      }
    }

    /** Below capacity in the lobby: reset the time, tell everyone, and clear
        the countdown interval. */
    method HaltLobbyCountdown()
      modifies this
      ensures Abs() == LobbyState.HaltLobbyCountdown(old(Abs()))
    {
      if |players| < MAX_PLAYERS && phase == PreGame {
        timeRemaining := TIME_UNTIL_GAME_START;
        Broadcast(Conns(players), StopCountDown);
        ticking := false;
      }
    }

    // ----- liveness -----

    /** `heartbeat`, the pong listener of a roster member. */
    method OnPong(c: ConnId)
      requires Valid() && Seated(Abs())
      modifies this
      ensures Abs() == PongStep(old(Abs()), c)
    {
      if IndexOf(players, c) >= 0 {
        socks := socks[c := socks[c].(isAlive := true)];
      }
    }

    /** The `ping` interval: probe every live member in roster order, and at
        the first member that did not answer, close it and stop. */
    method PingSweep()
      requires Valid() && Seated(Abs())
      modifies this
      ensures Abs() == SweepStep(old(Abs()))
    {
      var conns := Conns(players);
      var table := socks;
      var i := 0;
      while i < |conns|
        invariant 0 <= i <= |conns| && AllKnown(table, conns)
        invariant SweepFrom(table, conns, i) == SweepFrom(socks, conns, 0)
      {
        var c := conns[i];
        if !table[c].isAlive {
          table := table[c := CloseSock(table[c])];
          socks := table;
          return;
        }
        table := table[c := Probe(table[c])];
        i := i + 1;
      }
      socks := table;
    }

    // ----- dealing -----

    /** `Game.shuffleRoles`: iteration i swaps position i with position js[i],
        the index `Math.random` picked. */
    method ShuffleRoles(js: seq<nat>)
      requires Valid() && Oracle(js)
      modifies roles
      ensures roles[..] == Shuffled(old(roles[..]), js)
    {
      for i := 0 to roles.Length
        invariant roles[..] == Shuffled(old(roles[..]), js[..i])
      {
        assert js[..i + 1][..i] == js[..i];
        ghost var before := roles[..];
        var temp := roles[i];
        var j := js[i];
        roles[i] := roles[j];
        roles[j] := temp;
        assert roles[..] == SwapAt(before, i, j);
      }
      assert js[..roles.Length] == js;
    }

    /** `Game.assignRoles`: player i takes role i and joins its channel. */
    method AssignRoles()
      requires roles.Length <= |players|
      modifies this
      ensures players == DealtRoster(old(players), roles[..])
      ensures sheep == old(sheep) + Channel(roles[..], Conns(old(players)), Sheep)
      ensures wolves == old(wolves) + Channel(roles[..], Conns(old(players)), Wolf)
      ensures phase == old(phase) && timeRemaining == old(timeRemaining)
      ensures ticking == old(ticking) && socks == old(socks) && sent == old(sent)
    {
      var conns := Conns(players);
      var ps, sh, wo := players, sheep, wolves;
      for i := 0 to roles.Length
        invariant ps == DealtRoster(players, roles[..i])
        invariant sh == sheep + Channel(roles[..i], conns, Sheep)
        invariant wo == wolves + Channel(roles[..i], conns, Wolf)
      {
        assert roles[..i + 1][..i] == roles[..i];
        var role := roles[i];
        ps := ps[i := ps[i].(role := role)];
        assert ps == DealtRoster(players, roles[..i + 1]);
        match role
        case Sheep => sh := sh + [ps[i].conn];
        case Wolf => wo := wo + [ps[i].conn];
        case None =>
      }
      assert roles[..roles.Length] == roles[..];
      players, sheep, wolves := ps, sh, wo;
    }

    /** `Game.start`: shuffle, deal, then announce the round to everyone and
        each role to its channel. */
    method Start(js: seq<nat>)
      requires Valid() && Oracle(js) && roles.Length <= |players|
      modifies this, roles
      ensures Abs() == StartStep(old(Abs()), js)
    {
      ShuffleRoles(js);
      AssignRoles();
      Broadcast(Conns(players), GameStart(characters[..]));
      Broadcast(sheep, RoleAssignment(SHEEP_TEXT));
      Broadcast(wolves, RoleAssignment(WOLF_TEXT));
    }

    // ----- phases and countdown -----

    /** The PreGame case of `cyclePhase`: enter character selection, show the
        picker, and replay a `characterSelection` notice for each taken slot. */
    method OpenSelection()
      requires Valid()
      modifies this
      ensures Abs() == LobbyState.OpenSelection(old(Abs()))
    {
      phase := CharacterSelection;
      Broadcast(Conns(players), ShowCharacters);
      ghost var a := Abs();
      for i := 0 to characters.Length
        invariant players == a.players && sheep == a.sheep && wolves == a.wolves
        invariant phase == a.phase && timeRemaining == a.timeRemaining && ticking == a.ticking
        invariant socks == a.socks
        invariant sent == a.sent + RevealTaken(a.socks, Roster(a), a.characters, i)
      {
        if !characters[i] {
          Broadcast(Conns(players), CharacterSelected(i));
        }
        AppendAssoc(a.sent, RevealTaken(a.socks, Roster(a), a.characters, i),
          if !a.characters[i] then Fanout(a.socks, Roster(a), CharacterSelected(i)) else []);
      }
      timeRemaining := CHARACTER_SELECTION_DURATION;
    }

    /** `Game.cyclePhase`, called with the countdown interval stopped: the
        phase-specific part, then `startCountDown` and a new interval. */
    method CyclePhase(js: seq<nat>)
      requires Valid() && !ticking && Oracle(js)
      requires phase == CharacterSelection ==> |players| >= MAX_PLAYERS
      modifies this, roles
      ensures Abs() == CyclePhaseStep(old(Abs()), js)
    {
      EnterNextPhase(js);
      Broadcast(Conns(players), StartCountDown);
      ticking := true;
    }

    /** The switch of `cyclePhase` over the current phase. */
    method EnterNextPhase(js: seq<nat>)
      requires Valid() && Oracle(js)
      requires phase == CharacterSelection ==> |players| >= MAX_PLAYERS
      modifies this, roles
      ensures Abs() == LobbyState.EnterNextPhase(old(Abs()), js)
    {
      match phase {
        case PreGame =>
          OpenSelection();
        case CharacterSelection =>
          Start(js);
          Announce(Day, DAY_TEXT);
        case Day =>
          Announce(SuddenDeath, SUDDEN_DEATH_TEXT);
        case SuddenDeath =>
          Announce(Night, NIGHT_TEXT);
        case Night =>
          Announce(Day, DAY_TEXT);
        case PostGame =>
          Broadcast(Conns(players), PhaseAnnouncement(GAME_OVER_TEXT));
      }
    }

    /** Enter phase p: set it, announce it, and start its duration. */
    method Announce(p: Phase, text: string)
      modifies this
      ensures Abs() == LobbyState.Announce(old(Abs()), p, text)
    {
      phase := p;
      Broadcast(Conns(players), PhaseAnnouncement(text));
      timeRemaining := Duration(p);
    }

    /** `countDown`: with time left, announce it and decrement; at zero, clear
        the interval, send `stopCountDown`, and cycle the phase. */
    method CountDown(js: seq<nat>)
      requires Valid() && ticking && Oracle(js) && CanDeal(Abs())
      modifies this, roles
      ensures Abs() == CountDownStep(old(Abs()), js)
    {
      if timeRemaining <= 0 {
        ticking := false;
        Broadcast(Conns(players), StopCountDown);
        CyclePhase(js);
        return;
      }
      Broadcast(Conns(players), Tick(Decimal(timeRemaining)));
      timeRemaining := timeRemaining - 1;
    }
  }
}
