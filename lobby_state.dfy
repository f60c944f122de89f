/** The state of the lobby server of src/server.ts as one value, and one pure
    step function per event handler. The class `Lobby.Session` runs the same
    handlers imperatively and promises after every call that its fields equal
    the step function applied to their old values; the properties of the
    handlers are proved as lemmas over these functions (module LobbyProps). */
module LobbyState {
  import opened Wire
  import opened Dealing

  const MAX_PLAYERS: nat := 3
  const NUM_CHARACTERS: nat := 15
  const MAX_MESSAGE_LENGTH: nat := 300

  // Phase durations, in seconds (one countdown call per second).
  const TIME_UNTIL_GAME_START: nat := 10
  const CHARACTER_SELECTION_DURATION: nat := 30
  const DAY_DURATION: nat := 7
  const SUDDEN_DEATH_DURATION: nat := 15
  const NIGHT_DURATION: nat := 25

  const FULL_LOBBY_TEXT := "Sorry, this lobby is currently full. Please try again later."
  const SHEEP_TEXT := "You are a Sheep!"
  const WOLF_TEXT := "Stay hidden...you are a wolf."
  const DAY_TEXT := "It is day. Find the wolves before time runs out!"
  const SUDDEN_DEATH_TEXT := "It is sudden death. Good luck..."
  const NIGHT_TEXT := "It is night, and the wolves are hunting..."
  const GAME_OVER_TEXT := "The game is over"

  datatype Phase = PreGame | CharacterSelection | Day | SuddenDeath | Night | PostGame

  /** A roster entry: its connection, display name, character slot and role. */
  datatype Player = Player(conn: ConnId, username: string, character: nat, role: Role)

  /** The module-level state of the server plus the fields of its one `Game`. */
  datatype State = State(
    characters: seq<bool>,      // true = slot free
    roles: seq<Role>,           // Game.roles
    players: seq<Player>,       // the roster, in join order
    sheep: seq<ConnId>,         // role channels
    wolves: seq<ConnId>,
    phase: Phase,               // Game.phase
    timeRemaining: int,         // Game.timeRemaining
    ticking: bool,              // the countdown interval is active
    socks: map<ConnId, Sock>,   // every connection the server has seen
    sent: seq<Delivery>)        // every frame sent, in order

  function Conns(ps: seq<Player>): (r: seq<ConnId>)
    ensures |r| == |ps| && forall k :: 0 <= k < |ps| ==> r[k] == ps[k].conn
  {
    seq(|ps|, k requires 0 <= k < |ps| => ps[k].conn)
  }

  /** The `players` channel of the broadcasts. */
  function Roster(s: State): seq<ConnId> {
    Conns(s.players)
  }

  predicate InRound(p: Phase) {
    p == Day || p == SuddenDeath || p == Night
  }

  /** The configured length of each timed phase. */
  function Duration(p: Phase): nat {
    match p
    case PreGame => TIME_UNTIL_GAME_START
    case CharacterSelection => CHARACTER_SELECTION_DURATION
    case Day => DAY_DURATION
    case SuddenDeath => SUDDEN_DEATH_DURATION
    case Night => NIGHT_DURATION
    case PostGame => 0
  }

  /** The phase `cyclePhase` moves to. */
  function NextPhase(p: Phase): Phase {
    match p
    case PreGame => CharacterSelection
    case CharacterSelection => Day
    case Day => SuddenDeath
    case SuddenDeath => Night
    case Night => Day
    case PostGame => PostGame
  }

  // ----- roster and character slots -----

  /** Connections and character slots are pairwise different, slots in range. */
  predicate RosterOk(ps: seq<Player>) {
    (forall k :: 0 <= k < |ps| ==> ps[k].character < NUM_CHARACTERS) &&
    (forall a, b :: 0 <= a < b < |ps| ==> ps[a].conn != ps[b].conn && ps[a].character != ps[b].character)
  }

  function HeldSlots(ps: seq<Player>): set<nat> {
    set k | 0 <= k < |ps| :: ps[k].character
  }

  function TakenSlots(chars: seq<bool>): set<nat> {
    set i: nat | i < |chars| && !chars[i]
  }

  /** A slot is marked taken exactly when some player holds it. */
  predicate SlotsAgree(chars: seq<bool>, ps: seq<Player>) {
    forall i :: 0 <= i < |chars| ==> (!chars[i] <==> i in HeldSlots(ps))
  }

  function IndexOf(ps: seq<Player>, c: ConnId): (k: int)
    ensures -1 <= k < |ps|
    ensures k == -1 <==> forall j :: 0 <= j < |ps| ==> ps[j].conn != c
    ensures k >= 0 ==> ps[k].conn == c && forall j :: 0 <= j < k ==> ps[j].conn != c
    decreases |ps|
  {
    if ps == [] then -1
    else if ps[0].conn == c then 0
    else
      var k := IndexOf(ps[1..], c);
      if k == -1 then -1 else k + 1
  }

  /** The slot the `Player` constructor takes: the lowest free one. */
  function LowestFree(chars: seq<bool>): (r: nat)
    requires exists i :: 0 <= i < |chars| && chars[i]
    ensures r < |chars| && chars[r] && forall j :: 0 <= j < r ==> !chars[j]
    decreases |chars|
  {
    if chars[0] then 0
    else
      assert exists i :: 0 <= i < |chars[1..]| && chars[1..][i] by {
        var i :| 0 <= i < |chars| && chars[i];
        assert chars[1..][i - 1] == chars[i];
      }
      1 + LowestFree(chars[1..])
  }

  // ----- the invariant -----

  /** Before dealing: both role channels empty, nobody has a role. */
  predicate Undealt(s: State) {
    s.sheep == [] && s.wolves == [] &&
    forall k :: 0 <= k < |s.players| ==> s.players[k].role == None
  }

  /** After dealing: one wolf, two sheep, and every player still in the roster
      is in the channel of its own role. */
  predicate Dealt(s: State) {
    |s.wolves| == NUM_WOLVES && |s.sheep| == NUM_SHEEP &&
    forall k :: 0 <= k < |s.players| ==>
      s.players[k].role != None &&
      (s.players[k].conn in s.wolves <==> s.players[k].role == Wolf) &&
      (s.players[k].conn in s.sheep <==> s.players[k].role == Sheep)
  }

  /** Every frame went to a connection the server knows. */
  predicate SentToKnown(s: State) {
    forall k :: 0 <= k < |s.sent| ==> s.sent[k].to in s.socks
  }

  /** At most MAX_PLAYERS players, each on a known connection, each holding a
      different slot, and the slot flags agree with the roster. */
  predicate SlotsOk(s: State) {
    Seated(s) && |s.players| <= MAX_PLAYERS && RosterOk(s.players) &&
    SlotsAgree(s.characters, s.players)
  }

  /** Every player holds a slot in range and has a known connection: what the
      handlers need to index `characters` and the socket table. */
  predicate Seated(s: State) {
    |s.characters| == NUM_CHARACTERS &&
    forall k :: 0 <= k < |s.players| ==> s.players[k].character < NUM_CHARACTERS && s.players[k].conn in s.socks
  }

  /** The countdown value lies within the duration of the current phase. */
  predicate ClockOk(s: State) {
    s.timeRemaining >= 0 &&
    (s.phase != PostGame ==> s.timeRemaining <= Duration(s.phase))
  }

  /** The role list is a permutation of the manifest; roles are dealt at the
      start of the round and not before. */
  predicate RolesOk(s: State) {
    |s.roles| == |RoleManifest| && multiset(s.roles) == multiset(RoleManifest) &&
    (s.phase == PreGame || s.phase == CharacterSelection ==> Undealt(s)) &&
    (InRound(s.phase) ==> Dealt(s))
  }

  /** Everything that holds between events except the timer agreement. */
  predicate Core(s: State) {
    SlotsOk(s) && SentToKnown(s) && ClockOk(s) && RolesOk(s)
  }

  /** The invariant: in the lobby the countdown runs exactly while the roster
      is full, and while it is stopped it holds the full lobby duration, so
      every lobby countdown starts from there; from then on a countdown is
      always running. */
  predicate Inv(s: State) {
    Core(s) &&
    (s.phase == PreGame ==> (s.ticking <==> |s.players| == MAX_PLAYERS)) &&
    (s.phase == PreGame && !s.ticking ==> s.timeRemaining == TIME_UNTIL_GAME_START) &&
    (s.phase != PreGame ==> s.ticking)
  }

  /** Module initialisation plus `new Game()`. */
  function Initial(): State {
    State(seq(NUM_CHARACTERS, _ => true), RoleManifest, [], [], [], PreGame,
          TIME_UNTIL_GAME_START, false, map[], [])
  }

  // ----- broadcast -----

  /** `broadcast(channel, m)`. */
  function WithBroadcast(s: State, channel: seq<ConnId>, m: Msg): State {
    s.(sent := s.sent + Fanout(s.socks, channel, m))
  }

  // ----- connection handler -----

  /** `new Player(ws)` and `players.push`: the connection is open and alive,
      and its player takes `slot`, without a name or a role. */
  function Admit(s: State, c: ConnId, slot: nat): State
    requires slot < |s.characters|
  {
    s.(socks := s.socks[c := Sock(Open, true, 0)],
       characters := s.characters[slot := false],
       players := s.players + [Player(c, "", slot, None)])
  }

  /** The connection handler for a new connection `c`. */
  function ConnectionStep(s: State, c: ConnId): State
    requires SlotsOk(s) && c !in s.socks
  {
    if |s.players| >= MAX_PLAYERS || s.phase != PreGame then
      // both refusals send fullLobby, then close
      s.(sent := s.sent + [Delivery(c, FullLobby(FULL_LOBBY_TEXT))],
         socks := s.socks[c := Sock(Closing, false, 0)])
    else
      assert exists i :: 0 <= i < |s.characters| && s.characters[i] by {
        FreeSlotExists(s.characters, s.players);
      }
      var s1 := Admit(s, c, LowestFree(s.characters));
      if |s1.players| == MAX_PLAYERS then
        WithBroadcast(s1, Roster(s1), StartCountDown).(ticking := true)
      else s1
  }

  // ----- message handler -----

  function JoinStep(s: State, k: nat, username: string): State
    requires k < |s.players|
  {
    var s1 := s.(players := s.players[k := s.players[k].(username := username)]);
    WithBroadcast(s1, Roster(s1), JoinNotice(username + " has joined!"))
  }

  function SelectionStep(s: State, k: nat, i: int): State
    requires k < |s.players| && |s.characters| == NUM_CHARACTERS
    requires s.players[k].character < NUM_CHARACTERS
  {
    // `characters[i]` is undefined, so falsy, outside 0..14
    if 0 <= i < NUM_CHARACTERS && s.characters[i] then
      var previous := s.players[k].character;
      var s1 := s.(characters := s.characters[previous := true]);
      var s2 := WithBroadcast(s1, Roster(s1), CharacterDeselected(previous));
      var s3 := s2.(players := s2.players[k := s2.players[k].(character := i)],
                    characters := s2.characters[i := false]);
      WithBroadcast(s3, Roster(s3), CharacterSelected(i))
    else s
  }

  /** The text a chat broadcast carries: the sender's name, ": ", and the first
      MAX_MESSAGE_LENGTH characters of what was sent. */
  function ChatBody(username: string, text: string): (r: string)
    ensures |r| == |username| + 2 + (if |text| <= MAX_MESSAGE_LENGTH then |text| else MAX_MESSAGE_LENGTH)
    ensures r[..|username| + 2] == username + ": "
    ensures r[|username| + 2..] == text[..|r| - |username| - 2]
    ensures |text| <= MAX_MESSAGE_LENGTH ==> r == username + ": " + text
  {
    // substring(0, MAX_MESSAGE_LENGTH) stops at the end of a shorter string
    var body := if |text| <= MAX_MESSAGE_LENGTH then text else text[..MAX_MESSAGE_LENGTH];
    assert text[..|body|] == body;
    username + ": " + body
  }

  function ChatStep(s: State, k: nat, text: string): State
    requires k < |s.players|
  {
    WithBroadcast(s, Roster(s), ChatLine(ChatBody(s.players[k].username, text)))
  }

  /** The message handler of connection `c`; connections outside the roster
      have no handler. */
  function MessageStep(s: State, c: ConnId, m: InMsg): State
    requires Seated(s)
  {
    var k := IndexOf(s.players, c);
    if k < 0 then s
    else
      match m
      case JoinRequest(u) => JoinStep(s, k, u)
      case SelectCharacter(i) => SelectionStep(s, k, i)
      case ChatRequest(t) => ChatStep(s, k, t)
      case Other(_) => s
  }

  // ----- close handler -----

  /** The departure of player k: its slot is freed, everyone is told, and it
      leaves the roster. */
  function Depart(s: State, k: nat): State
    requires k < |s.players| && s.players[k].character < |s.characters|
  {
    var p := s.players[k];
    var s1 := s.(characters := s.characters[p.character := true]);
    var s2 := WithBroadcast(s1, Roster(s1), CharacterDeselected(p.character));
    var s3 := WithBroadcast(s2, Roster(s2), LeaveNotice(p.username + " has left!"));
    s3.(players := s3.players[..k] + s3.players[k + 1..])
  }

  /** The transport marks connection `c` CLOSED. */
  function MarkClosed(s: State, c: ConnId): State
    requires c in s.socks
  {
    s.(socks := s.socks[c := s.socks[c].(state := Closed)])
  }

  /** A lobby below capacity cancels its countdown: the time is reset, every
      member is told, and the interval is cleared. */
  function HaltLobbyCountdown(s: State): State {
    if |s.players| < MAX_PLAYERS && s.phase == PreGame then
      var s1 := s.(timeRemaining := TIME_UNTIL_GAME_START);
      WithBroadcast(s1, Roster(s1), StopCountDown).(ticking := false)
    else s
  }

  /** The close event of connection `c`: the transport marks it CLOSED, and the
      handler of a roster member releases its slot, announces the departure,
      removes it, and cancels a lobby countdown. `sheep` and `wolves` are left
      as they are. */
  function CloseStep(s: State, c: ConnId): State
    requires Seated(s) && c in s.socks
  {
    var s0 := MarkClosed(s, c);
    var k := IndexOf(s0.players, c);
    if k < 0 then s0 else HaltLobbyCountdown(Depart(s0, k))
  }

  // ----- liveness -----

  /** `heartbeat` on a pong of connection `c` (the listener exists for roster
      members only). */
  function PongStep(s: State, c: ConnId): State
    requires Seated(s)
  {
    if IndexOf(s.players, c) >= 0 then
      s.(socks := s.socks[c := s.socks[c].(isAlive := true)])
    else s
  }

  function Probe(k: Sock): Sock {
    k.(isAlive := false, pings := k.pings + 1)
  }

  /** `close()` starts the closing handshake of an open socket. */
  function CloseSock(k: Sock): Sock {
    if k.state == Open then k.(state := Closing) else k
  }

  predicate AllKnown(socks: map<ConnId, Sock>, conns: seq<ConnId>) {
    forall j :: 0 <= j < |conns| ==> conns[j] in socks
  }

  /** The ping loop from position i on: probe each live member; at the first
      one whose flag is clear, close it and return. */
  function SweepFrom(socks: map<ConnId, Sock>, conns: seq<ConnId>, i: nat): (r: map<ConnId, Sock>)
    requires i <= |conns| && AllKnown(socks, conns)
    ensures r.Keys == socks.Keys
    decreases |conns| - i
  {
    if i == |conns| then socks
    else
      var c := conns[i];
      if !socks[c].isAlive then socks[c := CloseSock(socks[c])]
      else SweepFrom(socks[c := Probe(socks[c])], conns, i + 1)
  }

  function SweepStep(s: State): State
    requires Seated(s)
  {
    s.(socks := SweepFrom(s.socks, Roster(s), 0))
  }

  // ----- countdown and phases -----

  /** The `characterSelection` notices for the taken slots among the first n. */
  function RevealTaken(socks: map<ConnId, Sock>, channel: seq<ConnId>, chars: seq<bool>, n: nat): seq<Delivery>
    requires n <= |chars|
    decreases n
  {
    if n == 0 then []
    else
      RevealTaken(socks, channel, chars, n - 1) +
      (if !chars[n - 1] then Fanout(socks, channel, CharacterSelected(n - 1)) else [])
  }

  /** The players with their first |roles| roles dealt. */
  function DealtRoster(ps: seq<Player>, roles: seq<Role>): (r: seq<Player>)
    requires |roles| <= |ps|
    ensures |r| == |ps| && Conns(r) == Conns(ps)
    ensures forall i :: 0 <= i < |ps| ==>
      r[i].conn == ps[i].conn && r[i].username == ps[i].username && r[i].character == ps[i].character
  {
    var r := seq(|ps|, i requires 0 <= i < |ps| => if i < |roles| then ps[i].(role := roles[i]) else ps[i]);
    assert Conns(r) == Conns(ps);
    r
  }

  predicate Oracle(js: seq<nat>) {
    |js| == |RoleManifest| && InRange(js, |RoleManifest|)
  }

  /** `Game.start`: shuffle, deal, then announce the round to everyone and each
      role to its channel. */
  function StartStep(s: State, js: seq<nat>): State
    requires |s.roles| == |RoleManifest| && Oracle(js) && |s.roles| <= |s.players|
  {
    var roles := Shuffled(s.roles, js);
    var conns := Roster(s);
    var a := s.(roles := roles,
                players := DealtRoster(s.players, roles),
                sheep := s.sheep + Channel(roles, conns, Sheep),
                wolves := s.wolves + Channel(roles, conns, Wolf));
    var b := WithBroadcast(a, Roster(a), GameStart(a.characters));
    var c := WithBroadcast(b, b.sheep, RoleAssignment(SHEEP_TEXT));
    WithBroadcast(c, c.wolves, RoleAssignment(WOLF_TEXT))
  }

  /** Entering a new phase with its announcement and duration. */
  function Announce(s: State, p: Phase, text: string): State {
    WithBroadcast(s.(phase := p), Roster(s), PhaseAnnouncement(text)).(timeRemaining := Duration(p))
  }

  /** The PreGame case of `cyclePhase`: enter character selection, show the
      picker, and replay a `characterSelection` notice for each taken slot. */
  function OpenSelection(s: State): State
    requires |s.characters| == NUM_CHARACTERS
  {
    var a := WithBroadcast(s.(phase := CharacterSelection), Roster(s), ShowCharacters);
    a.(sent := a.sent + RevealTaken(a.socks, Roster(a), a.characters, |a.characters|),
       timeRemaining := CHARACTER_SELECTION_DURATION)
  }

  /** The phase-specific part of `cyclePhase`. */
  function EnterNextPhase(s: State, js: seq<nat>): State
    requires |s.characters| == NUM_CHARACTERS && |s.roles| == |RoleManifest| && Oracle(js)
    requires s.phase == CharacterSelection ==> |s.players| >= MAX_PLAYERS
  {
    match s.phase
    case PreGame => OpenSelection(s)
    case CharacterSelection => Announce(StartStep(s, js), Day, DAY_TEXT)
    case Day => Announce(s, SuddenDeath, SUDDEN_DEATH_TEXT)
    case SuddenDeath => Announce(s, Night, NIGHT_TEXT)
    case Night => Announce(s, Day, DAY_TEXT)
    case PostGame => WithBroadcast(s, Roster(s), PhaseAnnouncement(GAME_OVER_TEXT))
  }

  /** `Game.cyclePhase`; the countdown interval is stopped when it is called,
      and is restarted at the end. */
  function CyclePhaseStep(s: State, js: seq<nat>): State
    requires |s.characters| == NUM_CHARACTERS && |s.roles| == |RoleManifest| && !s.ticking && Oracle(js)
    requires s.phase == CharacterSelection ==> |s.players| >= MAX_PLAYERS
  {
    var s1 := EnterNextPhase(s, js);
    WithBroadcast(s1, Roster(s1), StartCountDown).(ticking := true)
  }

  /** A countdown call with time left: announce it, then decrement. */
  function TickStep(s: State): State
    requires s.timeRemaining > 0
  {
    WithBroadcast(s, Roster(s), Tick(Decimal(s.timeRemaining))).(timeRemaining := s.timeRemaining - 1)
  }

  /** Roles can be dealt: the roster still has a player for every role. */
  predicate CanDeal(s: State) {
    s.phase == CharacterSelection && s.timeRemaining <= 0 ==> |s.players| >= MAX_PLAYERS
  }

  /** `countDown`, called once per second while the interval is active. */
  function CountDownStep(s: State, js: seq<nat>): State
    requires |s.characters| == NUM_CHARACTERS && |s.roles| == |RoleManifest|
    requires s.ticking && Oracle(js) && CanDeal(s)
  {
    if s.timeRemaining <= 0 then
      CyclePhaseStep(WithBroadcast(s.(ticking := false), Roster(s), StopCountDown), js)
    else TickStep(s)
  }

  // ----- slot counting (used by ConnectionStep) -----

  /** With every flag clear, every slot counts as taken. */
  lemma {:induction false} AllTakenSize(chars: seq<bool>)
    requires forall i :: 0 <= i < |chars| ==> !chars[i]
    ensures |TakenSlots(chars)| == |chars|
    decreases |chars|
  {
    if chars != [] {
      var init := chars[..|chars| - 1];
      AllTakenSize(init);
      assert TakenSlots(chars) == TakenSlots(init) + {|chars| - 1};
    }
  }

  lemma HeldSlotsSnoc(ps: seq<Player>, p: Player)
    ensures HeldSlots(ps + [p]) == HeldSlots(ps) + {p.character}
  {
    var qs := ps + [p];
    forall x | x in HeldSlots(qs) ensures x in HeldSlots(ps) + {p.character} {
      var k :| 0 <= k < |qs| && qs[k].character == x;
      if k < |ps| { assert ps[k] == qs[k]; }
    }
    forall x | x in HeldSlots(ps) ensures x in HeldSlots(qs) {
      var k :| 0 <= k < |ps| && ps[k].character == x;
      assert qs[k] == ps[k];
    }
    assert qs[|ps|] == p;
  }

  lemma {:induction false} HeldSlotsSize(ps: seq<Player>)
    requires RosterOk(ps)
    ensures |HeldSlots(ps)| == |ps|
    decreases |ps|
  {
    if ps != [] {
      var init := ps[..|ps| - 1];
      var last := ps[|ps| - 1];
      assert ps == init + [last];
      assert RosterOk(init) by {
        forall a, b | 0 <= a < b < |init|
          ensures init[a].conn != init[b].conn && init[a].character != init[b].character
        {
          assert init[a] == ps[a] && init[b] == ps[b];
        }
        forall k | 0 <= k < |init| ensures init[k].character < NUM_CHARACTERS {
          assert init[k] == ps[k];
        }
      }
      assert last.character !in HeldSlots(init) by {
        forall k | 0 <= k < |init| ensures init[k].character != last.character {
          assert init[k] == ps[k];
        }
      }
      HeldSlotsSize(init);
      HeldSlotsSnoc(init, last);
    }
  }

  /** The taken slots are exactly the held ones. */
  lemma TakenAreHeld(chars: seq<bool>, ps: seq<Player>)
    requires |chars| == NUM_CHARACTERS && RosterOk(ps) && SlotsAgree(chars, ps)
    ensures TakenSlots(chars) == HeldSlots(ps)
  {
    forall x | x in HeldSlots(ps) ensures x in TakenSlots(chars) {
      var k :| 0 <= k < |ps| && ps[k].character == x;
      assert x < |chars|;
    }
  }

  /** While the roster is below capacity a free slot exists. */
  lemma FreeSlotExists(chars: seq<bool>, ps: seq<Player>)
    requires |chars| == NUM_CHARACTERS && RosterOk(ps) && SlotsAgree(chars, ps)
    requires |ps| < NUM_CHARACTERS
    ensures exists i :: 0 <= i < |chars| && chars[i]
  {
    if forall i :: 0 <= i < |chars| ==> !chars[i] {
      TakenAreHeld(chars, ps);
      HeldSlotsSize(ps);
      AllTakenSize(chars);
    }
  }
}
