/**
 The admission protocol of the arena server as a state machine: a world server registers
 players under a token, each token is used once to create or to join a fighting pit, and
 in-game messages are accepted from authenticated participants only.
 */
module Admission {
  import opened Wrappers
  import opened MachineIntegers

  const CREATION_ERROR: nat := 0

  datatype Level = EASY | MEDIUM | HARD

  datatype AwaitingArena = AwaitingArena(serverCode: string, isAmbush: bool, encounterId: nat, level: Level)

  datatype AwaitingPlayer = AwaitingPlayer(
    namePlayer: string, token: string, fightingPitId: nat, gen: Option<AwaitingArena>)
  {
    predicate HasToBeGenerated() {
      fightingPitId == 0 && gen.Some?
    }
  }

  datatype AuthenticatedPlayer = AuthenticatedPlayer(name: string, token: string)

  /** A pit as far as admission goes: its own id, who may send messages, and the user names
      of the party teams in it. */
  datatype FightingPit = FightingPit(
    arenaId: nat, level: Level, authenticated: seq<AuthenticatedPlayer>, teams: seq<string>)
  {
    predicate IsPlayerParticipant(name: string, token: string) {
      AuthenticatedPlayer(name, token) in authenticated
    }
  }

  datatype PlayerIdentifier = PlayerIdentifier(userName: string, identifier: string)

  datatype State = State(
    awaiting: map<string, AwaitingPlayer>,
    pits: map<nat, FightingPit>,
    lastId: nat,
    identifiers: map<nat, seq<PlayerIdentifier>>)

  const START := State(map[], map[], 0, map[])

  /** Messages as they arrive.  `generated` stands for what an authentication cannot see
      beforehand: whether the zone is registered and its contenders could be generated. */
  datatype Message =
    | Encounter(userName: string, token: string, pitId: nat,
                worldServer: string, isAmbush: bool, encounterId: nat, levelCode: int)
    | Authenticate(userName: string, token: string, pitId: nat, identity: string, generated: bool)
    | InGame(userName: string, token: string, pitId: nat)

  datatype Outcome =
    | Accepted
    | NoSuchPit
    | AlreadyAwaited
    | NotAwaited
    | CreationFailed
    | PitVanished
    | Created(pit: nat)
    | Joined(pit: nat)
    | DanglingBroadcast
    | Forwarded(pit: nat)
    | NotAuthenticated

  // ----- registration

  function TranslateLevel(code: int): Level {
    if code == 1 then MEDIUM else if code == 2 then HARD else EASY
  }

  function CreateAwaitingPlayer(m: Message): AwaitingPlayer
    requires m.Encounter?
  {
    AwaitingPlayer(m.userName, m.token, m.pitId,
      if m.pitId == 0
      then Some(AwaitingArena(m.worldServer, m.isAmbush, m.encounterId, TranslateLevel(m.levelCode)))
      else None)
  }

  function Register(s: State, m: Message): (State, Outcome)
    requires m.Encounter?
  {
    var player := CreateAwaitingPlayer(m);
    if !player.HasToBeGenerated() && player.fightingPitId !in s.pits then (s, NoSuchPit)
    else if m.token in s.awaiting then (s, AlreadyAwaited)
    else (s.(awaiting := s.awaiting[m.token := player]), Accepted)
  }

  // ----- pits

  /** The first id at or after `from` that no pit has, or 0 when the counter wraps first. */
  function FirstFree(pits: map<nat, FightingPit>, from: nat): nat
    requires from <= UINT_SIZE
    decreases UINT_SIZE - from
  {
    if from == UINT_SIZE then 0
    else if from !in pits then from
    else FirstFree(pits, from + 1)
  }

  function BuildFightingPit(player: AwaitingPlayer, generated: bool): Option<FightingPit>
    requires player.gen.Some?
  {
    if player.namePlayer == "" || player.token == "" || !generated then None
    else Some(FightingPit(0, player.gen.value.level,
                          [AuthenticatedPlayer(player.namePlayer, player.token)], [player.namePlayer]))
  }

  function AddPit(s: State, fp: Option<FightingPit>): (State, nat)
    requires s.lastId < UINT_SIZE
  {
    if fp.None? || |s.pits| >= UINT_SIZE - 1 then (s, CREATION_ERROR) else
    var id := FirstFree(s.pits, s.lastId + 1);
    (s.(pits := s.pits[id := fp.value.(arenaId := id)], lastId := id), id)
  }

  function JoinPit(s: State, id: nat, userName: string): State
    requires id in s.pits
  {
    s.(pits := s.pits[id := s.pits[id].(teams := s.pits[id].teams + [userName])])
  }

  // ----- identifiers

  function Identified(ids: seq<PlayerIdentifier>, userName: string, identity: string): seq<PlayerIdentifier> {
    if ids == [] then [PlayerIdentifier(userName, identity)]
    else if ids[0].userName == userName then [ids[0].(identifier := identity)] + ids[1..]
    else [ids[0]] + Identified(ids[1..], userName, identity)
  }

  function AddIdentifier(s: State, id: nat, userName: string, identity: string): State {
    var ids := if id in s.identifiers then s.identifiers[id] else [];
    s.(identifiers := s.identifiers[id := Identified(ids, userName, identity)])
  }

  function IdentifierIn(ids: seq<PlayerIdentifier>, userName: string): string {
    if ids == [] then userName
    else if ids[0].userName == userName then ids[0].identifier
    else IdentifierIn(ids[1..], userName)
  }

  function RetrieveIdentifier(s: State, id: nat, userName: string): string {
    if id in s.identifiers then IdentifierIn(s.identifiers[id], userName) else userName
  }

  /** The identity recorded last is the one retrieved; other players keep theirs. */
  lemma {:induction false} IdentityIsRetrieved(
    ids: seq<PlayerIdentifier>, userName: string, identity: string, other: string)
    ensures IdentifierIn(Identified(ids, userName, identity), userName) == identity
    ensures other != userName ==> IdentifierIn(Identified(ids, userName, identity), other) == IdentifierIn(ids, other)
    decreases |ids|
  {
    if ids != [] {
      if ids[0].userName == userName {
        assert Identified(ids, userName, identity)[1..] == ids[1..];
      } else {
        IdentityIsRetrieved(ids[1..], userName, identity, other);
        assert Identified(ids, userName, identity)[1..] == Identified(ids[1..], userName, identity);
      }
    }
  }

  /** The same on states: what is recorded for a player in a pit is what is retrieved there, and
      every other player in every pit keeps what it had. */
  lemma IdentityIsKept(s: State, id: nat, userName: string, identity: string, other: nat, otherName: string)
    ensures RetrieveIdentifier(AddIdentifier(s, id, userName, identity), other, otherName)
         == if other == id && otherName == userName then identity else RetrieveIdentifier(s, other, otherName)
  {
    var ids := if id in s.identifiers then s.identifiers[id] else [];
    IdentityIsRetrieved(ids, userName, identity, otherName);
  }

  // ----- authentication and messages

  predicate IsPlayerAwaited(s: State, name: string, token: string, pitId: nat) {
    token in s.awaiting && s.awaiting[token].namePlayer == name && s.awaiting[token].fightingPitId == pitId
  }

  /** The welcome every admitted player gets: the identity is recorded and the team is looked
      up in its pit. */
  function Welcome(s: State, id: nat, m: Message, success: Outcome): (State, Outcome)
    requires m.Authenticate?
  {
    var s' := AddIdentifier(s, id, m.userName, m.identity);
    (s', if id in s'.pits && m.userName in s'.pits[id].teams then success else DanglingBroadcast)
  }

  function Admit(s: State, m: Message): (State, Outcome)
    requires m.Authenticate? && s.lastId < UINT_SIZE
  {
    if !IsPlayerAwaited(s, m.userName, m.token, m.pitId) then (s, NotAwaited) else
    var player := s.awaiting[m.token];
    if player.HasToBeGenerated() then
      var (s', id) := AddPit(s, BuildFightingPit(player, m.generated));
      var s'' := s'.(awaiting := s'.awaiting - {m.token});
      if id == CREATION_ERROR then (s'', CreationFailed) else Welcome(s'', id, m, Created(id))
    else if m.pitId !in s.pits then (s, PitVanished)
    else
      var s' := JoinPit(s, m.pitId, m.userName);
      Welcome(s'.(awaiting := s'.awaiting - {m.token}), m.pitId, m, Joined(m.pitId))
  }

  function Forward(s: State, m: Message): (State, Outcome)
    requires m.InGame?
  {
    if m.pitId in s.pits && s.pits[m.pitId].IsPlayerParticipant(m.userName, m.token)
    then (s, Forwarded(m.pitId))
    else (s, NotAuthenticated)
  }

  function Step(s: State, m: Message): (State, Outcome)
    requires s.lastId < UINT_SIZE
  {
    match m
    case Encounter(_, _, _, _, _, _, _) => Register(s, m)
    case Authenticate(_, _, _, _, _) => Admit(s, m)
    case InGame(_, _, _) => Forward(s, m)
  }

  // ----- what every reachable state satisfies

  ghost predicate AwaitedWell(s: State) {
    forall t :: t in s.awaiting ==>
      var player := s.awaiting[t];
      && player.token == t
      && (player.gen.Some? <==> player.fightingPitId == 0)
      && (player.fightingPitId != 0 ==> player.fightingPitId in s.pits)
  }

  ghost predicate NumberedWell(s: State) {
    && s.lastId < UINT_SIZE
    && |s.pits| == s.lastId
    && (forall id :: id in s.pits <==> 1 <= id <= s.lastId)
    && (forall id :: id in s.pits ==> s.pits[id].arenaId == id)
  }

  ghost predicate FoundedWell(s: State) {
    forall id :: id in s.pits ==>
      |s.pits[id].authenticated| == 1 && s.pits[id].authenticated[0].name in s.pits[id].teams
  }

  ghost predicate Inv(s: State) {
    AwaitedWell(s) && NumberedWell(s) && FoundedWell(s)
  }

  /** Ids are handed out in order: on any reachable state the search for a free id succeeds
      at once and does not wrap. */
  lemma NextIdIsFresh(s: State)
    requires Inv(s) && s.lastId < UINT_SIZE - 1
    ensures FirstFree(s.pits, s.lastId + 1) == s.lastId + 1 != CREATION_ERROR
    ensures s.lastId + 1 !in s.pits
  {
  }

  /** When an announcement is accepted: the pit is still to be created or is live, and nobody
      waits under the token.  Accepted, the player waits under it with all that was announced;
      refused, nothing changes. */
  lemma AnnouncementAccepted(s: State, m: Message)
    requires Inv(s) && m.Encounter?
    ensures s.lastId < UINT_SIZE
    ensures var (s', outcome) := Step(s, m);
            && (outcome == Accepted <==> (m.pitId == 0 || 1 <= m.pitId <= s.lastId) && m.token !in s.awaiting)
            && (outcome == NoSuchPit <==> !(m.pitId == 0 || 1 <= m.pitId <= s.lastId))
            && (outcome == AlreadyAwaited <==> (m.pitId == 0 || 1 <= m.pitId <= s.lastId) && m.token in s.awaiting)
            && (outcome != Accepted ==> s' == s)
            && (outcome == Accepted ==>
                  var level := if m.levelCode == 1 then MEDIUM else if m.levelCode == 2 then HARD else EASY;
                  var gen := if m.pitId == 0
                             then Some(AwaitingArena(m.worldServer, m.isAmbush, m.encounterId, level)) else None;
                  s' == s.(awaiting := s.awaiting[m.token := AwaitingPlayer(m.userName, m.token, m.pitId, gen)]))
  {
  }

  /** From the announcement to the pit: after an accepted one, the player that presents the same
      name, token and pit joins the live pit, or gets a new pit of the announced level whenever one
      can be created. */
  lemma AnnouncedIsAdmitted(s: State, m: Message, a: Message)
    requires Inv(s) && m.Encounter? && Register(s, m).1 == Accepted
    requires a.Authenticate? && a.userName == m.userName && a.token == m.token && a.pitId == m.pitId
    ensures s.lastId < UINT_SIZE && Register(s, m).0.lastId == s.lastId
    ensures var (s', outcome) := Step(Register(s, m).0, a);
            if m.pitId != 0 then outcome == Joined(m.pitId)
            else if m.userName != "" && m.token != "" && a.generated && s.lastId < UINT_SIZE - 1 then
              && outcome == Created(s.lastId + 1) && s.lastId + 1 in s'.pits
              && s'.pits[s.lastId + 1].level
                 == (if m.levelCode == 1 then MEDIUM else if m.levelCode == 2 then HARD else EASY)
            else outcome == CreationFailed
  {
    hide Inv, Admit;
    AnnouncementAccepted(s, m);
    RegisterKeepsInv(s, m);
    var t := Register(s, m).0;
    if m.pitId != 0 {
      AdmitJoins(t, a);
    } else if m.userName != "" && m.token != "" && a.generated && s.lastId < UINT_SIZE - 1 {
      AdmitCreates(t, a);
    } else {
      AdmitFails(t, a);
    }
  }

  lemma RegisterKeepsInv(s: State, m: Message)
    requires Inv(s) && m.Encounter?
    ensures Inv(Register(s, m).0)
  {
  }

  lemma ConsumeKeepsInv(s: State, token: string)
    requires Inv(s)
    ensures Inv(s.(awaiting := s.awaiting - {token}))
  {
  }

  lemma AddPitKeepsInv(s: State, fp: FightingPit)
    requires Inv(s) && s.lastId < UINT_SIZE - 1
    requires |fp.authenticated| == 1 && fp.authenticated[0].name in fp.teams
    ensures var (s', id) := AddPit(s, Some(fp));
            && id == s.lastId + 1 && Inv(s')
            && s' == s.(pits := s.pits[id := fp.(arenaId := id)], lastId := id)
  {
    NextIdIsFresh(s);
    assert |s.pits[s.lastId + 1 := fp.(arenaId := s.lastId + 1)]| == |s.pits| + 1;
  }

  lemma JoinKeepsInv(s: State, id: nat, userName: string)
    requires Inv(s) && id in s.pits
    ensures Inv(JoinPit(s, id, userName))
  {
  }

  lemma WelcomeKeepsInv(s: State, id: nat, m: Message, success: Outcome)
    requires Inv(s) && m.Authenticate? && id in s.pits && m.userName in s.pits[id].teams
    ensures Inv(Welcome(s, id, m, success).0) && Welcome(s, id, m, success).1 == success
    ensures Welcome(s, id, m, success).0 == AddIdentifier(s, id, m.userName, m.identity)
  {
  }

  function LevelOf(player: AwaitingPlayer): Option<Level> {
    if player.gen.Some? then Some(player.gen.value.level) else None
  }

  lemma AdmitCreates(s: State, m: Message)
    requires Inv(s) && m.Authenticate? && IsPlayerAwaited(s, m.userName, m.token, m.pitId) && m.pitId == 0
    requires m.userName != "" && m.token != "" && m.generated && s.lastId < UINT_SIZE - 1
    ensures var (s', outcome) := Admit(s, m);
            && Inv(s') && outcome == Created(s.lastId + 1)
            && s'.awaiting == s.awaiting - {m.token} && s'.lastId == s.lastId + 1
            && s'.identifiers == AddIdentifier(s, s.lastId + 1, m.userName, m.identity).identifiers
            && (exists fp: FightingPit :: fp.authenticated == [AuthenticatedPlayer(m.userName, m.token)]
                                       && fp.teams == [m.userName]
                                       && Some(fp.level) == LevelOf(s.awaiting[m.token])
                                       && s'.pits == s.pits[s.lastId + 1 := fp])
  {
    hide FirstFree, AwaitedWell, NumberedWell, FoundedWell, AddIdentifier, AddPit, Inv, Welcome;
    AwaitedPlayer(s, m.token);
    LastIdCounts(s);
    var fp := BuildFightingPit(s.awaiting[m.token], m.generated).value;
    AddPitKeepsInv(s, fp);
    var s1 := AddPit(s, Some(fp)).0;
    ConsumeKeepsInv(s1, m.token);
    var s2 := s1.(awaiting := s1.awaiting - {m.token});
    WelcomeKeepsInv(s2, s.lastId + 1, m, Created(s.lastId + 1));
    var founded := fp.(arenaId := s.lastId + 1);
    assert s2.pits == s.pits[s.lastId + 1 := founded];
    assert Some(founded.level) == LevelOf(s.awaiting[m.token]);
    AddIdentifierFrame(s2, s.lastId + 1, m.userName, m.identity);
    AddIdentifierReads(s, s2, s.lastId + 1, m.userName, m.identity);
  }

  lemma AdmitRefuses(s: State, m: Message)
    requires m.Authenticate? && s.lastId < UINT_SIZE
    ensures !IsPlayerAwaited(s, m.userName, m.token, m.pitId) ==> Admit(s, m) == (s, NotAwaited)
  {
  }

  lemma AdmitFails(s: State, m: Message)
    requires Inv(s) && m.Authenticate? && IsPlayerAwaited(s, m.userName, m.token, m.pitId) && m.pitId == 0
    requires m.userName == "" || m.token == "" || !m.generated || s.lastId == UINT_SIZE - 1
    ensures Admit(s, m) == (s.(awaiting := s.awaiting - {m.token}), CreationFailed)
    ensures Inv(Admit(s, m).0)
  {
  }

  lemma AdmitJoins(s: State, m: Message)
    requires Inv(s) && m.Authenticate? && IsPlayerAwaited(s, m.userName, m.token, m.pitId) && m.pitId != 0
    ensures var (s', outcome) := Admit(s, m);
            && Inv(s') && outcome == Joined(m.pitId) && m.pitId in s.pits
            && s'.awaiting == s.awaiting - {m.token} && s'.lastId == s.lastId
            && s'.pits == s.pits[m.pitId := s.pits[m.pitId].(teams := s.pits[m.pitId].teams + [m.userName])]
            && s'.identifiers == AddIdentifier(s, m.pitId, m.userName, m.identity).identifiers
  {
    hide FirstFree, Inv, Welcome;
    AwaitedPlayer(s, m.token);
    JoinKeepsInv(s, m.pitId, m.userName);
    var s1 := JoinPit(s, m.pitId, m.userName);
    ConsumeKeepsInv(s1, m.token);
    var s2 := s1.(awaiting := s1.awaiting - {m.token});
    WelcomeKeepsInv(s2, m.pitId, m, Joined(m.pitId));
    AddIdentifierFrame(s2, m.pitId, m.userName, m.identity);
    AddIdentifierReads(s, s2, m.pitId, m.userName, m.identity);
  }

  lemma AddIdentifierReads(s: State, t: State, id: nat, userName: string, identity: string)
    requires s.identifiers == t.identifiers
    ensures AddIdentifier(s, id, userName, identity).identifiers == AddIdentifier(t, id, userName, identity).identifiers
  {
  }

  lemma AddIdentifierFrame(s: State, id: nat, userName: string, identity: string)
    ensures var s' := AddIdentifier(s, id, userName, identity);
            s' == s.(identifiers := s'.identifiers)
  {
  }

  lemma AwaitedPlayer(s: State, token: string)
    requires Inv(s) && token in s.awaiting
    ensures var player := s.awaiting[token];
            && player.token == token
            && (player.HasToBeGenerated() <==> player.fightingPitId == 0)
            && (!player.HasToBeGenerated() ==> player.fightingPitId in s.pits)
  {
  }

  lemma LastIdCounts(s: State)
    requires Inv(s)
    ensures |s.pits| == s.lastId < UINT_SIZE && s.lastId + 1 !in s.pits && 0 !in s.pits
  {
  }

  /** Admission is safe: every step from a reachable state leads to one that satisfies the
      invariant, joining a vanished pit and broadcasting to a missing one never happen. */
  lemma StepKeepsInv(s: State, m: Message)
    requires Inv(s)
    ensures Inv(Step(s, m).0)
    ensures Step(s, m).1 != PitVanished && Step(s, m).1 != DanglingBroadcast
  {
    hide Inv, Admit, Register;
    match m
    case Encounter(_, _, _, _, _, _, _) => RegisterKeepsInv(s, m); RegisterOutcome(s, m);
    case Authenticate(_, _, _, _, _) =>
      LastIdCounts(s);
      AdmitRefuses(s, m);
      if IsPlayerAwaited(s, m.userName, m.token, m.pitId) {
        if m.pitId != 0 {
          AdmitJoins(s, m);
        } else if m.userName == "" || m.token == "" || !m.generated || s.lastId == UINT_SIZE - 1 {
          AdmitFails(s, m);
        } else {
          AdmitCreates(s, m);
        }
      }
    case InGame(_, _, _) =>
  }

  lemma RegisterOutcome(s: State, m: Message)
    requires m.Encounter?
    ensures Register(s, m).1 in {Accepted, NoSuchPit, AlreadyAwaited}
    ensures Register(s, m).0.pits == s.pits && Register(s, m).0.identifiers == s.identifiers
  {
  }

  /** An authentication is answered by an admission or a failed creation exactly when the player is
      awaited; otherwise it is refused and nothing changes. */
  lemma AuthenticationAnswered(s: State, m: Message)
    requires Inv(s) && m.Authenticate?
    ensures s.lastId < UINT_SIZE
    ensures var (s', outcome) := Step(s, m);
            if IsPlayerAwaited(s, m.userName, m.token, m.pitId)
            then outcome.Created? || outcome.Joined? || outcome == CreationFailed
            else s' == s && outcome == NotAwaited
  {
    hide Inv, Admit;
    LastIdCounts(s);
    AdmitRefuses(s, m);
    if IsPlayerAwaited(s, m.userName, m.token, m.pitId) {
      if m.pitId != 0 {
        AdmitJoins(s, m);
      } else if m.userName == "" || m.token == "" || !m.generated || s.lastId == UINT_SIZE - 1 {
        AdmitFails(s, m);
      } else {
        AdmitCreates(s, m);
      }
    }
  }

  /** Does the message, answered so, admit that player to that pit? */
  predicate Admits(m: Message, outcome: Outcome, pit: nat, name: string) {
    m.Authenticate? && m.userName == name && (outcome == Created(pit) || outcome == Joined(pit))
  }

  /** The identity retrieved for a player changes only when the player is admitted to the pit, and
      then to the one it came with. */
  lemma StepIdentity(s: State, m: Message, pit: nat, name: string)
    requires Inv(s)
    ensures s.lastId < UINT_SIZE
    ensures var (s', outcome) := Step(s, m);
            RetrieveIdentifier(s', pit, name)
            == if Admits(m, outcome, pit, name) then m.identity else RetrieveIdentifier(s, pit, name)
  {
    hide Inv, Admit, Register, AddIdentifier;
    LastIdCounts(s);
    if m.Encounter? {
      RegisterOutcome(s, m);
    } else if m.Authenticate? {
      AdmitRefuses(s, m);
      if IsPlayerAwaited(s, m.userName, m.token, m.pitId) {
        if m.pitId != 0 {
          AdmitJoins(s, m);
          IdentityIsKept(s, m.pitId, m.userName, m.identity, pit, name);
        } else if m.userName == "" || m.token == "" || !m.generated || s.lastId == UINT_SIZE - 1 {
          AdmitFails(s, m);
        } else {
          AdmitCreates(s, m);
          IdentityIsKept(s, s.lastId + 1, m.userName, m.identity, pit, name);
        }
      }
    }
  }

  /** Pits are never removed or altered, but for the teams that are added at the end. */
  lemma PitsOnlyGrow(s: State, m: Message, pit: nat)
    requires Inv(s) && pit in s.pits
    ensures s.lastId < UINT_SIZE && pit in Step(s, m).0.pits
    ensures var (before, after) := (s.pits[pit], Step(s, m).0.pits[pit]);
            && after == before.(teams := after.teams)
            && |before.teams| <= |after.teams| && after.teams[..|before.teams|] == before.teams
  {
    hide Inv, Admit, Register;
    LastIdCounts(s);
    if m.Encounter? {
      RegisterOutcome(s, m);
    } else if m.Authenticate? {
      AdmitRefuses(s, m);
      if IsPlayerAwaited(s, m.userName, m.token, m.pitId) {
        if m.pitId != 0 {
          AdmitJoins(s, m);
        } else if m.userName == "" || m.token == "" || !m.generated || s.lastId == UINT_SIZE - 1 {
          AdmitFails(s, m);
        } else {
          AdmitCreates(s, m);
        }
      }
    }
  }
}
