/**
 The arena server's handlers and the worker that owns the pits, updating their maps in
 place; each is proved to take the step of the admission protocol.
 */
module ArenaServer {
  import opened Wrappers
  import opened MachineIntegers
  import opened Admission

  function IndexOfUser(ids: seq<PlayerIdentifier>, userName: string): nat {
    FirstMatch(ids, (ident: PlayerIdentifier) => ident.userName == userName)
  }

  lemma {:induction false} IdentifiedByIndex(ids: seq<PlayerIdentifier>, userName: string, identity: string)
    ensures var r := IndexOfUser(ids, userName);
            && Identified(ids, userName, identity)
               == (if r < |ids| then ids[r := ids[r].(identifier := identity)]
                   else ids + [PlayerIdentifier(userName, identity)])
            && IdentifierIn(ids, userName) == if r < |ids| then ids[r].identifier else userName
    decreases |ids|
  {
    if ids != [] && ids[0].userName != userName {
      IdentifiedByIndex(ids[1..], userName, identity);
    }
  }

  class WorkerService {
    var currentArenaId: nat
    var arenaInstances: map<nat, FightingPit>
    var arenaIdOnIdentifier: map<nat, seq<PlayerIdentifier>>

    constructor ()
      ensures State(map[], arenaInstances, currentArenaId, arenaIdOnIdentifier) == START
    {
      currentArenaId, arenaInstances, arenaIdOnIdentifier := 0, map[], map[];
    }

    ghost function WithAwaiting(awaiting: map<string, AwaitingPlayer>): State
      reads this
    {
      State(awaiting, arenaInstances, currentArenaId, arenaIdOnIdentifier)
    }

    /** Store the pit under the next free id, or refuse it.  The counter is an unsigned
        32-bit integer. */
    method AddFightingPit(fp: Option<FightingPit>, ghost awaiting: map<string, AwaitingPlayer>) returns (id: nat)
      requires currentArenaId < UINT_SIZE
      modifies this`currentArenaId, this`arenaInstances
      ensures (WithAwaiting(awaiting), id) == AddPit(old(WithAwaiting(awaiting)), fp)
      ensures currentArenaId < UINT_SIZE
    {
      if fp.None? {
        return CREATION_ERROR;
      }
      if |arenaInstances| >= UINT_SIZE - 1 {
        return CREATION_ERROR;
      }
      ghost var first := currentArenaId + 1;
      currentArenaId := (currentArenaId + 1) % UINT_SIZE;
      while currentArenaId != 0 && currentArenaId in arenaInstances
        invariant currentArenaId < UINT_SIZE && arenaInstances == old(arenaInstances)
        invariant FirstFree(arenaInstances, first)
               == if currentArenaId == 0 then 0 else FirstFree(arenaInstances, currentArenaId)
        decreases if currentArenaId == 0 then 0 else UINT_SIZE - currentArenaId
      {
        currentArenaId := (currentArenaId + 1) % UINT_SIZE;
      }
      arenaInstances := arenaInstances[currentArenaId := fp.value.(arenaId := currentArenaId)];
      return currentArenaId;
    }

    method PlayerJoinFightingPit(fightingPitId: nat, userName: string)
      modifies this`arenaInstances
      ensures fightingPitId !in old(arenaInstances) ==> arenaInstances == old(arenaInstances)
      ensures fightingPitId in old(arenaInstances) ==>
                forall awaiting ::
                  WithAwaiting(awaiting) == JoinPit(old(WithAwaiting(awaiting)), fightingPitId, userName)
    {
      if fightingPitId in arenaInstances {
        var pit := arenaInstances[fightingPitId];
        arenaInstances := arenaInstances[fightingPitId := pit.(teams := pit.teams + [userName])];
      }
    }

    method GetAuthenticatedPlayerFightingPit(name: string, token: string, fightingPitId: nat)
      returns (r: Option<FightingPit>)
      ensures r.Some? <==>
                fightingPitId in arenaInstances && arenaInstances[fightingPitId].IsPlayerParticipant(name, token)
      ensures r.Some? ==> r.value == arenaInstances[fightingPitId]
    {
      if fightingPitId in arenaInstances && arenaInstances[fightingPitId].IsPlayerParticipant(name, token) {
        return Some(arenaInstances[fightingPitId]);
      }
      return None;
    }

    method AddPlayerIdentifier(fightingPitId: nat, userName: string, identityPlayer: string)
      modifies this`arenaIdOnIdentifier
      ensures forall awaiting ::
                WithAwaiting(awaiting)
                == AddIdentifier(old(WithAwaiting(awaiting)), fightingPitId, userName, identityPlayer)
    {
      var identifiers := if fightingPitId in arenaIdOnIdentifier then arenaIdOnIdentifier[fightingPitId] else [];
      IdentifiedByIndex(identifiers, userName, identityPlayer);
      var it := IndexOfUser(identifiers, userName);
      if it < |identifiers| {
        identifiers := identifiers[it := identifiers[it].(identifier := identityPlayer)];
      } else {
        identifiers := identifiers + [PlayerIdentifier(userName, identityPlayer)];
      }
      arenaIdOnIdentifier := arenaIdOnIdentifier[fightingPitId := identifiers];
    }

    method RetrievePlayerIdentifier(fightingPitId: nat, userName: string) returns (identifier: string)
      ensures identifier == RetrieveIdentifier(WithAwaiting(map[]), fightingPitId, userName)
    {
      if fightingPitId !in arenaIdOnIdentifier {
        return userName;
      }
      var identifiers := arenaIdOnIdentifier[fightingPitId];
      IdentifiedByIndex(identifiers, userName, "");
      var it := IndexOfUser(identifiers, userName);
      if it < |identifiers| {
        return identifiers[it].identifier;
      }
      return userName;
    }

    /** The search for the team that a broadcast begins with; false stands for the exceptions of
        its two lookups. */
    method BroadCastNewArrivingTeam(fightingPitId: nat, userName: string) returns (found: bool)
      ensures found <==> fightingPitId in arenaInstances && userName in arenaInstances[fightingPitId].teams
    {
      if fightingPitId !in arenaInstances {
        return false;
      }
      var teams := arenaInstances[fightingPitId].teams;
      var it := FirstMatch(teams, team => team == userName);
      return it < |teams|;
    }

    predicate DoesFightingPitExist(fightingPitId: nat)
      reads this
    {
      fightingPitId in arenaInstances
    }
  }

  class ArenaServerService {
    const workerService: WorkerService
    var awaitingArena: map<string, AwaitingPlayer>

    constructor ()
      ensures Valid() && Contents() == START && fresh(workerService)
    {
      workerService := new WorkerService();
      awaitingArena := map[];
    }

    ghost function Contents(): State
      reads this, workerService
    {
      workerService.WithAwaiting(awaitingArena)
    }

    /** The protocol invariant holds between any two messages. */
    ghost predicate Valid()
      reads this, workerService
    {
      Inv(Contents())
    }

    /** A world server announces a player. */
    method OnEncounter(m: Message) returns (outcome: Outcome)
      requires Valid() && m.Encounter?
      modifies this
      ensures Valid() && (Contents(), outcome) == Step(old(Contents()), m)
    {
      RegisterKeepsInv(Contents(), m);
      var apa := CreateAwaitingPlayer(m);
      if !apa.HasToBeGenerated() && !workerService.DoesFightingPitExist(apa.fightingPitId) {
        return NoSuchPit;
      }
      if m.token in awaitingArena {
        return AlreadyAwaited;
      }
      awaitingArena := awaitingArena[m.token := apa];
      return Accepted;
    }

    method CreateNewFightingPit(awaited: AwaitingPlayer, generated: bool) returns (id: nat)
      requires awaited.gen.Some? && workerService.currentArenaId < UINT_SIZE
      modifies workerService
      ensures (Contents(), id) == AddPit(old(Contents()), BuildFightingPit(awaited, generated))
      ensures workerService.arenaIdOnIdentifier == old(workerService.arenaIdOnIdentifier)
    {
      id := workerService.AddFightingPit(BuildFightingPit(awaited, generated), awaitingArena);
    }

    /** A player presents its token. */
    method OnAuthenticate(m: Message) returns (outcome: Outcome)
      requires Valid() && m.Authenticate?
      modifies this, workerService
      ensures Valid() && (Contents(), outcome) == Step(old(Contents()), m)
      ensures outcome != PitVanished && outcome != DanglingBroadcast
    {
      hide Inv, FirstFree;
      LastIdCounts(Contents());
      StepKeepsInv(Contents(), m);
      if m.token !in awaitingArena || awaitingArena[m.token].namePlayer != m.userName
         || awaitingArena[m.token].fightingPitId != m.pitId {
        return NotAwaited;
      }
      var player := awaitingArena[m.token];
      var fightingPitId := player.fightingPitId;
      if player.HasToBeGenerated() {
        fightingPitId := CreateNewFightingPit(player, m.generated);
        awaitingArena := awaitingArena - {m.token};
        if fightingPitId == CREATION_ERROR {
          return CreationFailed;
        }
        outcome := Created(fightingPitId);
      } else {
        if !workerService.DoesFightingPitExist(m.pitId) {
          return PitVanished;
        }
        workerService.PlayerJoinFightingPit(fightingPitId, m.userName);
        awaitingArena := awaitingArena - {m.token};
        outcome := Joined(fightingPitId);
      }
      workerService.AddPlayerIdentifier(fightingPitId, m.userName, m.identity);
      var found := workerService.BroadCastNewArrivingTeam(fightingPitId, m.userName);
      if !found {
        outcome := DanglingBroadcast;
      }
    }

    /** A player sends a message for its pit. */
    method OnInGame(m: Message) returns (outcome: Outcome)
      requires Valid() && m.InGame?
      ensures (Contents(), outcome) == Step(Contents(), m)
    {
      var fp := workerService.GetAuthenticatedPlayerFightingPit(m.userName, m.token, m.pitId);
      if fp.None? {
        return NotAuthenticated;
      }
      return Forwarded(m.pitId);
    }
  }
}
