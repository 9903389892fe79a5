/**
 Whole runs of the admission protocol, with a ledger that follows every accepted
 registration from its acceptance to the one thing it was used for.
 */
module AdmissionLedger {
  import opened Wrappers
  import opened MachineIntegers
  import opened Admission

  datatype Fate = Waiting | Founded(pit: nat) | Failed | HasJoined(pit: nat)

  datatype Ticket = Ticket(name: string, token: string, pitId: nat, fate: Fate)

  /** `holder` names the ticket a waiting token stands for, `founder` the ticket a pit was
      created from. */
  datatype History = History(state: State, ledger: seq<Ticket>, holder: map<string, nat>, founder: map<nat, nat>)

  const NOTHING_YET := History(START, [], map[], map[])

  ghost predicate WaitingMatched(h: History) {
    && h.holder.Keys == h.state.awaiting.Keys
    && (forall t :: t in h.holder ==>
          && h.holder[t] < |h.ledger|
          && h.ledger[h.holder[t]]
             == Ticket(h.state.awaiting[t].namePlayer, t, h.state.awaiting[t].fightingPitId, Waiting))
    && (forall i :: 0 <= i < |h.ledger| && h.ledger[i].fate == Waiting ==>
          h.ledger[i].token in h.holder && h.holder[h.ledger[i].token] == i)
  }

  /** The ticket that pit `p` was founded with, and nobody else may send messages to it. */
  ghost predicate PitMatched(h: History, p: nat)
    requires p in h.founder && p in h.state.pits
  {
    && h.founder[p] < |h.ledger|
    && h.ledger[h.founder[p]].fate == Founded(p)
    && h.state.pits[p].authenticated
       == [AuthenticatedPlayer(h.ledger[h.founder[p]].name, h.ledger[h.founder[p]].token)]
  }

  ghost predicate FoundersMatched(h: History) {
    forall i :: 0 <= i < |h.ledger| && h.ledger[i].fate.Founded? ==>
      h.ledger[i].fate.pit in h.founder && h.founder[h.ledger[i].fate.pit] == i
  }

  ghost predicate PitsMatched(h: History) {
    && h.founder.Keys == h.state.pits.Keys
    && (forall p :: p in h.founder ==> PitMatched(h, p))
    && FoundersMatched(h)
  }

  ghost predicate JoinersMatched(h: History) {
    forall i :: 0 <= i < |h.ledger| && h.ledger[i].fate.HasJoined? ==>
      && h.ledger[i].fate.pit == h.ledger[i].pitId
      && h.ledger[i].pitId in h.state.pits
      && h.ledger[i].name in h.state.pits[h.ledger[i].pitId].teams
  }

  function Joiner(t: Ticket, p: nat): multiset<string> {
    if t.fate == HasJoined(p) then multiset{t.name} else multiset{}
  }

  /** The names under which pit `p` has been joined. */
  function Joiners(ledger: seq<Ticket>, p: nat): multiset<string> {
    if ledger == [] then multiset{} else Joiner(ledger[0], p) + Joiners(ledger[1..], p)
  }

  ghost predicate PitTeamsMatched(h: History, p: nat)
    requires p in h.state.pits
  {
    var pit := h.state.pits[p];
    |pit.authenticated| == 1 && multiset(pit.teams) == multiset{pit.authenticated[0].name} + Joiners(h.ledger, p)
  }

  /** The teams of every pit are exactly the founder's and one for each ticket that joined it. */
  ghost predicate TeamsMatched(h: History) {
    forall p :: p in h.state.pits ==> PitTeamsMatched(h, p)
  }

  function Kind(f: Fate): nat {
    match f
    case Waiting => 0
    case Founded(_) => 1
    case Failed => 2
    case HasJoined(_) => 3
  }

  function Count(ledger: seq<Ticket>, kind: nat): nat {
    if ledger == [] then 0
    else (if Kind(ledger[0].fate) == kind then 1 else 0) + Count(ledger[1..], kind)
  }

  ghost predicate Counted(h: History) {
    && Count(h.ledger, 0) == |h.state.awaiting|
    && Count(h.ledger, 1) == |h.state.pits|
  }

  ghost predicate Sound(h: History) {
    Inv(h.state) && WaitingMatched(h) && PitsMatched(h) && JoinersMatched(h) && TeamsMatched(h) && Counted(h)
  }

  // ----- one message

  /** The ticket behind `token` gets its fate and the token stops standing for it. */
  function Settled(h: History, s: State, token: string, fate: Fate): History
    requires token in h.holder && h.holder[token] < |h.ledger|
  {
    var i := h.holder[token];
    History(s, h.ledger[i := h.ledger[i].(fate := fate)], h.holder - {token},
            if fate.Founded? then h.founder[fate.pit := i] else h.founder)
  }

  /** What becomes of the ticket whose token led to that outcome. */
  function FateOf(outcome: Outcome): Option<Fate> {
    match outcome
    case CreationFailed => Some(Failed)
    case Created(id) => Some(Founded(id))
    case Joined(id) => Some(HasJoined(id))
    case _ => None
  }

  function Record(h: History, m: Message): History
    requires h.state.lastId < UINT_SIZE
    requires m.Authenticate? && m.token in h.state.awaiting ==>
               m.token in h.holder && h.holder[m.token] < |h.ledger|
  {
    var (s, outcome) := Step(h.state, m);
    if outcome == Accepted then
      History(s, h.ledger + [Ticket(m.userName, m.token, m.pitId, Waiting)],
              h.holder[m.token := |h.ledger|], h.founder)
    else if FateOf(outcome).Some? then
      Settled(h, s, m.token, FateOf(outcome).value)
    else
      h.(state := s)
  }

  lemma {:induction false} CountUpdate(ledger: seq<Ticket>, i: nat, t: Ticket, kind: nat)
    requires i < |ledger|
    ensures Count(ledger[i := t], kind)
         == Count(ledger, kind) - (if Kind(ledger[i].fate) == kind then 1 else 0)
          + (if Kind(t.fate) == kind then 1 else 0)
    decreases |ledger|
  {
    if i == 0 {
      assert ledger[i := t][1..] == ledger[1..];
    } else {
      assert ledger[i := t][1..] == ledger[1..][i - 1 := t];
      CountUpdate(ledger[1..], i - 1, t, kind);
    }
  }

  lemma {:induction false} CountAppend(ledger: seq<Ticket>, t: Ticket, kind: nat)
    ensures Count(ledger + [t], kind) == Count(ledger, kind) + if Kind(t.fate) == kind then 1 else 0
    decreases |ledger|
  {
    if ledger != [] {
      assert (ledger + [t])[1..] == ledger[1..] + [t];
      CountAppend(ledger[1..], t, kind);
    }
  }

  lemma {:induction false} JoinersUpdate(ledger: seq<Ticket>, i: nat, t: Ticket, p: nat)
    requires i < |ledger| && ledger[i].fate == Waiting
    ensures Joiners(ledger[i := t], p) == Joiners(ledger, p) + Joiner(t, p)
    decreases |ledger|
  {
    assert Joiner(ledger[i], p) == multiset{};
    hide Joiner;
    if i == 0 {
      assert ledger[i := t][1..] == ledger[1..];
    } else {
      assert ledger[i := t][1..] == ledger[1..][i - 1 := t];
      JoinersUpdate(ledger[1..], i - 1, t, p);
    }
  }

  lemma {:induction false} JoinersAppend(ledger: seq<Ticket>, t: Ticket, p: nat)
    requires t.fate == Waiting
    ensures Joiners(ledger + [t], p) == Joiners(ledger, p)
    decreases |ledger|
  {
    if ledger != [] {
      assert (ledger + [t])[1..] == ledger[1..] + [t];
      JoinersAppend(ledger[1..], t, p);
    }
  }

  lemma {:induction false} NoJoiners(ledger: seq<Ticket>, p: nat)
    requires forall i :: 0 <= i < |ledger| ==> ledger[i].fate != HasJoined(p)
    ensures Joiners(ledger, p) == multiset{}
    decreases |ledger|
  {
    if ledger != [] {
      NoJoiners(ledger[1..], p);
    }
  }

  lemma {:induction false} KindsPartition(ledger: seq<Ticket>)
    ensures |ledger| == Count(ledger, 0) + Count(ledger, 1) + Count(ledger, 2) + Count(ledger, 3)
    decreases |ledger|
  {
    if ledger != [] {
      KindsPartition(ledger[1..]);
    }
  }

  /** The ticket a waiting token stands for. */
  lemma WaitingTicket(h: History, token: string)
    requires WaitingMatched(h) && token in h.state.awaiting
    ensures token in h.holder && h.holder[token] < |h.ledger|
    ensures h.ledger[h.holder[token]]
         == Ticket(h.state.awaiting[token].namePlayer, token, h.state.awaiting[token].fightingPitId, Waiting)
  {
  }

  lemma OneMoreKey<V>(before: map<string, V>, after: map<string, V>, key: string)
    requires key !in before && after.Keys == before.Keys + {key}
    ensures |after| == |before| + 1
  {
  }

  lemma AcceptedKeepsWaiting(h: History, s: State, t: Ticket)
    requires WaitingMatched(h) && t.token !in h.state.awaiting && t.fate == Waiting
    requires t.token in s.awaiting && s.awaiting == h.state.awaiting[t.token := s.awaiting[t.token]]
    requires t == Ticket(s.awaiting[t.token].namePlayer, t.token, s.awaiting[t.token].fightingPitId, Waiting)
    ensures WaitingMatched(History(s, h.ledger + [t], h.holder[t.token := |h.ledger|], h.founder))
  {
  }

  lemma AcceptedStaysSound(h: History, m: Message)
    requires Sound(h) && m.Encounter? && Register(h.state, m).1 == Accepted
    ensures h.state.lastId < UINT_SIZE && Sound(Record(h, m))
  {
    hide Inv, WaitingMatched, PitsMatched, JoinersMatched, TeamsMatched;
    LastIdCounts(h.state);
    RegisterKeepsInv(h.state, m);
    var t := Ticket(m.userName, m.token, m.pitId, Waiting);
    AcceptedKeepsWaiting(h, Register(h.state, m).0, t);
    OneMoreKey(h.state.awaiting, Register(h.state, m).0.awaiting, m.token);
    CountAppend(h.ledger, t, 0);
    CountAppend(h.ledger, t, 1);
    AppendedWaiting(h, Record(h, m), t);
  }

  lemma AppendedWaiting(h: History, h': History, t: Ticket)
    requires h'.ledger == h.ledger + [t] && t.fate == Waiting
    requires h'.state.pits == h.state.pits && h'.founder == h.founder
    ensures PitsMatched(h) ==> PitsMatched(h')
    ensures JoinersMatched(h) ==> JoinersMatched(h')
    ensures TeamsMatched(h) ==> TeamsMatched(h')
  {
    forall p: nat
      ensures Joiners(h'.ledger, p) == Joiners(h.ledger, p)
    {
      JoinersAppend(h.ledger, t, p);
    }
  }

  /** Consuming a token keeps the waiting tickets and the awaiting map matched. */
  lemma SettledKeepsWaiting(h: History, s: State, token: string, fate: Fate)
    requires WaitingMatched(h) && token in h.state.awaiting && fate != Waiting
    requires s.awaiting == h.state.awaiting - {token}
    ensures token in h.holder && h.holder[token] < |h.ledger|
    ensures WaitingMatched(Settled(h, s, token, fate))
  {
  }

  lemma SettledKeepsPits(h: History, s: State, token: string, fate: Fate)
    requires WaitingMatched(h) && token in h.state.awaiting && PitsMatched(h)
    requires fate != Waiting && !fate.Founded?
    requires s.pits.Keys == h.state.pits.Keys
    requires forall p :: p in s.pits ==> s.pits[p].authenticated == h.state.pits[p].authenticated
    ensures token in h.holder && h.holder[token] < |h.ledger|
    ensures PitsMatched(Settled(h, s, token, fate))
  {
    WaitingTicket(h, token);
    hide WaitingMatched;
    var h' := Settled(h, s, token, fate);
    forall p | p in h'.founder
      ensures PitMatched(h', p)
    {
      SettledKeepsPit(h, s, token, fate, p);
    }
  }

  lemma SettledKeepsPit(h: History, s: State, token: string, fate: Fate, p: nat)
    requires token in h.holder && h.holder[token] < |h.ledger| && h.ledger[h.holder[token]].fate == Waiting
    requires p in h.founder && p in h.state.pits && PitMatched(h, p)
    requires p in s.pits && s.pits[p].authenticated == h.state.pits[p].authenticated && fate != Founded(p)
    ensures PitMatched(Settled(h, s, token, fate), p)
  {
  }

  lemma SettledFoundsPit(h: History, s: State, token: string, id: nat)
    requires WaitingMatched(h) && token in h.state.awaiting && PitsMatched(h)
    requires id !in h.state.pits && s.pits.Keys == h.state.pits.Keys + {id}
    requires forall p :: p in h.state.pits ==> s.pits[p] == h.state.pits[p]
    requires s.pits[id].authenticated == [AuthenticatedPlayer(h.state.awaiting[token].namePlayer, token)]
    ensures token in h.holder && h.holder[token] < |h.ledger|
    ensures PitsMatched(Settled(h, s, token, Founded(id)))
  {
    WaitingTicket(h, token);
    hide WaitingMatched;
    assert id !in h.founder.Keys;
    var h' := Settled(h, s, token, Founded(id));
    forall p | p in h'.founder
      ensures PitMatched(h', p)
    {
      if p != id {
        assert p in h.founder.Keys;
        SettledKeepsPit(h, s, token, Founded(id), p);
      }
    }
    FounderAdded(h, s, token, id);
  }

  lemma FounderAdded(h: History, s: State, token: string, id: nat)
    requires token in h.holder && h.holder[token] < |h.ledger| && h.ledger[h.holder[token]].fate == Waiting
    requires FoundersMatched(h) && id !in h.founder
    ensures FoundersMatched(Settled(h, s, token, Founded(id)))
  {
  }

  lemma SettledKeepsJoiners(h: History, s: State, token: string, fate: Fate)
    requires WaitingMatched(h) && token in h.state.awaiting && JoinersMatched(h) && fate != Waiting
    requires h.state.pits.Keys <= s.pits.Keys
    requires forall p :: p in h.state.pits ==> forall n :: n in h.state.pits[p].teams ==> n in s.pits[p].teams
    requires fate.HasJoined? ==>
               && fate.pit == h.state.awaiting[token].fightingPitId && fate.pit in s.pits
               && h.state.awaiting[token].namePlayer in s.pits[fate.pit].teams
    ensures token in h.holder && h.holder[token] < |h.ledger|
    ensures JoinersMatched(Settled(h, s, token, fate))
  {
  }

  lemma SettledCounts(h: History, s: State, token: string, fate: Fate)
    requires WaitingMatched(h) && token in h.state.awaiting && Counted(h) && fate != Waiting
    requires s.awaiting == h.state.awaiting - {token}
    requires |s.pits| == |h.state.pits| + if fate.Founded? then 1 else 0
    ensures token in h.holder && h.holder[token] < |h.ledger|
    ensures Counted(Settled(h, s, token, fate))
  {
    WaitingTicket(h, token);
    hide WaitingMatched;
    var i := h.holder[token];
    CountUpdate(h.ledger, i, h.ledger[i].(fate := fate), 0);
    CountUpdate(h.ledger, i, h.ledger[i].(fate := fate), 1);
    assert s.awaiting.Keys == h.state.awaiting.Keys - {token};
    assert |s.awaiting| == |s.awaiting.Keys| && |h.state.awaiting| == |h.state.awaiting.Keys|;
  }

  /** One more team in the pit that was joined, the founder's alone in a new pit, and none
      otherwise. */
  ghost predicate TeamsGrow(before: State, after: State, name: string, fate: Fate, p: nat)
    requires p in after.pits
  {
    var pit := after.pits[p];
    if p in before.pits then
      && pit.authenticated == before.pits[p].authenticated
      && pit.teams == before.pits[p].teams + if fate == HasJoined(p) then [name] else []
    else
      && |pit.authenticated| == 1
      && pit.teams == [pit.authenticated[0].name] && fate != HasJoined(p)
  }

  lemma SettledPitTeams(h: History, s: State, token: string, fate: Fate, p: nat)
    requires token in h.holder && h.holder[token] < |h.ledger| && h.ledger[h.holder[token]].fate == Waiting
    requires p in s.pits && TeamsGrow(h.state, s, h.ledger[h.holder[token]].name, fate, p)
    requires p in h.state.pits ==> PitTeamsMatched(h, p)
    requires p !in h.state.pits ==> Joiners(h.ledger, p) == multiset{}
    ensures PitTeamsMatched(Settled(h, s, token, fate), p)
  {
    hide Joiners;
    var i := h.holder[token];
    JoinersUpdate(h.ledger, i, h.ledger[i].(fate := fate), p);
  }

  lemma SettledTeams(h: History, s: State, token: string, fate: Fate)
    requires WaitingMatched(h) && token in h.state.awaiting && JoinersMatched(h) && TeamsMatched(h)
    requires forall p :: p in s.pits ==> TeamsGrow(h.state, s, h.state.awaiting[token].namePlayer, fate, p)
    ensures token in h.holder && h.holder[token] < |h.ledger|
    ensures TeamsMatched(Settled(h, s, token, fate))
  {
    WaitingTicket(h, token);
    hide WaitingMatched, PitTeamsMatched, TeamsGrow, Joiners;
    var h' := Settled(h, s, token, fate);
    forall p | p in s.pits
      ensures PitTeamsMatched(h', p)
    {
      if p !in h.state.pits {
        NoJoiners(h.ledger, p);
      }
      SettledPitTeams(h, s, token, fate, p);
    }
  }

  lemma RecordSettles(h: History, m: Message, fate: Fate)
    requires m.Authenticate? && h.state.lastId < UINT_SIZE && m.token in h.holder && h.holder[m.token] < |h.ledger|
    requires FateOf(Admit(h.state, m).1) == Some(fate)
    ensures Record(h, m) == Settled(h, Admit(h.state, m).0, m.token, fate)
  {
    hide Admit, Settled;
  }

  lemma FailedStaysSound(h: History, m: Message)
    requires Sound(h) && m.Authenticate? && IsPlayerAwaited(h.state, m.userName, m.token, m.pitId)
    requires m.pitId == 0
    requires m.userName == "" || m.token == "" || !m.generated || h.state.lastId == UINT_SIZE - 1
    ensures h.state.lastId < UINT_SIZE && m.token in h.holder && h.holder[m.token] < |h.ledger|
    ensures Sound(Record(h, m))
  {
    hide Inv, Admit, Record, WaitingMatched, PitsMatched, JoinersMatched, TeamsMatched, Counted, Settled;
    LastIdCounts(h.state);
    AdmitFails(h.state, m);
    var s := Admit(h.state, m).0;
    SettledKeepsWaiting(h, s, m.token, Failed);
    SettledKeepsPits(h, s, m.token, Failed);
    SettledKeepsJoiners(h, s, m.token, Failed);
    SettledTeams(h, s, m.token, Failed);
    SettledCounts(h, s, m.token, Failed);
    SettledState(h, s, m.token, Failed);
    RecordSettles(h, m, Failed);
  }

  lemma SettledState(h: History, s: State, token: string, fate: Fate)
    requires token in h.holder && h.holder[token] < |h.ledger|
    ensures Settled(h, s, token, fate).state == s
  {
  }

  lemma JoinedStaysSound(h: History, m: Message)
    requires Sound(h) && m.Authenticate? && IsPlayerAwaited(h.state, m.userName, m.token, m.pitId)
    requires m.pitId != 0
    ensures h.state.lastId < UINT_SIZE && m.token in h.holder && h.holder[m.token] < |h.ledger|
    ensures Sound(Record(h, m))
  {
    hide Inv, Admit, Record, WaitingMatched, PitsMatched, JoinersMatched, TeamsMatched, Counted, Settled;
    LastIdCounts(h.state);
    AdmitJoins(h.state, m);
    var s, fate := Admit(h.state, m).0, HasJoined(m.pitId);
    assert s.pits.Keys == h.state.pits.Keys;
    assert |s.pits| == |s.pits.Keys| && |h.state.pits| == |h.state.pits.Keys|;
    SettledKeepsWaiting(h, s, m.token, fate);
    SettledKeepsPits(h, s, m.token, fate);
    SettledKeepsJoiners(h, s, m.token, fate);
    SettledTeams(h, s, m.token, fate);
    SettledCounts(h, s, m.token, fate);
    SettledState(h, s, m.token, fate);
    RecordSettles(h, m, fate);
  }

  lemma FoundedTeams(before: State, after: State, name: string, id: nat, fp: FightingPit)
    requires id !in before.pits && after.pits == before.pits[id := fp]
    requires |fp.authenticated| == 1 && fp.authenticated[0].name == name && fp.teams == [name]
    ensures forall p :: p in after.pits ==> TeamsGrow(before, after, name, Founded(id), p)
  {
  }

  lemma FoundedStaysMatched(h: History, s: State, token: string, id: nat, fp: FightingPit)
    requires WaitingMatched(h) && PitsMatched(h) && JoinersMatched(h) && TeamsMatched(h) && Counted(h)
    requires token in h.state.awaiting && s.awaiting == h.state.awaiting - {token}
    requires id !in h.state.pits && s.pits == h.state.pits[id := fp]
    requires fp.authenticated == [AuthenticatedPlayer(h.state.awaiting[token].namePlayer, token)]
    requires fp.teams == [h.state.awaiting[token].namePlayer]
    ensures token in h.holder && h.holder[token] < |h.ledger|
    ensures var h' := Settled(h, s, token, Founded(id));
            WaitingMatched(h') && PitsMatched(h') && JoinersMatched(h') && TeamsMatched(h') && Counted(h')
  {
    hide WaitingMatched, PitsMatched, JoinersMatched, TeamsMatched, TeamsGrow, Counted, Settled;
    assert s.pits.Keys == h.state.pits.Keys + {id};
    assert |s.pits| == |s.pits.Keys| && |h.state.pits| == |h.state.pits.Keys|;
    SettledKeepsWaiting(h, s, token, Founded(id));
    SettledFoundsPit(h, s, token, id);
    SettledKeepsJoiners(h, s, token, Founded(id));
    FoundedTeams(h.state, s, h.state.awaiting[token].namePlayer, id, fp);
    SettledTeams(h, s, token, Founded(id));
    SettledCounts(h, s, token, Founded(id));
  }

  lemma SoundParts(h: History)
    ensures Sound(h) <==> && Inv(h.state) && WaitingMatched(h) && PitsMatched(h) && JoinersMatched(h)
                          && TeamsMatched(h) && Counted(h)
  {
  }

  lemma AwaitedName(s: State, m: Message)
    requires m.Authenticate? && IsPlayerAwaited(s, m.userName, m.token, m.pitId)
    ensures m.token in s.awaiting && s.awaiting[m.token].namePlayer == m.userName
  {
  }

  lemma CreatedStaysSound(h: History, m: Message)
    requires Sound(h) && m.Authenticate? && IsPlayerAwaited(h.state, m.userName, m.token, m.pitId)
    requires m.pitId == 0
    requires m.userName != "" && m.token != "" && m.generated && h.state.lastId < UINT_SIZE - 1
    ensures m.token in h.holder && h.holder[m.token] < |h.ledger|
    ensures Sound(Record(h, m))
  {
    hide *;
    SoundParts(h);
    LastIdCounts(h.state);
    AwaitedName(h.state, m);
    AdmitCreates(h.state, m);
    var s, id := Admit(h.state, m).0, h.state.lastId + 1;
    var fp: FightingPit :| fp.authenticated == [AuthenticatedPlayer(m.userName, m.token)]
                           && fp.teams == [m.userName] && s.pits == h.state.pits[id := fp];
    FoundedStaysMatched(h, s, m.token, id, fp);
    SettledState(h, s, m.token, Founded(id));
    assert FateOf(Created(id)) == Some(Founded(id)) by { CreatedIsFounded(id); }
    RecordSettles(h, m, Founded(id));
    SoundParts(Record(h, m));
  }

  lemma CreatedIsFounded(id: nat)
    ensures FateOf(Created(id)) == Some(Founded(id))
  {
  }

  lemma UneventfulStaysSound(h: History, m: Message)
    requires h.state.lastId < UINT_SIZE && Step(h.state, m).0 == h.state
    requires var outcome := Step(h.state, m).1;
             outcome in {NoSuchPit, AlreadyAwaited, NotAwaited, NotAuthenticated} || outcome.Forwarded?
    requires m.Authenticate? && m.token in h.state.awaiting ==>
               m.token in h.holder && h.holder[m.token] < |h.ledger|
    ensures Record(h, m) == h
  {
    hide Step, Settled;
  }

  lemma RegisterRefuses(s: State, m: Message)
    requires m.Encounter? && Register(s, m).1 != Accepted
    ensures Register(s, m).0 == s
  {
  }

  /** Every message keeps state and ledger matched. */
  lemma RecordStaysSound(h: History, m: Message)
    requires Sound(h)
    ensures h.state.lastId < UINT_SIZE
    ensures m.Authenticate? && m.token in h.state.awaiting ==>
              m.token in h.holder && h.holder[m.token] < |h.ledger|
    ensures Sound(Record(h, m))
  {
    hide Inv, Admit, Register, WaitingMatched, PitsMatched, JoinersMatched, TeamsMatched, Counted, Record;
    LastIdCounts(h.state);
    if m.Authenticate? && m.token in h.state.awaiting {
      WaitingTicket(h, m.token);
    }
    if m.Encounter? {
      RegisterOutcome(h.state, m);
      if Register(h.state, m).1 == Accepted {
        AcceptedStaysSound(h, m);
      } else {
        RegisterRefuses(h.state, m);
        UneventfulStaysSound(h, m);
      }
    } else if m.InGame? || !IsPlayerAwaited(h.state, m.userName, m.token, m.pitId) {
      if m.Authenticate? {
        AdmitRefuses(h.state, m);
      }
      UneventfulStaysSound(h, m);
    } else if m.pitId != 0 {
      JoinedStaysSound(h, m);
    } else if m.userName == "" || m.token == "" || !m.generated || h.state.lastId == UINT_SIZE - 1 {
      FailedStaysSound(h, m);
    } else {
      CreatedStaysSound(h, m);
    }
  }

  // ----- whole runs

  /** The history of a run of messages from an empty server. */
  ghost function Run(ms: seq<Message>): (h: History)
    ensures Sound(h)
  {
    if ms == [] then NOTHING_YET else
    var h := Run(ms[..|ms| - 1]);
    RecordStaysSound(h, ms[|ms| - 1]);
    Record(h, ms[|ms| - 1])
  }

  /** The teams in the pits 1 .. n. */
  function Teams(s: State, n: nat): nat {
    if n == 0 then 0 else Teams(s, n - 1) + if n in s.pits then |s.pits[n].teams| else 0
  }

  /** The tickets that joined one of the pits 1 .. n. */
  function JoinedUpTo(ledger: seq<Ticket>, n: nat): nat {
    if n == 0 then 0 else JoinedUpTo(ledger, n - 1) + |Joiners(ledger, n)|
  }

  lemma JoinersOneMore(ledger: seq<Ticket>, p: nat)
    requires ledger != []
    ensures |Joiners(ledger, p)| == |Joiners(ledger[1..], p)| + if ledger[0].fate == HasJoined(p) then 1 else 0
  {
  }

  lemma {:induction false} JoinedOneMore(ledger: seq<Ticket>, n: nat)
    requires ledger != []
    ensures JoinedUpTo(ledger, n)
         == JoinedUpTo(ledger[1..], n)
          + if ledger[0].fate.HasJoined? && 1 <= ledger[0].fate.pit <= n then 1 else 0
    decreases n
  {
    hide Joiners;
    if n > 0 {
      JoinedOneMore(ledger, n - 1);
      JoinersOneMore(ledger, n);
    }
  }

  lemma {:induction false} JoinedNowhere(n: nat)
    ensures JoinedUpTo([], n) == 0
    decreases n
  {
    if n > 0 {
      JoinedNowhere(n - 1);
    }
  }

  lemma {:induction false} JoinedAreCounted(ledger: seq<Ticket>, n: nat)
    requires forall i :: 0 <= i < |ledger| && ledger[i].fate.HasJoined? ==> 1 <= ledger[i].fate.pit <= n
    ensures JoinedUpTo(ledger, n) == Count(ledger, 3)
    decreases |ledger|
  {
    if ledger == [] {
      JoinedNowhere(n);
    } else {
      JoinedOneMore(ledger, n);
      JoinedAreCounted(ledger[1..], n);
    }
  }

  lemma {:induction false} TeamsAreTickets(h: History, n: nat)
    requires TeamsMatched(h) && forall p: nat :: 1 <= p <= n ==> p in h.state.pits
    ensures Teams(h.state, n) == n + JoinedUpTo(h.ledger, n)
    decreases n
  {
    hide PitTeamsMatched, Joiners;
    if n > 0 {
      TeamsAreTickets(h, n - 1);
      TeamsOfPit(h, n);
    }
  }

  lemma TeamsOfPit(h: History, p: nat)
    requires TeamsMatched(h) && p in h.state.pits
    ensures |h.state.pits[p].teams| == 1 + |Joiners(h.ledger, p)|
  {
    var pit := h.state.pits[p];
    assert |pit.teams| == |multiset(pit.teams)|;
  }

  /** Token conservation, in terms of the server alone but for the failures it forgets: every
      accepted registration still waits, failed to found a pit, or is one of the teams in the
      pits; of these one founded each pit and the others joined. */
  lemma Conservation(ms: seq<Message>)
    ensures var h := Run(ms);
            var joins := Teams(h.state, h.state.lastId) - |h.state.pits|;
            && |h.ledger| == |h.state.awaiting| + |h.state.pits| + Count(h.ledger, 2) + joins
            && joins == Count(h.ledger, 3) && |h.state.pits| == Count(h.ledger, 1)
            && |h.state.awaiting| == Count(h.ledger, 0)
  {
    hide Run, Count, JoinedUpTo, Teams, WaitingMatched, PitsMatched, TeamsMatched;
    var h := Run(ms);
    KindsPartition(h.ledger);
    JoinedAreCounted(h.ledger, h.state.lastId);
    TeamsAreTickets(h, h.state.lastId);
  }

  /** The teams of a pit are those of its founder and of the registrations that joined it, each
      counted as often as it joined. */
  lemma TeamsAreRegistrations(ms: seq<Message>, p: nat)
    requires p in Run(ms).state.pits
    ensures var h := Run(ms);
            && p in h.founder && h.founder[p] < |h.ledger|
            && multiset(h.state.pits[p].teams) == multiset{h.ledger[h.founder[p]].name} + Joiners(h.ledger, p)
  {
    hide Run;
    var h := Run(ms);
    assert p in h.founder.Keys;
  }

  /** What one message does to the ledger: append a waiting ticket, or settle the waiting
      ticket of the token it carries, or nothing. */
  lemma RecordTouches(h: History, m: Message)
    requires Sound(h)
    ensures h.state.lastId < UINT_SIZE
    ensures m.Authenticate? && m.token in h.state.awaiting ==>
              m.token in h.holder && h.holder[m.token] < |h.ledger|
    ensures var (ledger, ledger') := (h.ledger, Record(h, m).ledger);
            || ledger' == ledger
            || (m.Encounter? && ledger' == ledger + [Ticket(m.userName, m.token, m.pitId, Waiting)])
            || (m.Authenticate? && exists i, fate ::
                  0 <= i < |ledger| && ledger[i].fate == Waiting && ledger[i].token == m.token
                  && fate != Waiting && ledger' == ledger[i := ledger[i].(fate := fate)])
  {
    hide Inv, Admit, Register, PitsMatched, JoinersMatched, TeamsMatched, Counted, WaitingMatched;
    LastIdCounts(h.state);
    var outcome := Step(h.state, m).1;
    if m.Encounter? {
      RegisterOutcome(h.state, m);
    } else if m.Authenticate? {
      AdmitRefuses(h.state, m);
      AdmitOutcome(h.state, m);
      if m.token in h.state.awaiting {
        WaitingTicket(h, m.token);
        var i := h.holder[m.token];
        if FateOf(outcome).Some? {
          var fate := FateOf(outcome).value;
          assert Record(h, m).ledger == h.ledger[i := h.ledger[i].(fate := fate)];
        }
      }
    }
  }

  lemma AdmitOutcome(s: State, m: Message)
    requires m.Authenticate? && s.lastId < UINT_SIZE
    ensures Admit(s, m).1 != Accepted
  {
  }

  lemma SettledTicketStays(h: History, m: Message, i: nat)
    requires Sound(h) && i < |h.ledger| && h.ledger[i].fate != Waiting
    requires h.state.lastId < UINT_SIZE
    requires m.Authenticate? && m.token in h.state.awaiting ==>
               m.token in h.holder && h.holder[m.token] < |h.ledger|
    ensures i < |Record(h, m).ledger| && Record(h, m).ledger[i] == h.ledger[i]
  {
    hide Sound, Record;
    RecordTouches(h, m);
  }

  /** Nothing is consumed twice: over any continuation of a run a settled ticket stays as it
      is and stays where it is. */
  lemma {:induction false} FatesAreFinal(ms: seq<Message>, more: seq<Message>, i: nat)
    requires i < |Run(ms).ledger| && Run(ms).ledger[i].fate != Waiting
    ensures i < |Run(ms + more).ledger| && Run(ms + more).ledger[i] == Run(ms).ledger[i]
    decreases |more|
  {
    hide Record, Sound, Run;
    if more == [] {
      assert ms + more == ms;
    } else {
      var before, m := more[..|more| - 1], more[|more| - 1];
      FatesAreFinal(ms, before, i);
      RunStep(ms + before, m);
      assert ms + more == (ms + before) + [m];
      SettledTicketStays(Run(ms + before), m, i);
    }
  }

  lemma RunStep(ms: seq<Message>, m: Message)
    ensures Run(ms).state.lastId < UINT_SIZE
    ensures m.Authenticate? && m.token in Run(ms).state.awaiting ==>
              m.token in Run(ms).holder && Run(ms).holder[m.token] < |Run(ms).ledger|
    ensures Run(ms + [m]) == Record(Run(ms), m)
  {
    hide Record, Sound;
    assert (ms + [m])[..|ms|] == ms;
    RecordStaysSound(Run(ms), m);
  }

  /** No accepted registration creates two pits and no pit has two creators. */
  lemma OnePitPerRegistration(ms: seq<Message>, i: nat, j: nat)
    requires i < |Run(ms).ledger| && j < |Run(ms).ledger|
    requires Run(ms).ledger[i].fate.Founded? && Run(ms).ledger[i].fate == Run(ms).ledger[j].fate
    ensures i == j
  {
    hide Run;
    var h := Run(ms);
    assert h.founder[h.ledger[i].fate.pit] == i;
  }

  /** An in-game message is forwarded to a pit exactly when its name and token are those of
      the registration that pit was created from. */
  lemma ForwardedToFounderOnly(ms: seq<Message>, m: Message)
    requires m.InGame?
    ensures var h := Run(ms);
            && h.state.lastId < UINT_SIZE
            && (Step(h.state, m).1 == Forwarded(m.pitId) <==>
                  exists i :: 0 <= i < |h.ledger| && h.ledger[i].fate == Founded(m.pitId)
                              && h.ledger[i].name == m.userName && h.ledger[i].token == m.token)
  {
    hide Run, Inv, WaitingMatched, JoinersMatched, TeamsMatched, Counted;
    var h := Run(ms);
    LastIdCounts(h.state);
    if m.pitId in h.state.pits {
      assert m.pitId in h.founder;
      var i := h.founder[m.pitId];
      assert h.ledger[i].fate == Founded(m.pitId);
    }
  }

  /** On no run is a pit found missing after a successful check, nor is a team looked up that
      is not there. */
  lemma NeverDangling(ms: seq<Message>, m: Message)
    ensures Run(ms).state.lastId < UINT_SIZE
    ensures Step(Run(ms).state, m).1 != PitVanished && Step(Run(ms).state, m).1 != DanglingBroadcast
  {
    hide Run;
    LastIdCounts(Run(ms).state);
    StepKeepsInv(Run(ms).state, m);
  }

  /** Live pits are exactly 1 .. lastId on every run, each knows its own id, and none has the
      id that stands for an error. */
  lemma PitIdsAreContiguous(ms: seq<Message>, id: nat)
    ensures id in Run(ms).state.pits <==> 1 <= id <= Run(ms).state.lastId
    ensures id in Run(ms).state.pits ==> Run(ms).state.pits[id].arenaId == id != CREATION_ERROR
  {
  }

  lemma RecordState(h: History, m: Message)
    requires Sound(h)
    ensures h.state.lastId < UINT_SIZE
    ensures m.Authenticate? && m.token in h.state.awaiting ==>
              m.token in h.holder && h.holder[m.token] < |h.ledger|
    ensures Record(h, m).state == Step(h.state, m).0
  {
    hide Inv, Step, WaitingMatched, PitsMatched, JoinersMatched, TeamsMatched, Counted;
    LastIdCounts(h.state);
    if m.Authenticate? && m.token in h.state.awaiting {
      WaitingTicket(h, m.token);
    }
  }

  /** The identity with which the player was admitted to the pit last, or its name. */
  ghost function LastIdentity(ms: seq<Message>, pit: nat, name: string): string {
    if ms == [] then name else
    var before, m := ms[..|ms| - 1], ms[|ms| - 1];
    RecordState(Run(before), m);
    if Admits(m, Step(Run(before).state, m).1, pit, name) then m.identity else LastIdentity(before, pit, name)
  }

  /** On every run the identity retrieved for a player in a pit is the one it was admitted with
      last, whoever else has joined. */
  lemma {:induction false} LastIdentityIsRetrieved(ms: seq<Message>, pit: nat, name: string)
    ensures RetrieveIdentifier(Run(ms).state, pit, name) == LastIdentity(ms, pit, name)
    decreases |ms|
  {
    hide Record, Sound, Inv;
    if ms == [] {
      assert Run(ms) == NOTHING_YET;
    } else {
      var before, m := ms[..|ms| - 1], ms[|ms| - 1];
      LastIdentityIsRetrieved(before, pit, name);
      RunStep(before, m);
      assert before + [m] == ms;
      RecordState(Run(before), m);
      SoundParts(Run(before));
      StepIdentity(Run(before).state, m, pit, name);
    }
  }

  /** On every run an authentication is answered otherwise than by a refusal exactly when an
      accepted registration under its name, token and pit is still waiting. */
  lemma AdmittedIffWaiting(ms: seq<Message>, m: Message)
    requires m.Authenticate?
    ensures Run(ms).state.lastId < UINT_SIZE
    ensures Step(Run(ms).state, m).1 != NotAwaited
            <==> exists i :: 0 <= i < |Run(ms).ledger|
                             && Run(ms).ledger[i] == Ticket(m.userName, m.token, m.pitId, Waiting)
  {
    hide Run, Inv, Step, PitsMatched, JoinersMatched, TeamsMatched, Counted;
    var h := Run(ms);
    AuthenticationAnswered(h.state, m);
    if i :| 0 <= i < |h.ledger| && h.ledger[i] == Ticket(m.userName, m.token, m.pitId, Waiting) {
      TicketIsAwaited(h, i);
    }
    if IsPlayerAwaited(h.state, m.userName, m.token, m.pitId) {
      WaitingTicket(h, m.token);
      assert h.ledger[h.holder[m.token]] == Ticket(m.userName, m.token, m.pitId, Waiting);
    }
  }

  lemma TicketIsAwaited(h: History, i: nat)
    requires WaitingMatched(h) && i < |h.ledger| && h.ledger[i].fate == Waiting
    ensures IsPlayerAwaited(h.state, h.ledger[i].name, h.ledger[i].token, h.ledger[i].pitId)
  {
    assert h.ledger[i].token in h.holder.Keys;
  }
}
