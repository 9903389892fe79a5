/**
 The party teams of a pit: a list of teams that numbers its members consecutively, searched
 and folded over team by team as if it were one list.
 */
module AllyTeams {
  import opened Wrappers

  datatype TeamMember = TeamMember(id: nat, name: string, side: nat, speed: nat)

  datatype PartyTeam = PartyTeam(userName: string, members: seq<TeamMember>)

  /** All members in the order of teams and, within a team, of members. */
  ghost function Flat(teams: seq<PartyTeam>): seq<TeamMember> {
    if teams == [] then [] else Flat(teams[..|teams| - 1]) + teams[|teams| - 1].members
  }

  lemma {:induction false} FlatFirst(teams: seq<PartyTeam>)
    requires teams != []
    ensures |teams[0].members| <= |Flat(teams)|
    ensures teams[0].members == Flat(teams)[..|teams[0].members|]
    decreases |teams|
  {
    if |teams| == 1 {
      assert Flat(teams[..0]) == [];
    } else {
      FlatFirst(teams[..|teams| - 1]);
    }
  }

  lemma FlatPrefix(teams: seq<PartyTeam>, i: nat)
    requires i < |teams|
    ensures Flat(teams[..i + 1]) == Flat(teams[..i]) + teams[i].members
  {
    assert teams[..i + 1][..i] == teams[..i];
  }

  // ----- the most suitable element of a list

  /** Comparators say that the second candidate suits better than the first. */
  type Comparator<!T> = (T, T) -> bool

  ghost predicate StrictWeakOrder<T(!new)>(comp: Comparator<T>) {
    && (forall x :: !comp(x, x))
    && (forall x, y, z :: comp(x, y) && comp(y, z) ==> comp(x, z))
    && (forall x, y, z :: comp(x, z) ==> comp(x, y) || comp(y, z))
  }

  /** Position `i` holds the first of the most suitable elements. */
  ghost predicate EarliestBest<T(!new)>(comp: Comparator<T>, s: seq<T>, i: nat) {
    && i < |s|
    && (forall j: nat :: j < |s| ==> !comp(s[i], s[j]))
    && (forall j: nat :: j < i ==> comp(s[j], s[i]))
  }

  /** The running candidate after comparing with every element in turn. */
  function Best<T>(comp: Comparator<T>, start: T, s: seq<T>): T {
    if s == [] then start else
    var best := Best(comp, start, s[..|s| - 1]);
    if comp(best, s[|s| - 1]) then s[|s| - 1] else best
  }

  /** Folding list after list is folding their concatenation. */
  lemma {:induction false} BestOfConcat<T>(comp: Comparator<T>, start: T, s: seq<T>, t: seq<T>)
    ensures Best(comp, start, s + t) == Best(comp, Best(comp, start, s), t)
    decreases |t|
  {
    if t == [] {
      assert s + t == s;
    } else {
      assert (s + t)[..|s + t| - 1] == s + t[..|t| - 1];
      BestOfConcat(comp, start, s, t[..|t| - 1]);
    }
  }

  /** For a strict weak order, folding a list from its own first element finds the earliest
      of its most suitable elements. */
  lemma {:induction false} BestIsEarliest<T(!new)>(comp: Comparator<T>, s: seq<T>) returns (i: nat)
    requires StrictWeakOrder(comp) && s != []
    ensures EarliestBest(comp, s, i) && Best(comp, s[0], s) == s[i]
    decreases |s|
  {
    if |s| == 1 {
      assert Best(comp, s[0], s[..0]) == s[0];
      i := 0;
    } else {
      var t, x := s[..|s| - 1], s[|s| - 1];
      i := BestIsEarliest(comp, t);
      assert s == t + [x];
      NextCandidate(comp, t, i, x);
      i := if comp(t[i], x) then |t| else i;
    }
  }

  /** One more candidate: it takes over exactly when it suits better. */
  lemma NextCandidate<T(!new)>(comp: Comparator<T>, s: seq<T>, i: nat, x: T)
    requires StrictWeakOrder(comp) && EarliestBest(comp, s, i)
    ensures EarliestBest(comp, s + [x], if comp(s[i], x) then |s| else i)
  {
  }

  method FindMostSuitable<T>(s: seq<T>, comp: Comparator<T>, start: T) returns (suitable: T)
    ensures suitable == Best(comp, start, s)
  {
    suitable := start;
    var first := 0;
    while first != |s|
      invariant 0 <= first <= |s| && suitable == Best(comp, start, s[..first])
    {
      assert s[..first + 1][..first] == s[..first];
      if comp(suitable, s[first]) {
        suitable := s[first];
      }
      first := first + 1;
    }
    assert s[..|s|] == s;
  }

  // ----- the teams

  class AllyPartyTeams {
    var partyTeams: seq<PartyTeam>
    var currentTeamMemberId: nat

    /** Members are numbered from 1 in the order of the flat list. */
    ghost predicate Valid()
      reads this
    {
      && currentTeamMemberId == |Flat(partyTeams)|
      && forall i :: 0 <= i < |Flat(partyTeams)| ==> Flat(partyTeams)[i].id == i + 1
    }

    constructor ()
      ensures Valid() && partyTeams == []
    {
      partyTeams, currentTeamMemberId := [], 0;
    }

    /** A team joins: its members get the next numbers, nobody else changes. */
    method AddPartyTeam(team: PartyTeam)
      requires Valid()
      modifies this
      ensures Valid()
      ensures |partyTeams| == old(|partyTeams|) + 1 && old(partyTeams) == partyTeams[..old(|partyTeams|)]
      ensures var added := partyTeams[old(|partyTeams|)];
              && added.userName == team.userName && |added.members| == |team.members|
              && forall i :: 0 <= i < |team.members| ==>
                   added.members[i] == team.members[i].(id := old(currentTeamMemberId) + i + 1)
    {
      var members := team.members;
      for i := 0 to |members|
        invariant |members| == |team.members| && partyTeams == old(partyTeams)
        invariant currentTeamMemberId == old(currentTeamMemberId) + i
        invariant forall j :: 0 <= j < i ==>
                    members[j] == team.members[j].(id := old(currentTeamMemberId) + j + 1)
        invariant forall j :: i <= j < |members| ==> members[j] == team.members[j]
      {
        currentTeamMemberId := currentTeamMemberId + 1;
        members := members[i := members[i].(id := currentTeamMemberId)];
      }
      partyTeams := partyTeams + [PartyTeam(team.userName, members)];
      assert partyTeams[..|partyTeams| - 1] == old(partyTeams);
    }

    predicate NobodyFirst()
      reads this
    {
      partyTeams == [] || partyTeams[0].members == []
    }

    /** The fold over all teams equals the fold over the flat list, whatever the comparator;
        nothing is selected when there is no first team to start from. */
    method SelectSuitableMember(comp: Comparator<TeamMember>) returns (r: Option<TeamMember>)
      ensures partyTeams == [] || partyTeams[0].members == [] ==> r == None
      ensures partyTeams != [] && partyTeams[0].members != [] ==>
                Flat(partyTeams) != [] && r == Some(Best(comp, Flat(partyTeams)[0], Flat(partyTeams)))
    {
      if NobodyFirst() {
        return None;
      }
      var suitable := partyTeams[0].members[0];
      FlatFirst(partyTeams);
      assert partyTeams[..0] == [];
      for t := 0 to |partyTeams|
        invariant suitable == Best(comp, Flat(partyTeams)[0], Flat(partyTeams[..t]))
      {
        FlatPrefix(partyTeams, t);
        BestOfConcat(comp, Flat(partyTeams)[0], Flat(partyTeams[..t]), partyTeams[t].members);
        suitable := FindMostSuitable(partyTeams[t].members, comp, suitable);
      }
      assert partyTeams[..|partyTeams|] == partyTeams;
      return Some(suitable);
    }

    /** Member number `i` is the i-th of the flat list. */
    method SelectMemberById(idMember: nat) returns (r: Option<TeamMember>)
      requires Valid()
      ensures r.Some? <==>
                partyTeams != [] && partyTeams[0].members != [] && 1 <= idMember <= currentTeamMemberId
      ensures r.Some? ==> r.value == Flat(partyTeams)[idMember - 1]
    {
      if NobodyFirst() {
        return None;
      }
      assert partyTeams[..0] == [];
      for t := 0 to |partyTeams|
        invariant Missing(Flat(partyTeams[..t]), idMember)
      {
        FlatPrefix(partyTeams, t);
        FlatPart(partyTeams, t + 1);
        var members := partyTeams[t].members;
        var at := FindMember(members, idMember);
        if at < |members| {
          assert Flat(partyTeams)[|Flat(partyTeams[..t])| + at] == members[at];
          return Some(members[at]);
        }
        MissingConcat(Flat(partyTeams[..t]), members, idMember);
      }
      assert partyTeams[..|partyTeams|] == partyTeams;
      MissingNumber(Flat(partyTeams), idMember);
      return None;
    }

    function AllyNumberOnSide(side: nat): nat
      reads this
    {
      CountTeams(partyTeams, side)
    }

    /** The members on a side in the order of the flat list. */
    method GetMembersBySide(side: nat) returns (ret: seq<TeamMember>)
      ensures ret == if partyTeams == [] || partyTeams[0].members == [] then [] else OnSide(Flat(partyTeams), side)
    {
      ret := [];
      if NobodyFirst() {
        return;
      }
      assert partyTeams[..0] == [];
      for t := 0 to |partyTeams|
        invariant ret == OnSide(Flat(partyTeams[..t]), side)
      {
        FlatPrefix(partyTeams, t);
        OnSideConcat(Flat(partyTeams[..t]), partyTeams[t].members, side);
        ret := ret + OnSide(partyTeams[t].members, side);
      }
      assert partyTeams[..|partyTeams|] == partyTeams;
    }
  }

  // ----- searching and counting

  function FindMember(members: seq<TeamMember>, idMember: nat): (r: nat)
    ensures r <= |members|
    ensures r < |members| ==> members[r].id == idMember
    ensures forall i :: 0 <= i < r ==> members[i].id != idMember
  {
    FirstMatch(members, (m: TeamMember) => m.id == idMember)
  }

  ghost predicate Missing(members: seq<TeamMember>, idMember: nat) {
    forall i :: 0 <= i < |members| ==> members[i].id != idMember
  }

  lemma MissingConcat(s: seq<TeamMember>, t: seq<TeamMember>, idMember: nat)
    requires Missing(s, idMember) && Missing(t, idMember)
    ensures Missing(s + t, idMember)
  {
  }

  lemma NumberedMember(members: seq<TeamMember>, idMember: nat)
    requires forall i :: 0 <= i < |members| ==> members[i].id == i + 1
    ensures 1 <= idMember <= |members| ==> members[idMember - 1].id == idMember
  {
  }

  lemma MissingNumber(members: seq<TeamMember>, idMember: nat)
    requires forall i :: 0 <= i < |members| ==> members[i].id == i + 1
    requires Missing(members, idMember)
    ensures idMember < 1 || |members| < idMember
  {
    NumberedMember(members, idMember);
  }

  /** The members on that side, in their order. */
  function OnSide(members: seq<TeamMember>, side: nat): (t: seq<TeamMember>)
    ensures forall m :: m in t <==> m in members && m.side == side
  {
    Filtered(members, (m: TeamMember) => m.side == side)
  }

  lemma OnSideKeepsOrder(members: seq<TeamMember>, side: nat) returns (at: seq<nat>)
    ensures KeptAt(members, (m: TeamMember) => m.side == side, OnSide(members, side), at)
  {
    at := FilteredKeepsPositions(members, (m: TeamMember) => m.side == side);
  }

  function CountOnSide(members: seq<TeamMember>, side: nat): nat {
    if members == [] then 0
    else (if members[0].side == side then 1 else 0) + CountOnSide(members[1..], side)
  }

  function CountTeams(teams: seq<PartyTeam>, side: nat): nat {
    if teams == [] then 0
    else CountTeams(teams[..|teams| - 1], side) + CountOnSide(teams[|teams| - 1].members, side)
  }

  lemma Associative<T>(s: seq<T>, t: seq<T>, u: seq<T>)
    ensures s + (t + u) == (s + t) + u
  {
  }

  lemma {:induction false} OnSideConcat(s: seq<TeamMember>, t: seq<TeamMember>, side: nat)
    ensures OnSide(s + t, side) == OnSide(s, side) + OnSide(t, side)
    decreases |s|
  {
    if s == [] {
      assert s + t == t;
    } else {
      var first := if s[0].side == side then [s[0]] else [];
      assert (s + t)[0] == s[0] && (s + t)[1..] == s[1..] + t;
      OnSideConcat(s[1..], t, side);
      Associative(first, OnSide(s[1..], side), OnSide(t, side));
    }
  }

  lemma {:induction false} CountIsLength(members: seq<TeamMember>, side: nat)
    ensures CountOnSide(members, side) == |OnSide(members, side)|
    decreases |members|
  {
    if members != [] {
      CountIsLength(members[1..], side);
    }
  }

  lemma {:induction false} FlatPart(teams: seq<PartyTeam>, n: nat)
    requires n <= |teams|
    ensures |Flat(teams[..n])| <= |Flat(teams)|
    ensures Flat(teams[..n]) == Flat(teams)[..|Flat(teams[..n])|]
    decreases |teams| - n
  {
    if n == |teams| {
      assert teams[..n] == teams;
    } else {
      FlatPart(teams, n + 1);
      FlatPrefix(teams, n);
    }
  }

  /** The count over teams is the number of members of the flat list on that side. */
  lemma {:induction false} CountTeamsIsFlat(teams: seq<PartyTeam>, side: nat)
    ensures CountTeams(teams, side) == |OnSide(Flat(teams), side)|
    decreases |teams|
  {
    if teams != [] {
      var before, last := teams[..|teams| - 1], teams[|teams| - 1].members;
      CountTeamsIsFlat(before, side);
      OnSideConcat(Flat(before), last, side);
      CountIsLength(last, side);
    }
  }

  /** The number reported for a side is the length of the list reported for it exactly when
      the first team has members or nobody at all is on that side. */
  lemma CountMatchesList(list: AllyPartyTeams, side: nat)
    ensures var teams := list.partyTeams;
            var empty := teams == [] || teams[0].members == [];
            var reported := if empty then [] else OnSide(Flat(teams), side);
            list.AllyNumberOnSide(side) == |reported| <==> !empty || OnSide(Flat(teams), side) == []
  {
    CountTeamsIsFlat(list.partyTeams, side);
  }
}
