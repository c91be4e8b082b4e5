/** Which maintenance teams qualify for a request: every cover of minimum size. */
module Teams {
  import opened Collections
  import opened Plant
  import Slots

  /** `itertools.combinations`: the sublists of `xs` with `size` members, in list order. */
  function Combinations<T>(xs: seq<T>, size: nat): seq<seq<T>> {
    if size == 0 then [[]]
    else if xs == [] then []
    else WithHead(xs[0], Combinations(xs[1..], size - 1)) + Combinations(xs[1..], size)
  }

  function WithHead<T>(x: T, groups: seq<seq<T>>): (r: seq<seq<T>>)
    ensures |r| == |groups| && forall i :: 0 <= i < |r| ==> r[i] == [x] + groups[i]
  {
    seq(|groups|, i requires 0 <= i < |groups| => [x] + groups[i])
  }

  lemma WithHeadMember<T>(x: T, groups: seq<seq<T>>, group: seq<T>)
    ensures group in WithHead(x, groups) <==> group != [] && group[0] == x && group[1..] in groups
  {
    var headed := WithHead(x, groups);
    if group in headed {
      var i :| 0 <= i < |headed| && headed[i] == group;
      assert group[1..] == groups[i];
    }
    if group != [] && group[0] == x && group[1..] in groups {
      var i :| 0 <= i < |groups| && groups[i] == group[1..];
      assert headed[i] == group;
    }
  }

  lemma CombinationsMember<T>(xs: seq<T>, size: nat, group: seq<T>)
    requires size > 0 && xs != []
    ensures group in Combinations(xs, size) <==>
              || (group != [] && group[0] == xs[0] && group[1..] in Combinations(xs[1..], size - 1))
              || group in Combinations(xs[1..], size)
  {
    WithHeadMember(xs[0], Combinations(xs[1..], size - 1), group);
  }

  lemma {:induction false} CombinationsAreSublists<T>(xs: seq<T>, size: nat, group: seq<T>)
    requires Distinct(xs) && group in Combinations(xs, size)
    ensures |group| == size && Subsequence(group, xs)
  {
    if size > 0 && xs != [] {
      CombinationsMember(xs, size, group);
      hide Combinations, Subsequence, Distinct;
      TailStaysDistinct(xs);
      if group in Combinations(xs[1..], size) {
        CombinationsAreSublists(xs[1..], size, group);
        SubsequenceOfTail(group, xs);
      } else {
        CombinationsAreSublists(xs[1..], size - 1, group[1..]);
        SubsequenceWithHead(group, xs);
      }
    }
  }

  lemma ChosenFromTail<T>(xs: seq<T>, chosen: set<T>) returns (others: set<T>)
    requires chosen <= Elements(xs) && chosen != {}
    ensures xs != [] && others == chosen - {xs[0]} && others <= Elements(xs[1..])
  {
    var x :| x in chosen;
    assert x in xs;
    others := chosen - {xs[0]};
    forall y | y in others ensures y in Elements(xs[1..]) {
      assert y in xs && xs == [xs[0]] + xs[1..];
    }
  }

  lemma ElementsWithHead<T>(x: T, rest: seq<T>)
    ensures Elements([x] + rest) == {x} + Elements(rest)
  {
  }

  /** Every subset of the list's members is listed by the combinations of its size. */
  lemma {:induction false} CombinationsAreComplete<T>(xs: seq<T>, chosen: set<T>, size: nat)
    returns (group: seq<T>)
    requires chosen <= Elements(xs) && |chosen| == size
    ensures group in Combinations(xs, size) && Elements(group) == chosen
  {
    if chosen == {} {
      return [];
    }
    var others := ChosenFromTail(xs, chosen);
    if xs[0] in chosen {
      var rest := CombinationsAreComplete(xs[1..], others, size - 1);
      group := [xs[0]] + rest;
      assert group[1..] == rest;
      ElementsWithHead(xs[0], rest);
    } else {
      assert others == chosen;
      group := CombinationsAreComplete(xs[1..], others, size);
    }
    CombinationsMember(xs, size, group);
  }

  ghost function OnDutyTechnicians(s: Snapshot): set<Technician> {
    set t | t in s.technicians && OnDuty(t)
  }

  /** Every skill the request needs is mastered by some member of the crew. */
  ghost predicate Covers(crew: set<Technician>, r: Request, family: Id) {
    forall skillId :: skillId in r.requiredSkills ==> exists t :: t in crew && Masters(t, skillId, r, family)
  }

  ghost predicate CoveringCrew(s: Snapshot, r: Request, family: Id, crew: set<Technician>) {
    crew <= OnDutyTechnicians(s) && Covers(crew, r, family)
  }

  predicate Relevant(t: Technician, r: Request, family: Id) {
    OnDuty(t) && exists skillId :: skillId in r.requiredSkills && Masters(t, skillId, r, family)
  }

  function Candidates(technicians: seq<Technician>, r: Request, family: Id): (c: seq<Technician>)
    ensures forall t :: t in c <==> t in technicians && Relevant(t, r, family)
  {
    if technicians == [] then []
    else
      assert technicians == [technicians[0]] + technicians[1..];
      (if Relevant(technicians[0], r, family) then [technicians[0]] else [])
      + Candidates(technicians[1..], r, family)
  }

  ghost predicate DistinctPeople(technicians: seq<Technician>) {
    forall i, j :: 0 <= i < j < |technicians| ==> technicians[i].id != technicians[j].id
  }

  lemma {:induction false} CandidatesStayDistinct(technicians: seq<Technician>, r: Request, family: Id)
    requires DistinctPeople(technicians)
    ensures DistinctPeople(Candidates(technicians, r, family)) && Distinct(Candidates(technicians, r, family))
    ensures Subsequence(Candidates(technicians, r, family), technicians)
  {
    if technicians != [] {
      CandidatesStayDistinct(technicians[1..], r, family);
      var rest := Candidates(technicians[1..], r, family);
      forall t | t in rest ensures t.id != technicians[0].id {
        assert t in technicians[1..];
      }
      if Relevant(technicians[0], r, family) {
        assert DistinctPeople([technicians[0]] + rest);
      } else {
        assert [] + rest == rest;
      }
    }
  }

  function IdsOf(group: seq<Technician>): (r: seq<Id>)
    ensures |r| == |group| && forall i :: 0 <= i < |r| ==> r[i] == group[i].id
  {
    seq(|group|, i requires 0 <= i < |group| => group[i].id)
  }

  /** Members that keep the order of the list give identifiers that do. */
  lemma {:induction false} IdsKeepOrder(group: seq<Technician>, technicians: seq<Technician>)
    requires Subsequence(group, technicians) && DistinctPeople(technicians)
    ensures Subsequence(IdsOf(group), IdsOf(technicians))
  {
    if group != [] {
      assert IdsOf(technicians)[1..] == IdsOf(technicians[1..]) && IdsOf(group)[1..] == IdsOf(group[1..]);
      SubsequenceOfDistinct(group, technicians);
      assert group[0] in technicians;
      if group[0] == technicians[0] {
        IdsKeepOrder(group[1..], technicians[1..]);
      } else {
        IdsKeepOrder(group, technicians[1..]);
      }
    }
  }

  /** The technicians a list of identifiers names. */
  ghost function Crew(s: Snapshot, team: seq<Id>): set<Technician> {
    set t | t in s.technicians && t.id in team
  }

  lemma CrewOfGroup(s: Snapshot, group: seq<Technician>)
    requires DistinctPeople(s.technicians) && Elements(group) <= Elements(s.technicians)
    ensures Crew(s, IdsOf(group)) == Elements(group)
  {
    forall t ensures t in Crew(s, IdsOf(group)) <==> t in Elements(group) {
      if t in Elements(group) {
        var i :| 0 <= i < |group| && group[i] == t;
        assert IdsOf(group)[i] == t.id;
        assert t in Elements(s.technicians);
      }
      if t in Crew(s, IdsOf(group)) {
        var i :| 0 <= i < |group| && IdsOf(group)[i] == t.id;
        assert group[i] in Elements(group);
        assert group[i] in s.technicians && t in s.technicians;
      }
    }
  }

  ghost predicate Named(s: Snapshot, team: seq<Id>) {
    forall id :: id in team ==> exists t :: t in s.technicians && t.id == id
  }

  /** `team` names, in list order, a crew of on-duty technicians that covers `r`, and none smaller does. */
  ghost predicate MinimalTeam(s: Snapshot, r: Request, family: Id, team: seq<Id>) {
    && team != [] && Distinct(team)
    && Named(s, team) && Subsequence(team, IdsOf(s.technicians))
    && CoveringCrew(s, r, family, Crew(s, team))
    && forall crew :: CoveringCrew(s, r, family, crew) ==> |team| <= |crew|
  }

  ghost predicate HasTeam(s: Snapshot, teams: seq<seq<Id>>, crew: set<Technician>) {
    exists team :: team in teams && Crew(s, team) == crew
  }

  lemma MasterIsRelevant(s: Snapshot, r: Request, family: Id, crew: set<Technician>, skillId: Id)
    returns (t: Technician)
    requires CoveringCrew(s, r, family, crew) && skillId in r.requiredSkills
    ensures t in crew && Masters(t, skillId, r, family) && Relevant(t, r, family)
  {
    t :| t in crew && Masters(t, skillId, r, family);
    assert t in OnDutyTechnicians(s);
  }

  ghost function RelevantPart(crew: set<Technician>, r: Request, family: Id): set<Technician> {
    set t | t in crew && Relevant(t, r, family)
  }

  lemma RelevantPartIsKnown(s: Snapshot, r: Request, family: Id, crew: set<Technician>)
    requires crew <= OnDutyTechnicians(s)
    ensures RelevantPart(crew, r, family) <= Elements(Candidates(s.technicians, r, family))
  {
    forall t | t in RelevantPart(crew, r, family) ensures t in Candidates(s.technicians, r, family) {
      assert t in OnDutyTechnicians(s);
    }
  }

  /** A covering crew still covers when restricted to relevant technicians. */
  lemma RelevantPartCovers(s: Snapshot, r: Request, family: Id, crew: set<Technician>)
    requires CoveringCrew(s, r, family, crew) && r.requiredSkills != []
    ensures RelevantPart(crew, r, family) != {} && Covers(RelevantPart(crew, r, family), r, family)
  {
    forall skillId | skillId in r.requiredSkills
      ensures exists t :: t in RelevantPart(crew, r, family) && Masters(t, skillId, r, family)
    {
      var t := MasterIsRelevant(s, r, family, crew, skillId);
      assert t in RelevantPart(crew, r, family);
    }
    var t := MasterIsRelevant(s, r, family, crew, r.requiredSkills[0]);
    assert t in RelevantPart(crew, r, family);
  }

  lemma CoveringSubcrew(s: Snapshot, r: Request, family: Id, crew: set<Technician>) returns (part: set<Technician>)
    requires CoveringCrew(s, r, family, crew) && r.requiredSkills != []
    ensures part <= crew && part != {} && Covers(part, r, family)
    ensures part <= Elements(Candidates(s.technicians, r, family))
  {
    part := RelevantPart(crew, r, family);
    RelevantPartCovers(s, r, family, crew);
    RelevantPartIsKnown(s, r, family, crew);
  }

  lemma SmallerSubset<T>(small: set<T>, large: set<T>)
    requires small <= large
    ensures |small| <= |large| && (|small| == |large| ==> small == large)
  {
    assert large == small + (large - small);
    if |small| == |large| {
      assert |large - small| == 0;
    }
  }

  /** Does this group cover the request? The code unions the qualifying skills of its members. */
  function CoveredSkills(group: seq<Technician>, r: Request, family: Id): (covered: set<Id>)
    ensures forall k :: k in covered <==> exists t :: t in group && Masters(t, k, r, family)
  {
    set t, skill | t in group && skill in t.skills && Qualifies(skill, r, family) :: skill.skillId
  }

  lemma CoveredMeansCovers(group: seq<Technician>, r: Request, family: Id)
    ensures Elements(r.requiredSkills) <= CoveredSkills(group, r, family) <==> Covers(Elements(group), r, family)
  {
    var required, covered := Elements(r.requiredSkills), CoveredSkills(group, r, family);
    if required <= covered {
      forall k | k in r.requiredSkills ensures exists t :: t in Elements(group) && Masters(t, k, r, family) {
        assert k in required && k in covered;
        var t :| t in group && Masters(t, k, r, family);
        assert t in Elements(group);
      }
    }
    if Covers(Elements(group), r, family) {
      forall k | k in required ensures k in covered {
        var t :| t in Elements(group) && Masters(t, k, r, family);
      }
    }
  }

  /** The teams of the covering groups, in order. */
  function CoveringTeams(groups: seq<seq<Technician>>, r: Request, family: Id): (teams: seq<seq<Id>>) {
    if groups == [] then []
    else
      var last := |groups| - 1;
      CoveringTeams(groups[..last], r, family)
      + if Elements(r.requiredSkills) <= CoveredSkills(groups[last], r, family) then [IdsOf(groups[last])] else []
  }

  lemma {:induction false} CoveringTeamsAreCovering(groups: seq<seq<Technician>>, r: Request, family: Id, team: seq<Id>)
    returns (group: seq<Technician>)
    requires team in CoveringTeams(groups, r, family)
    ensures group in groups && team == IdsOf(group) && Covers(Elements(group), r, family)
  {
    var last := |groups| - 1;
    if team in CoveringTeams(groups[..last], r, family) {
      group := CoveringTeamsAreCovering(groups[..last], r, family, team);
    } else {
      group := groups[last];
      CoveredMeansCovers(group, r, family);
    }
  }

  lemma {:induction false} CoveringGroupsAreListed(
    groups: seq<seq<Technician>>, r: Request, family: Id, group: seq<Technician>)
    requires group in groups && Covers(Elements(group), r, family)
    ensures IdsOf(group) in CoveringTeams(groups, r, family)
  {
    var last := |groups| - 1;
    if group == groups[last] {
      CoveredMeansCovers(group, r, family);
    } else {
      assert group in groups[..last];
      CoveringGroupsAreListed(groups[..last], r, family, group);
    }
  }

  /** No covering crew of relevant technicians has fewer than `size` members. */
  ghost predicate NoneSmaller(candidates: seq<Technician>, r: Request, family: Id, size: nat) {
    forall crew: set<Technician> ::
      crew <= Elements(candidates) && crew != {} && Covers(crew, r, family) ==> size <= |crew|
  }

  /** `teams` lists every covering crew of `size` members. */
  ghost predicate ListsAll(s: Snapshot, r: Request, family: Id, teams: seq<seq<Id>>, size: nat) {
    forall crew :: CoveringCrew(s, r, family, crew) && |crew| == size ==> HasTeam(s, teams, crew)
  }

  lemma RelevantCrewIsListed(s: Snapshot, r: Request, family: Id, size: nat, crew: set<Technician>)
    requires DistinctPeople(s.technicians) && |crew| == size
    requires crew <= Elements(Candidates(s.technicians, r, family)) && Covers(crew, r, family)
    ensures HasTeam(s, CoveringTeams(Combinations(Candidates(s.technicians, r, family), size), r, family), crew)
  {
    var candidates := Candidates(s.technicians, r, family);
    CandidatesStayDistinct(s.technicians, r, family);
    var group := CombinationsAreComplete(candidates, crew, size);
    CoveringGroupsAreListed(Combinations(candidates, size), r, family, group);
    forall t | t in Elements(group) ensures t in Elements(s.technicians) {
      assert t in crew && t in candidates;
    }
    CrewOfGroup(s, group);
  }

  lemma CrewIsLargeEnough(s: Snapshot, r: Request, family: Id, size: nat, crew: set<Technician>)
    returns (part: set<Technician>)
    requires r.requiredSkills != []
    requires NoneSmaller(Candidates(s.technicians, r, family), r, family, size)
    requires CoveringCrew(s, r, family, crew)
    ensures size <= |part| <= |crew| && (|crew| == size ==> part == crew)
    ensures part <= Elements(Candidates(s.technicians, r, family))
  {
    part := CoveringSubcrew(s, r, family, crew);
    SmallerSubset(part, crew);
  }

  lemma CrewIsListed(s: Snapshot, r: Request, family: Id, size: nat, crew: set<Technician>)
    requires DistinctPeople(s.technicians) && r.requiredSkills != []
    requires NoneSmaller(Candidates(s.technicians, r, family), r, family, size)
    requires CoveringCrew(s, r, family, crew) && |crew| == size
    ensures HasTeam(s, CoveringTeams(Combinations(Candidates(s.technicians, r, family), size), r, family), crew)
  {
    var part := CrewIsLargeEnough(s, r, family, size, crew);
    RelevantCrewIsListed(s, r, family, size, crew);
  }

  lemma NoSmallerCrew(s: Snapshot, r: Request, family: Id, size: nat)
    requires r.requiredSkills != []
    requires NoneSmaller(Candidates(s.technicians, r, family), r, family, size)
    ensures forall crew :: CoveringCrew(s, r, family, crew) ==> size <= |crew|
  {
    forall crew | CoveringCrew(s, r, family, crew) ensures size <= |crew| {
      var part := CrewIsLargeEnough(s, r, family, size, crew);
    }
  }

  lemma TeamIsMinimal(s: Snapshot, r: Request, family: Id, size: nat, team: seq<Id>)
    requires DistinctPeople(s.technicians) && r.requiredSkills != [] && size >= 1
    requires NoneSmaller(Candidates(s.technicians, r, family), r, family, size)
    requires team in CoveringTeams(Combinations(Candidates(s.technicians, r, family), size), r, family)
    ensures |team| == size && MinimalTeam(s, r, family, team)
  {
    NoSmallerCrew(s, r, family, size);
    TeamCovers(s, r, family, size, team);
  }

  lemma TeamCovers(s: Snapshot, r: Request, family: Id, size: nat, team: seq<Id>)
    requires DistinctPeople(s.technicians)
    requires team in CoveringTeams(Combinations(Candidates(s.technicians, r, family), size), r, family)
    ensures |team| == size && Distinct(team) && Named(s, team) && CoveringCrew(s, r, family, Crew(s, team))
    ensures Subsequence(team, IdsOf(s.technicians))
  {
    var candidates := Candidates(s.technicians, r, family);
    CandidatesStayDistinct(s.technicians, r, family);
    var group := CoveringTeamsAreCovering(Combinations(candidates, size), r, family, team);
    CombinationsAreSublists(candidates, size, group);
    SubsequenceOfDistinct(group, candidates);
    SubsequenceIsTransitive(group, candidates, s.technicians);
    IdsKeepOrder(group, s.technicians);
    GroupNamesTeam(s, r, family, group);
    CrewOfGroup(s, group);
  }

  lemma AllMinimal(s: Snapshot, r: Request, family: Id, size: nat)
    requires DistinctPeople(s.technicians) && r.requiredSkills != [] && size >= 1
    requires NoneSmaller(Candidates(s.technicians, r, family), r, family, size)
    ensures var teams := CoveringTeams(Combinations(Candidates(s.technicians, r, family), size), r, family);
            && (forall team :: team in teams ==> |team| == size && MinimalTeam(s, r, family, team))
            && ListsAll(s, r, family, teams, size)
  {
    var teams := CoveringTeams(Combinations(Candidates(s.technicians, r, family), size), r, family);
    forall team | team in teams ensures |team| == size && MinimalTeam(s, r, family, team) {
      TeamIsMinimal(s, r, family, size, team);
    }
    forall crew | CoveringCrew(s, r, family, crew) && |crew| == size ensures HasTeam(s, teams, crew) {
      CrewIsListed(s, r, family, size, crew);
    }
  }

  lemma GroupNamesTeam(s: Snapshot, r: Request, family: Id, group: seq<Technician>)
    requires DistinctPeople(s.technicians) && Distinct(group)
    requires forall t :: t in group ==> t in Candidates(s.technicians, r, family)
    ensures Distinct(IdsOf(group)) && Elements(group) <= OnDutyTechnicians(s)
    ensures Named(s, IdsOf(group))
  {
    assert forall i :: 0 <= i < |group| ==> group[i] in group;
    forall i, j | 0 <= i < j < |group| ensures group[i].id != group[j].id {
      assert group[i] in s.technicians && group[j] in s.technicians;
    }
    forall id | id in IdsOf(group) ensures exists t :: t in s.technicians && t.id == id {
      var i :| 0 <= i < |group| && IdsOf(group)[i] == id;
      assert group[i] in s.technicians;
    }
  }

  /** When no crew of `size` relevant technicians covers, every covering crew is larger. */
  lemma NoneOfThisSize(candidates: seq<Technician>, r: Request, family: Id, size: nat)
    requires Distinct(candidates) && NoneSmaller(candidates, r, family, size)
    requires CoveringTeams(Combinations(candidates, size), r, family) == []
    ensures NoneSmaller(candidates, r, family, size + 1)
  {
    forall crew: set<Technician> | crew <= Elements(candidates) && crew != {} && Covers(crew, r, family)
      ensures size + 1 <= |crew|
    {
      if |crew| == size {
        var group := CombinationsAreComplete(candidates, crew, size);
        CoveringGroupsAreListed(Combinations(candidates, size), r, family, group);
      }
    }
  }

  lemma NoCrew(s: Snapshot, r: Request, family: Id, size: nat)
    requires r.requiredSkills != [] && |Candidates(s.technicians, r, family)| < size
    requires NoneSmaller(Candidates(s.technicians, r, family), r, family, size)
    ensures forall crew :: !CoveringCrew(s, r, family, crew)
  {
    forall crew ensures !CoveringCrew(s, r, family, crew) {
      if CoveringCrew(s, r, family, crew) {
        var candidates := Candidates(s.technicians, r, family);
        var part := CoveringSubcrew(s, r, family, crew);
        SmallerSubset(part, Elements(candidates));
        ElementsCount(candidates);
        assert false;
      }
    }
  }

  lemma {:induction false} ElementsCount<T>(xs: seq<T>)
    ensures |Elements(xs)| <= |xs|
  {
    if xs != [] {
      ElementsCount(xs[1..]);
      assert xs == [xs[0]] + xs[1..];
      assert Elements(xs) == {xs[0]} + Elements(xs[1..]);
    }
  }

  method TeamsOfGroups(groups: seq<seq<Technician>>, r: Request, family: Id)
    returns (expired: bool, teams: seq<seq<Id>>)
    ensures !expired ==> teams == CoveringTeams(groups, r, family)
  {
    teams := [];
    var i := 0;
    while i < |groups|
      invariant 0 <= i <= |groups|
      invariant teams == CoveringTeams(groups[..i], r, family)
    {
      expired := Slots.CheckDeadline();
      if expired {
        return true, [];
      }
      assert groups[..i + 1][..i] == groups[..i];
      if Elements(r.requiredSkills) <= CoveredSkills(groups[i], r, family) {
        teams := teams + [IdsOf(groups[i])];
      }
      i := i + 1;
    }
    assert groups[..i] == groups;
    expired := false;
  }

  /** What `teams` says when the search ends: emptiness, and exactly the minimal teams. */
  ghost predicate AllMinimalTeams(s: Snapshot, r: Request, family: Id, teams: seq<seq<Id>>) {
    && (teams == [] <==> forall crew :: !CoveringCrew(s, r, family, crew))
    && (forall team :: team in teams <==> MinimalTeam(s, r, family, team))
  }

  lemma {:induction false} CrewIsNoLarger(s: Snapshot, team: seq<Id>)
    requires DistinctPeople(s.technicians)
    ensures |Crew(s, team)| <= |team|
  {
    if team == [] {
      assert Crew(s, team) == {};
    } else {
      CrewIsNoLarger(s, team[1..]);
      assert team == [team[0]] + team[1..];
      if t :| t in s.technicians && t.id == team[0] {
        assert Crew(s, team) == Crew(s, team[1..]) + {t};
      } else {
        assert Crew(s, team) == Crew(s, team[1..]);
      }
    }
  }

  lemma SameCrewSameTeam(s: Snapshot, team: seq<Id>, other: seq<Id>)
    requires DistinctPeople(s.technicians) && Crew(s, team) == Crew(s, other)
    requires Named(s, team) && Named(s, other)
    requires Subsequence(team, IdsOf(s.technicians)) && Subsequence(other, IdsOf(s.technicians))
    ensures team == other
  {
    forall id ensures id in team <==> id in other {
      if id in team {
        var t :| t in s.technicians && t.id == id;
        assert t in Crew(s, team);
      }
      if id in other {
        var t :| t in s.technicians && t.id == id;
        assert t in Crew(s, other);
      }
    }
    SubsequenceIsUnique(team, other, IdsOf(s.technicians));
  }

  /** A minimal team is one of the listed ones, since its crew is. */
  lemma MinimalTeamIsListed(s: Snapshot, r: Request, family: Id, size: nat, teams: seq<seq<Id>>, team: seq<Id>)
    requires DistinctPeople(s.technicians) && teams != [] && ListsAll(s, r, family, teams, size)
    requires forall team :: team in teams ==> |team| == size && MinimalTeam(s, r, family, team)
    requires forall crew :: CoveringCrew(s, r, family, crew) ==> size <= |crew|
    requires MinimalTeam(s, r, family, team)
    ensures team in teams
  {
    assert teams[0] in teams;
    CrewIsNoLarger(s, teams[0]);
    CrewIsNoLarger(s, team);
    assert |Crew(s, team)| == size;
    var other :| other in teams && Crew(s, other) == Crew(s, team);
    SameCrewSameTeam(s, team, other);
  }

  lemma FoundTeams(s: Snapshot, r: Request, family: Id, size: nat, teams: seq<seq<Id>>)
    requires DistinctPeople(s.technicians) && r.requiredSkills != [] && size >= 1 && teams != []
    requires NoneSmaller(Candidates(s.technicians, r, family), r, family, size)
    requires teams == CoveringTeams(Combinations(Candidates(s.technicians, r, family), size), r, family)
    ensures AllMinimalTeams(s, r, family, teams)
  {
    AllMinimal(s, r, family, size);
    NoSmallerCrew(s, r, family, size);
    assert teams[0] in teams && CoveringCrew(s, r, family, Crew(s, teams[0]));
    forall team | MinimalTeam(s, r, family, team) ensures team in teams {
      MinimalTeamIsListed(s, r, family, size, teams, team);
    }
  }

  /**
   All covers of minimum size: the result is empty exactly when no on-duty crew covers, and
   it lists exactly the minimal teams, each in the order of the snapshot.
   */
  method QualifiedTeams(s: Snapshot, r: Request, family: Id) returns (expired: bool, teams: seq<seq<Id>>)
    requires DistinctPeople(s.technicians) && r.requiredSkills != []
    ensures !expired ==> AllMinimalTeams(s, r, family, teams)
  {
    var candidates := Candidates(s.technicians, r, family);
    CandidatesStayDistinct(s.technicians, r, family);
    var size := 1;
    while size < |candidates| + 1
      invariant 1 <= size
      invariant NoneSmaller(candidates, r, family, size)
    {
      expired, teams := TeamsOfGroups(Combinations(candidates, size), r, family);
      if expired {
        return true, [];
      }
      if teams != [] {
        FoundTeams(s, r, family, size, teams);
        return false, teams;
      }
      NoneOfThisSize(candidates, r, family, size);
      size := size + 1;
    }
    NoCrew(s, r, family, size);
    expired, teams := false, [];
  }
}
