/** The engine event protocol: a streaming recogniser and the grammar it accepts. */
module EventProtocol {
  import opened Collections

  type EpisodeId = int

  datatype Machine = Machine(generation: int, age: int)
  datatype Action = Replace | Continue
  datatype Fate = Continued | Replaced | WaitingForSpare | Failed
  datatype Outcome = Outcome(action: Action, fate: Fate, before: int, after: Option<int>, cost: int)

  /** Payload fields the protocol reads, and the counters the summary accounts for. */
  datatype Event =
    | FleetObservation(observation: int, episode: EpisodeId, step: int, machines: seq<Machine>, spares: int)
    | PolicyRecommendation(observation: int, policy: int, version: int, actionsFor: int, actions: seq<Action>)
    | StepResult(
        observation: int, episode: EpisodeId, step: int, outcomes: seq<Outcome>, spares: int, cost: int,
        terminated: bool)
    | EpisodeSummary(
        episode: EpisodeId, policy: int, seed: int, steps: int, cost: int, failures: int, replacements: int,
        waiting: int)

  datatype Request = Request(episode: EpisodeId, policy: int, version: int, seed: int, attempt: int)

  /** The recogniser's closure variables. */
  datatype State = State(step: int, pending: seq<Event>, summary: Option<Event>, terminated: bool)

  const START: State := State(0, [], None, false)

  function Expected(e: Event, position: int): bool {
    match position
    case 0 => e.FleetObservation?
    case 1 => e.PolicyRecommendation?
    case _ => e.StepResult?
  }

  /** One event: the next state, or refusal. */
  function Accept(s: State, e: Event, id: EpisodeId, request: Option<Request>): Option<State> {
    if s.summary.Some? then None
    else if e.EpisodeSummary? then
      if s.pending != [] || s.step == 0 || e.steps != s.step || e.episode != id then None
      else if request.Some? && (e.policy != request.value.policy || e.seed != request.value.seed) then None
      else Some(s.(summary := Some(e)))
    else if s.terminated || !Expected(e, |s.pending|) then None
    else if !e.PolicyRecommendation? && (e.step != s.step || e.episode != id) then None
    else if s.pending != []
            && ((s.pending[0].FleetObservation? && e.observation != s.pending[0].observation)
                || (e.PolicyRecommendation? && e.actionsFor != e.observation))
      then None
    else if e.PolicyRecommendation? && request.Some?
            && (e.policy != request.value.policy || e.version != request.value.version)
      then None
    else if |s.pending| + 1 != 3 then Some(s.(pending := s.pending + [e]))
    else Some(State(s.step + 1, [], None, e.StepResult? && e.terminated))
  }

  function AcceptAll(s: State, events: seq<Event>, id: EpisodeId, request: Option<Request>): Option<State>
    decreases |events|
  {
    if events == [] then Some(s)
    else
      var next := Accept(s, events[0], id, request);
      if next.None? then None else AcceptAll(next.value, events[1..], id, request)
  }

  /** Accepted to the end, with the one summary. */
  predicate Recognised(events: seq<Event>, id: EpisodeId, request: Option<Request>) {
    var end := AcceptAll(START, events, id, request);
    end.Some? && end.value.summary.Some?
  }

  /** Pending events open a step on one observation; after a terminal step or the summary nothing is pending. */
  predicate Orderly(s: State, id: EpisodeId, request: Option<Request>) {
    && s.step >= 0 && |s.pending| < 3
    && (s.summary.Some? || s.terminated ==> s.pending == [] && s.step > 0)
    && (|s.pending| >= 1 ==>
          s.pending[0].FleetObservation? && s.pending[0].episode == id && s.pending[0].step == s.step)
    && (|s.pending| == 2 ==>
          && s.pending[1].PolicyRecommendation?
          && s.pending[1].observation == s.pending[0].observation && s.pending[1].actionsFor == s.pending[1].observation
          && (request.Some? ==>
                s.pending[1].policy == request.value.policy && s.pending[1].version == request.value.version))
  }

  class EventSequence {
    const id: EpisodeId
    const request: Option<Request>
    var step: int
    var pending: seq<Event>
    var summary: Option<Event>
    var terminated: bool

    function Contents(): State
      reads this
    {
      State(step, pending, summary, terminated)
    }

    predicate Valid()
      reads this
    {
      Orderly(Contents(), id, request)
    }

    constructor (id: EpisodeId, request: Option<Request>)
      ensures Valid()
      ensures Contents() == START && this.id == id && this.request == request
    {
      this.id, this.request := id, request;
      step, pending, summary, terminated := 0, [], None, false;
    }

    /** Refused, or taken; the third event of a step hands the whole step over. */
    method Take(e: Event) returns (ok: bool, complete: Option<seq<Event>>)
      requires Valid()
      modifies this
      ensures Valid()
      ensures var next := Accept(old(Contents()), e, id, request);
              ok == next.Some? && Contents() == if ok then next.value else old(Contents())
      ensures complete == if ok && !e.EpisodeSummary? && |old(pending)| == 2 then Some(old(pending) + [e]) else None
      ensures complete.Some? ==>
                Triple(complete.value[0], complete.value[1], complete.value[2], old(step), id, request)
    {
      if summary.Some? { return false, None; }
      if e.EpisodeSummary? {
        if pending != [] || step == 0 || e.steps != step || e.episode != id { return false, None; }
        if request.Some? && (e.policy != request.value.policy || e.seed != request.value.seed) { return false, None; }
        summary := Some(e);
        return true, None;
      }
      if terminated || !Expected(e, |pending|) { return false, None; }
      if !e.PolicyRecommendation? && (e.step != step || e.episode != id) { return false, None; }
      if pending != []
         && ((pending[0].FleetObservation? && e.observation != pending[0].observation)
             || (e.PolicyRecommendation? && e.actionsFor != e.observation)) {
        return false, None;
      }
      if e.PolicyRecommendation? && request.Some?
         && (e.policy != request.value.policy || e.version != request.value.version) {
        return false, None;
      }
      pending := pending + [e];
      if |pending| != 3 { return true, None; }
      complete := Some(pending);
      pending := [];
      terminated := e.StepResult? && e.terminated;
      step := step + 1;
      ok := true;
    }
  }

  /** Feeds a whole stream; hands out the completed steps and the summary. */
  method CollectEngineEvents(events: seq<Event>, id: EpisodeId, request: Option<Request>)
    returns (ok: bool, collected: seq<Event>)
    ensures ok <==> Recognised(events, id, request)
    ensures ok ==> collected == events
  {
    var state := new EventSequence(id, request);
    collected := [];
    var i := 0;
    while i < |events|
      invariant 0 <= i <= |events|
      invariant fresh(state) && state.Valid() && state.id == id && state.request == request
      invariant AcceptAll(START, events, id, request) == AcceptAll(state.Contents(), events[i..], id, request)
      invariant state.summary.None? ==> collected + state.pending == events[..i]
      invariant state.summary.Some? ==> i > 0 && collected + [state.summary.value] == events[..i]
    {
      assert events[i..][1..] == events[i + 1..] && events[..i + 1] == events[..i] + [events[i]];
      var taken, complete := state.Take(events[i]);
      if !taken { return false, []; }
      if complete.Some? { collected := collected + complete.value; }
      i := i + 1;
    }
    ok := state.summary.Some?;
    if ok { collected := collected + [state.summary.value]; }
    assert events[..i] == events;
  }

  // The language --------------------------------------------------------------------------------

  /** One step: observation, recommendation and result on the same observation, numbered `k`. */
  predicate Triple(a: Event, b: Event, c: Event, k: int, id: EpisodeId, request: Option<Request>) {
    && a.FleetObservation? && a.episode == id && a.step == k
    && b.PolicyRecommendation? && b.observation == a.observation && b.actionsFor == a.observation
    && (request.Some? ==> b.policy == request.value.policy && b.version == request.value.version)
    && c.StepResult? && c.episode == id && c.step == k && c.observation == a.observation
  }

  predicate Ends(e: Event) { e.StepResult? && e.terminated }

  /** Events 3j .. 3j+2 make step `first + j`. */
  predicate StepAt(events: seq<Event>, j: nat, first: int, id: EpisodeId, request: Option<Request>)
    requires 3 * j + 2 < |events|
  {
    Triple(events[3 * j], events[3 * j + 1], events[3 * j + 2], first + j, id, request)
  }

  predicate EndsAt(events: seq<Event>, j: nat)
    requires 3 * j + 2 < |events|
  {
    Ends(events[3 * j + 2])
  }

  predicate Closing(e: Event, n: int, id: EpisodeId, request: Option<Request>) {
    && e.EpisodeSummary? && e.steps == n && e.episode == id
    && (request.Some? ==> e.policy == request.value.policy && e.seed == request.value.seed)
  }

  /** Exactly n >= 1 steps 0..n-1, none but the last terminal, then one matching summary. */
  ghost predicate Episode(events: seq<Event>, n: nat, id: EpisodeId, request: Option<Request>) {
    && n >= 1 && |events| == 3 * n + 1
    && (forall k :: 0 <= k < n ==> StepAt(events, k, 0, id, request))
    && (forall k :: 0 <= k < n - 1 ==> !EndsAt(events, k))
    && Closing(events[3 * n], n, id, request)
  }

  /** What is left of an episode after `k` steps, the last of which was terminal if `t`. */
  predicate Rest(events: seq<Event>, k: int, t: bool, id: EpisodeId, request: Option<Request>)
    decreases |events|
  {
    if |events| == 1 then k != 0 && Closing(events[0], k, id, request)
    else
      && |events| > 3 && !t
      && Triple(events[0], events[1], events[2], k, id, request)
      && Rest(events[3..], k + 1, events[2].terminated, id, request)
  }

  lemma AcceptsTriple(k: int, t: bool, events: seq<Event>, id: EpisodeId, request: Option<Request>)
    requires |events| >= 3 && !events[0].EpisodeSummary?
    ensures var end := AcceptAll(State(k, [], None, t), events, id, request);
            if !t && Triple(events[0], events[1], events[2], k, id, request)
            then end == AcceptAll(State(k + 1, [], None, events[2].terminated), events[3..], id, request)
            else end.None?
  {
    assert events[1..][1..] == events[2..] && events[2..][1..] == events[3..];
    var one := Accept(State(k, [], None, t), events[0], id, request);
    if one.Some? {
      assert one.value == State(k, [events[0]], None, t);
      var two := Accept(one.value, events[1], id, request);
      assert AcceptAll(one.value, events[1..], id, request)
             == if two.None? then None else AcceptAll(two.value, events[2..], id, request);
      if two.Some? {
        assert two.value == State(k, [events[0], events[1]], None, t);
        var three := Accept(two.value, events[2], id, request);
        assert AcceptAll(two.value, events[2..], id, request)
               == if three.None? then None else AcceptAll(three.value, events[3..], id, request);
      }
    }
  }

  lemma SummaryEnds(s: State, events: seq<Event>, id: EpisodeId, request: Option<Request>)
    requires s.summary.Some?
    ensures AcceptAll(s, events, id, request).Some? <==> events == []
  {
  }

  lemma NoSummaryInside(k: int, t: bool, events: seq<Event>, id: EpisodeId, request: Option<Request>)
    requires |events| < 3 && (events != [] ==> !events[0].EpisodeSummary?)
    ensures var end := AcceptAll(State(k, [], None, t), events, id, request); end.Some? ==> end.value.summary.None?
  {
    if events != [] {
      var one := Accept(State(k, [], None, t), events[0], id, request);
      if one.Some? && |events| == 2 {
        assert one.value == State(k, [events[0]], None, t) && events[1..] == [events[1]] && events[1..][1..] == [];
        var two := Accept(one.value, events[1], id, request);
        assert AcceptAll(one.value, [events[1]], id, request) == two;
      }
    }
  }

  /** From a step boundary the recogniser accepts exactly the rest of an episode. */
  lemma {:induction false} AcceptsRest(events: seq<Event>, k: int, t: bool, id: EpisodeId, request: Option<Request>)
    ensures var end := AcceptAll(State(k, [], None, t), events, id, request);
            (end.Some? && end.value.summary.Some?) <==> Rest(events, k, t, id, request)
    decreases |events|
  {
    if events != [] && events[0].EpisodeSummary? {
      var next := Accept(State(k, [], None, t), events[0], id, request);
      if next.Some? { SummaryEnds(next.value, events[1..], id, request); }
    } else if |events| < 3 {
      NoSummaryInside(k, t, events, id, request);
    } else {
      AcceptsTriple(k, t, events, id, request);
      if !t && Triple(events[0], events[1], events[2], k, id, request) {
        AcceptsRest(events[3..], k + 1, events[2].terminated, id, request);
      }
    }
  }

  /** The rest of an episode, spelt out by position. */
  ghost predicate Remaining(events: seq<Event>, k: int, t: bool, m: nat, id: EpisodeId, request: Option<Request>) {
    && |events| == 3 * m + 1 && k + m != 0 && (m > 0 ==> !t)
    && (forall j :: 0 <= j < m ==> StepAt(events, j, k, id, request))
    && (forall j :: 0 <= j < m - 1 ==> !EndsAt(events, j))
    && Closing(events[3 * m], k + m, id, request)
  }

  lemma {:induction false} RestIsRemaining(
    events: seq<Event>, k: nat, t: bool, id: EpisodeId, request: Option<Request>) returns (m: nat)
    requires Rest(events, k, t, id, request)
    ensures Remaining(events, k, t, m, id, request)
    decreases |events|
  {
    if |events| == 1 {
      m := 0;
    } else {
      var rest := events[3..];
      var n := RestIsRemaining(rest, k + 1, events[2].terminated, id, request);
      m := n + 1;
      forall j | 0 <= j < m ensures StepAt(events, j, k, id, request) {
        if j > 0 { assert StepAt(rest, j - 1, k + 1, id, request); }
      }
      forall j | 0 <= j < m - 1 ensures !EndsAt(events, j) {
        if j > 0 { assert !EndsAt(rest, j - 1); }
      }
    }
  }

  lemma {:induction false} RemainingIsRest(
    events: seq<Event>, k: nat, t: bool, m: nat, id: EpisodeId, request: Option<Request>)
    requires Remaining(events, k, t, m, id, request)
    ensures Rest(events, k, t, id, request)
    decreases m
  {
    if m > 0 {
      var rest, first := events[3..], k + 1;
      assert StepAt(events, 0, k, id, request);
      forall j | 0 <= j < m - 1 ensures StepAt(rest, j, first, id, request) {
        assert StepAt(events, j + 1, k, id, request);
      }
      forall j | 0 <= j < m - 2 ensures !EndsAt(rest, j) {
        assert !EndsAt(events, j + 1);
      }
      if m > 1 { assert !EndsAt(events, 0); }
      RemainingIsRest(rest, k + 1, events[2].terminated, m - 1, id, request);
    }
  }

  /** The recogniser accepts exactly the episodes. */
  lemma RecognisesEpisodes(events: seq<Event>, id: EpisodeId, request: Option<Request>)
    ensures Recognised(events, id, request) <==> exists n: nat :: Episode(events, n, id, request)
  {
    AcceptsRest(events, 0, false, id, request);
    if Recognised(events, id, request) {
      var m := RestIsRemaining(events, 0, false, id, request);
      assert Episode(events, m, id, request);
    }
    forall n: nat | Episode(events, n, id, request) ensures Recognised(events, id, request) {
      RemainingIsRest(events, 0, false, n, id, request);
    }
  }
}
