/**
 The fixture engine: a producer of whole episodes. Its drawn wear and risk figures are left
 out; costs are exact.
 */
module FakeEngine {
  import opened Collections
  import opened EventProtocol

  datatype Config = Config(machines: nat, horizon: nat, initialSpares: nat, replacementCost: int, waitingCost: int)

  /** What the generator keeps between steps. */
  datatype Shop = Shop(machines: seq<Machine>, spares: int, cost: int, failures: int, replacements: int, waiting: int)

  function Opened(config: Config): Shop {
    Shop(seq(config.machines, _ => Machine(1, 0)), config.initialSpares, 0, 0, 0, 0)
  }

  function ActionOf(step: int, index: int): Action { if (step + index) % 2 == 1 then Replace else Continue }

  function Actions(step: int, n: nat): (r: seq<Action>)
    ensures |r| == n && forall i :: 0 <= i < n ==> r[i] == ActionOf(step, i)
  {
    if n == 0 then [] else Actions(step, n - 1) + [ActionOf(step, n - 1)]
  }

  /** Machine `i` meets its action: spares go to the machines in order, the rest wait. */
  function Fates(shop: Shop, action: Action, i: nat, config: Config): (Shop, Outcome)
    requires i < |shop.machines|
  {
    var machine := shop.machines[i];
    if action.Replace? && shop.spares > 0 then
      (shop.(
         machines := shop.machines[i := Machine(machine.generation + 1, 0)], spares := shop.spares - 1,
         replacements := shop.replacements + 1, cost := shop.cost + config.replacementCost),
       Outcome(action, Replaced, machine.generation, Some(machine.generation + 1), config.replacementCost))
    else if action.Replace? then
      (shop.(
         machines := shop.machines[i := machine.(age := machine.age + 1)], waiting := shop.waiting + 1,
         cost := shop.cost + config.waitingCost),
       Outcome(action, WaitingForSpare, machine.generation, None, config.waitingCost))
    else
      (shop.(machines := shop.machines[i := machine.(age := machine.age + 1)]),
       Outcome(action, Continued, machine.generation, None, 0))
  }

  /** The first `n` machines of a step. */
  function Served(shop: Shop, step: int, n: nat, config: Config): (r: (Shop, seq<Outcome>))
    requires n <= |shop.machines|
    ensures |r.0.machines| == |shop.machines| && |r.1| == n
  {
    if n == 0 then (shop, [])
    else
      var (before, outcomes) := Served(shop, step, n - 1, config);
      var (after, outcome) := Fates(before, ActionOf(step, n - 1), n - 1, config);
      (after, outcomes + [outcome])
  }

  function Cost(outcomes: seq<Outcome>): int {
    if outcomes == [] then 0 else Cost(outcomes[..|outcomes| - 1]) + outcomes[|outcomes| - 1].cost
  }

  /** One step; `ids` names its observation. */
  function StepEvents(shop: Shop, step: int, config: Config, request: Request, ids: int -> int): seq<Event>
    requires |shop.machines| == config.machines
  {
    var (after, outcomes) := Served(shop, step, config.machines, config);
    [FleetObservation(ids(step), request.episode, step, shop.machines, shop.spares),
     PolicyRecommendation(ids(step), request.policy, request.version, ids(step), Actions(step, config.machines)),
     StepResult(ids(step), request.episode, step, outcomes, after.spares, Cost(outcomes), step == config.horizon - 1)]
  }

  /** Shop and stream after `n` steps. */
  function Produced(config: Config, request: Request, ids: int -> int, n: nat): (r: (Shop, seq<Event>))
    ensures |r.0.machines| == config.machines && |r.1| == 3 * n
  {
    if n == 0 then (Opened(config), [])
    else
      var (shop, events) := Produced(config, request, ids, n - 1);
      (Served(shop, n - 1, config.machines, config).0, events + StepEvents(shop, n - 1, config, request, ids))
  }

  function Summary(shop: Shop, config: Config, request: Request): Event {
    EpisodeSummary(
      request.episode, request.policy, request.seed, config.horizon, shop.cost, shop.failures, shop.replacements,
      shop.waiting)
  }

  function Stream(config: Config, request: Request, ids: int -> int): seq<Event> {
    var (shop, events) := Produced(config, request, ids, config.horizon);
    events + [Summary(shop, config, request)]
  }

  /** The generator; `abort(step)` is the signal seen before the step. */
  method Execute(config: Config, request: Request, ids: int -> int, abort: nat -> bool)
    returns (events: seq<Event>, finished: bool)
    ensures finished <==> forall step :: 0 <= step < config.horizon ==> !abort(step)
    ensures finished ==> events == Stream(config, request, ids)
    ensures !finished ==> exists step :: 0 <= step < config.horizon && abort(step)
                                         && events == Produced(config, request, ids, step).1
  {
    hide Served, StepEvents, Summary, Opened;
    var shop := Opened(config);
    events := [];
    var step := 0;
    while step < config.horizon
      invariant 0 <= step <= config.horizon
      invariant forall k :: 0 <= k < step ==> !abort(k)
      invariant Produced(config, request, ids, step) == (shop, events)
    {
      if abort(step) { return events, false; }
      var after, yielded := ProduceStep(shop, step, config, request, ids);
      events := events + yielded;
      shop := after;
      step := step + 1;
    }
    events := events + [Summary(shop, config, request)];
    finished := true;
  }

  /** The three events of one step. */
  method ProduceStep(shop: Shop, step: int, config: Config, request: Request, ids: int -> int)
    returns (after: Shop, yielded: seq<Event>)
    requires |shop.machines| == config.machines
    ensures after == Served(shop, step, config.machines, config).0
    ensures yielded == StepEvents(shop, step, config, request, ids)
  {
    var observation := FleetObservation(ids(step), request.episode, step, shop.machines, shop.spares);
    var actions := Actions(step, config.machines);
    var recommendation := PolicyRecommendation(ids(step), request.policy, request.version, ids(step), actions);
    var outcomes;
    after, outcomes := Serve(shop, step, actions, config);
    var result := StepResult(
      ids(step), request.episode, step, outcomes, after.spares, Cost(outcomes), step == config.horizon - 1);
    yielded := [observation, recommendation, result];
  }

  /** The outcomes of one step, machine by machine. */
  method Serve(shop: Shop, step: int, actions: seq<Action>, config: Config)
    returns (after: Shop, outcomes: seq<Outcome>)
    requires |shop.machines| == config.machines && actions == Actions(step, config.machines)
    ensures (after, outcomes) == Served(shop, step, config.machines, config)
  {
    var machines, spares, cost, failures := shop.machines, shop.spares, shop.cost, shop.failures;
    var replacements, waiting := shop.replacements, shop.waiting;
    outcomes := [];
    var i := 0;
    while i < config.machines
      invariant 0 <= i <= config.machines && |machines| == config.machines
      invariant Served(shop, step, i, config)
                == (Shop(machines, spares, cost, failures, replacements, waiting), outcomes)
    {
      var machine := machines[i];
      var fate, toolAfter, incurred := Continued, None, 0;
      if actions[i].Replace? && spares > 0 {
        fate, incurred := Replaced, config.replacementCost;
        spares, replacements := spares - 1, replacements + 1;
        machines := machines[i := Machine(machine.generation + 1, 0)];
        toolAfter := Some(machine.generation + 1);
      } else if actions[i].Replace? {
        fate, incurred := WaitingForSpare, config.waitingCost;
        waiting := waiting + 1;
        machines := machines[i := machine.(age := machine.age + 1)];
      } else {
        machines := machines[i := machine.(age := machine.age + 1)];
      }
      cost := cost + incurred;
      if fate.Failed? { failures := failures + 1; }
      outcomes := outcomes + [Outcome(actions[i], fate, machine.generation, toolAfter, incurred)];
      i := i + 1;
    }
    after := Shop(machines, spares, cost, failures, replacements, waiting);
  }

  // Laws ----------------------------------------------------------------------------------------

  lemma StepOfPrefix(events: seq<Event>, more: seq<Event>, k: nat, request: Request)
    requires 3 * k + 2 < |events|
    ensures StepAt(events + more, k, 0, request.episode, Some(request)) ==
              StepAt(events, k, 0, request.episode, Some(request))
    ensures EndsAt(events + more, k) == EndsAt(events, k)
  {
    hide Triple, Ends;
  }

  lemma StepAtEnd(events: seq<Event>, last: seq<Event>, k: nat, request: Request)
    requires |events| == 3 * k && |last| == 3
    ensures StepAt(events + last, k, 0, request.episode, Some(request)) ==
              Triple(last[0], last[1], last[2], k, request.episode, Some(request))
    ensures EndsAt(events + last, k) == Ends(last[2])
  {
    hide Triple, Ends;
  }

  lemma StepEventsAreTriple(shop: Shop, step: int, config: Config, request: Request, ids: int -> int)
    requires |shop.machines| == config.machines
    ensures var t := StepEvents(shop, step, config, request, ids);
            && |t| == 3 && Triple(t[0], t[1], t[2], step, request.episode, Some(request))
            && (Ends(t[2]) <==> step == config.horizon - 1)
  {
    hide Served, Actions, Cost;
  }

  lemma {:induction false} ProducedSteps(config: Config, request: Request, ids: int -> int, n: nat, k: nat)
    requires k < n
    ensures StepAt(Produced(config, request, ids, n).1, k, 0, request.episode, Some(request))
    ensures EndsAt(Produced(config, request, ids, n).1, k) <==> k == config.horizon - 1
  {
    var (shop, events) := Produced(config, request, ids, n - 1);
    var all := Produced(config, request, ids, n).1;
    var last := StepEvents(shop, n - 1, config, request, ids);
    assert all == events + last;
    StepEventsAreTriple(shop, n - 1, config, request, ids);
    hide Produced, StepEvents, Triple, Ends, StepAt, EndsAt;
    if k < n - 1 {
      ProducedSteps(config, request, ids, n - 1, k);
      StepOfPrefix(events, last, k, request);
    } else {
      StepAtEnd(events, last, k, request);
    }
  }

  /** Every stream of the engine is an episode of its request, so the recogniser accepts it. */
  lemma StreamIsRecognised(config: Config, request: Request, ids: int -> int)
    requires config.horizon >= 1
    ensures Episode(Stream(config, request, ids), config.horizon, request.episode, Some(request))
    ensures Recognised(Stream(config, request, ids), request.episode, Some(request))
  {
    var n, stream, events := config.horizon, Stream(config, request, ids),
        Produced(config, request, ids, config.horizon).1;
    forall k | 0 <= k < n
      ensures StepAt(stream, k, 0, request.episode, Some(request)) && (EndsAt(stream, k) <==> k == n - 1)
    {
      ProducedSteps(config, request, ids, n, k);
      assert stream[3 * k] == events[3 * k] && stream[3 * k + 1] == events[3 * k + 1]
             && stream[3 * k + 2] == events[3 * k + 2];
    }
    assert Episode(stream, n, request.episode, Some(request));
    RecognisesEpisodes(stream, request.episode, Some(request));
  }

  function CountFate(outcomes: seq<Outcome>, fate: Fate): nat {
    if outcomes == [] then 0
    else CountFate(outcomes[..|outcomes| - 1], fate) + (if outcomes[|outcomes| - 1].fate == fate then 1 else 0)
  }

  /** Outcomes with the given fate over all results of a stream. */
  function CountAll(events: seq<Event>, fate: Fate): nat {
    if events == [] then 0
    else
      var e := events[|events| - 1];
      CountAll(events[..|events| - 1], fate) + (if e.StepResult? then CountFate(e.outcomes, fate) else 0)
  }

  /** Step costs over all results of a stream. */
  function TotalCost(events: seq<Event>): int {
    if events == [] then 0
    else
      var e := events[|events| - 1];
      TotalCost(events[..|events| - 1]) + (if e.StepResult? then e.cost else 0)
  }

  /** Serving machines: counters move with the outcomes, and each replacement takes one spare. */
  lemma {:induction false} ServiceBalances(shop: Shop, step: int, n: nat, config: Config)
    requires n <= |shop.machines| && shop.spares >= 0
    ensures var (after, outcomes) := Served(shop, step, n, config);
            && after.replacements == shop.replacements + CountFate(outcomes, Replaced)
            && after.waiting == shop.waiting + CountFate(outcomes, WaitingForSpare)
            && after.failures == shop.failures && CountFate(outcomes, Failed) == 0
            && after.cost == shop.cost + Cost(outcomes)
            && after.spares + after.replacements == shop.spares + shop.replacements
            && after.spares >= 0
  {
    if n > 0 {
      ServiceBalances(shop, step, n - 1, config);
      var (before, outcomes) := Served(shop, step, n - 1, config);
      var outcome := Fates(before, ActionOf(step, n - 1), n - 1, config).1;
      assert (outcomes + [outcome])[..n - 1] == outcomes;
    }
  }

  lemma CountOne(events: seq<Event>, e: Event, fate: Fate)
    ensures CountAll(events + [e], fate) ==
              CountAll(events, fate) + (if e.StepResult? then CountFate(e.outcomes, fate) else 0)
    ensures TotalCost(events + [e]) == TotalCost(events) + (if e.StepResult? then e.cost else 0)
  {
    assert (events + [e])[..|events|] == events;
  }

  lemma CountStep(events: seq<Event>, step: seq<Event>, fate: Fate)
    requires |step| == 3 && !step[0].StepResult? && !step[1].StepResult? && step[2].StepResult?
    ensures CountAll(events + step, fate) == CountAll(events, fate) + CountFate(step[2].outcomes, fate)
    ensures TotalCost(events + step) == TotalCost(events) + step[2].cost
  {
    CountOne(events, step[0], fate);
    CountOne(events + [step[0]], step[1], fate);
    CountOne(events + [step[0]] + [step[1]], step[2], fate);
    assert events + step == events + [step[0]] + [step[1]] + [step[2]];
  }

  /** The shop's counters are the counts of the events produced so far, and spares are conserved. */
  predicate Balanced(shop: Shop, events: seq<Event>, config: Config) {
    && shop.spares + shop.replacements == config.initialSpares && shop.spares >= 0
    && shop.replacements == CountAll(events, Replaced) && shop.waiting == CountAll(events, WaitingForSpare)
    && shop.failures == CountAll(events, Failed) == 0
    && shop.cost == TotalCost(events)
  }

  lemma StepBalances(shop: Shop, events: seq<Event>, step: int, config: Config, request: Request, ids: int -> int)
    requires |shop.machines| == config.machines && Balanced(shop, events, config)
    ensures Balanced(Served(shop, step, config.machines, config).0,
                     events + StepEvents(shop, step, config, request, ids), config)
  {
    var added := StepEvents(shop, step, config, request, ids);
    ServiceBalances(shop, step, config.machines, config);
    CountStep(events, added, Replaced);
    CountStep(events, added, WaitingForSpare);
    CountStep(events, added, Failed);
  }

  /** After any number of steps the books balance. */
  lemma {:induction false} ProductionBalances(config: Config, request: Request, ids: int -> int, n: nat)
    ensures Balanced(Produced(config, request, ids, n).0, Produced(config, request, ids, n).1, config)
  {
    if n > 0 {
      ProductionBalances(config, request, ids, n - 1);
      var (shop, events) := Produced(config, request, ids, n - 1);
      StepBalances(shop, events, n - 1, config, request, ids);
    }
  }

  /** The summary adds up: its counters are the outcome counts, its cost the step costs, and spares are conserved. */
  lemma SummaryAddsUp(config: Config, request: Request, ids: int -> int)
    requires config.horizon >= 1
    ensures var stream := Stream(config, request, ids);
            var summary, last := stream[|stream| - 1], stream[|stream| - 2];
            && summary.EpisodeSummary? && last.StepResult?
            && summary.replacements == CountAll(stream, Replaced)
            && summary.waiting == CountAll(stream, WaitingForSpare)
            && summary.failures == CountAll(stream, Failed) == 0
            && summary.cost == TotalCost(stream)
            && last.spares + summary.replacements == config.initialSpares && last.spares >= 0
  {
    var n := config.horizon;
    var (shop, events) := Produced(config, request, ids, n);
    var stream := Stream(config, request, ids);
    ProductionBalances(config, request, ids, n);
    assert stream[..|stream| - 1] == events;
    var (before, earlier) := Produced(config, request, ids, n - 1);
    assert events[|events| - 1] == StepEvents(before, n - 1, config, request, ids)[2];
    assert stream[|stream| - 2] == events[|events| - 1];
  }

  /** The tool a machine shows at a step is the one the step before left on it. */
  lemma {:induction false} ToolsCarryOver(shop: Shop, step: int, n: nat, config: Config, i: nat)
    requires i < |shop.machines| && n <= |shop.machines|
    ensures var (after, outcomes) := Served(shop, step, n, config);
            if i >= n then after.machines[i] == shop.machines[i]
            else
              && outcomes[i].before == shop.machines[i].generation
              && after.machines[i] == (if outcomes[i].after.Some? then Machine(outcomes[i].after.value, 0)
                                       else Machine(outcomes[i].before, shop.machines[i].age + 1))
              && (outcomes[i].after.Some? <==> outcomes[i].fate.Replaced?)
              && (outcomes[i].after.Some? ==> outcomes[i].after.value == outcomes[i].before + 1)
  {
    if n > 0 { ToolsCarryOver(shop, step, n - 1, config, i); }
  }

  /** Replacement is refused only when no spare is left. */
  lemma {:induction false} WaitingMeansNoSpare(shop: Shop, step: int, n: nat, config: Config, i: nat)
    requires i < n <= |shop.machines| && shop.spares >= 0
    ensures var (after, outcomes) := Served(shop, step, n, config);
            && (outcomes[i].fate.WaitingForSpare? ==> after.spares == 0)
            && outcomes[i].action == ActionOf(step, i)
            && (outcomes[i].fate.Continued? <==> outcomes[i].action.Continue?)
  {
    ServiceBalances(shop, step, n - 1, config);
    if i < n - 1 {
      WaitingMeansNoSpare(shop, step, n - 1, config, i);
    }
  }

  // Costs and spares ----------------------------------------------------------------------------

  /** One replacement price per replacement, one waiting price per wait. */
  function Price(config: Config, replacements: int, waiting: int): int {
    config.replacementCost * replacements + config.waitingCost * waiting
  }

  lemma PricesAdd(config: Config, a: int, b: int, c: int, d: int)
    ensures Price(config, a + c, b + d) == Price(config, a, b) + Price(config, c, d)
    ensures Price(config, 0, 0) == 0
    ensures Price(config, 1, 0) == config.replacementCost && Price(config, 0, 1) == config.waitingCost
  {
  }

  lemma {:induction false} OutcomesArePriced(shop: Shop, step: int, n: nat, config: Config)
    requires n <= |shop.machines|
    ensures var outcomes := Served(shop, step, n, config).1;
            Cost(outcomes) == Price(config, CountFate(outcomes, Replaced), CountFate(outcomes, WaitingForSpare))
  {
    hide Price;
    PricesAdd(config, 0, 0, 0, 0);
    if n > 0 {
      OutcomesArePriced(shop, step, n - 1, config);
      var (before, outcomes) := Served(shop, step, n - 1, config);
      var outcome := Fates(before, ActionOf(step, n - 1), n - 1, config).1;
      assert (outcomes + [outcome])[..n - 1] == outcomes;
      var r, w := if outcome.fate.Replaced? then 1 else 0, if outcome.fate.WaitingForSpare? then 1 else 0;
      PricesAdd(config, CountFate(outcomes, Replaced), CountFate(outcomes, WaitingForSpare), r, w);
    }
  }

  lemma {:induction false} ProductionIsPriced(config: Config, request: Request, ids: int -> int, n: nat)
    ensures var shop := Produced(config, request, ids, n).0;
            shop.cost == Price(config, shop.replacements, shop.waiting)
  {
    hide Balanced, Served, StepEvents, Price;
    PricesAdd(config, 0, 0, 0, 0);
    if n > 0 {
      ProductionIsPriced(config, request, ids, n - 1);
      var shop := Produced(config, request, ids, n - 1).0;
      SparesLast(config, request, ids, n - 1);
      ServiceBalances(shop, n - 1, config.machines, config);
      OutcomesArePriced(shop, n - 1, config.machines, config);
      var outcomes := Served(shop, n - 1, config.machines, config).1;
      PricesAdd(config, shop.replacements, shop.waiting, CountFate(outcomes, Replaced),
                CountFate(outcomes, WaitingForSpare));
    }
  }

  lemma SparesLast(config: Config, request: Request, ids: int -> int, n: nat)
    ensures Produced(config, request, ids, n).0.spares >= 0
  {
    ProductionBalances(config, request, ids, n);
  }

  /** The episode costs one replacement price per replacement and one waiting price per wait. */
  lemma SummaryIsPriced(config: Config, request: Request, ids: int -> int)
    ensures var stream := Stream(config, request, ids);
            var summary := stream[|stream| - 1];
            && summary.EpisodeSummary?
            && summary.cost == config.replacementCost * summary.replacements + config.waitingCost * summary.waiting
  {
    ProductionIsPriced(config, request, ids, config.horizon);
  }

  /** Replacements asked for by the first `n` machines: those at odd distance from the step. */
  function Asked(step: int, n: nat): nat {
    if n == 0 then 0 else Asked(step, n - 1) + (if (step + n - 1) % 2 == 1 then 1 else 0)
  }

  /** Spares go to the machines in order: a machine is served exactly while fewer than all were asked for before it. */
  lemma {:induction false} SparesGoInOrder(shop: Shop, step: int, n: nat, config: Config, i: nat)
    requires i < n <= |shop.machines| && shop.spares >= 0
    ensures var outcomes := Served(shop, step, n, config).1;
            outcomes[i].fate ==
              if (step + i) % 2 != 1 then Continued
              else if Asked(step, i) < shop.spares then Replaced
              else WaitingForSpare
  {
    SparesAfter(shop, step, n - 1, config);
    if i < n - 1 { SparesGoInOrder(shop, step, n - 1, config, i); }
  }

  lemma {:induction false} SparesAfter(shop: Shop, step: int, n: nat, config: Config)
    requires n <= |shop.machines| && shop.spares >= 0
    ensures Served(shop, step, n, config).0.spares ==
              if Asked(step, n) <= shop.spares then shop.spares - Asked(step, n) else 0
  {
    if n > 0 { SparesAfter(shop, step, n - 1, config); }
  }

  /** The stream up to a step holds the events of each step before it. */
  lemma {:induction false} StepsAreProduced(config: Config, request: Request, ids: int -> int, n: nat, k: nat)
    requires k < n
    ensures Produced(config, request, ids, n).1[3 * k..3 * k + 3] ==
              StepEvents(Produced(config, request, ids, k).0, k, config, request, ids)
  {
    hide StepEvents;
    var events := Produced(config, request, ids, n - 1).1;
    var last := StepEvents(Produced(config, request, ids, n - 1).0, n - 1, config, request, ids);
    assert Produced(config, request, ids, n).1 == events + last;
    if k < n - 1 {
      StepsAreProduced(config, request, ids, n - 1, k);
      assert (events + last)[3 * k..3 * k + 3] == events[3 * k..3 * k + 3];
    } else {
      assert (events + last)[3 * k..3 * k + 3] == last;
    }
  }

  /** What the next observation shows of a machine follows from the last one and the outcome between them. */
  predicate CarriesOver(before: Machine, outcome: Outcome, after: Machine) {
    && outcome.before == before.generation
    && after == if outcome.fate.Replaced? then Machine(before.generation + 1, 0)
                else Machine(before.generation, before.age + 1)
  }

  /** Each observation of a stream shows the fleet and the spares the step before it left, the first one a new shop. */
  lemma ObservationsCarryOver(config: Config, request: Request, ids: int -> int, k: nat, i: nat)
    requires k < config.horizon && i < config.machines
    ensures var stream := Stream(config, request, ids);
            && stream[3 * k].FleetObservation? && |stream[3 * k].machines| == config.machines
            && (if k == 0 then stream[0].machines[i] == Machine(1, 0) && stream[0].spares == config.initialSpares
                else
                  && stream[3 * k - 3].FleetObservation? && |stream[3 * k - 3].machines| == config.machines
                  && stream[3 * k - 1].StepResult? && |stream[3 * k - 1].outcomes| == config.machines
                  && stream[3 * k].spares == stream[3 * k - 1].spares
                  && CarriesOver(stream[3 * k - 3].machines[i], stream[3 * k - 1].outcomes[i],
                                 stream[3 * k].machines[i]))
  {
    hide Served, Stream, Actions, Cost;
    EventsOfStep(config, request, ids, k);
    if k > 0 {
      EventsOfStep(config, request, ids, k - 1);
      assert 3 * (k - 1) == 3 * k - 3 && 3 * (k - 1) + 2 == 3 * k - 1;
      ToolsCarryOver(Produced(config, request, ids, k - 1).0, k - 1, config.machines, config, i);
    }
  }

  lemma EventsOfStep(config: Config, request: Request, ids: int -> int, k: nat)
    requires k < config.horizon
    ensures var stream := Stream(config, request, ids);
            var step := StepEvents(Produced(config, request, ids, k).0, k, config, request, ids);
            stream[3 * k] == step[0] && stream[3 * k + 1] == step[1] && stream[3 * k + 2] == step[2]
  {
    hide StepEvents;
    StepsAreProduced(config, request, ids, config.horizon, k);
    var events := Produced(config, request, ids, config.horizon).1;
    var slice := events[3 * k..3 * k + 3];
    assert slice[0] == events[3 * k] && slice[1] == events[3 * k + 1] && slice[2] == events[3 * k + 2];
  }
}
