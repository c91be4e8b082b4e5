# Planning and maintenance operations, modelled in Dafny

This project models the parts of a factory planning platform that decide what is true about
the plant: the greedy planner and the judge that re-checks its plans, the overrides of a
what-if scenario, the maintenance work-order state machine with the analytics over its log,
the optimistic concurrency of decision cases, the leases of scenario workers, candidate
scoring and weight sweeps, failure simulation, and the engine event protocol.

Checking: `dafny verify dfyconfig.toml`.

## Layout

| files | content |
|---|---|
| `Collections`, `Plant` | shared list facts; snapshots, schedules and their well-formedness |
| `Slots`, `Teams` | slot search over calendars and shifts; minimal covering teams |
| `Judge`, `Sweep`, `Validator`, `JudgeLimits` | strict clauses over sets of assignments and what they mean on the floor; the overlap sweep; the judge as it runs; what its precedence check overlooks |
| `Bookings`, `Greedy`, `GreedyLaws` | the invariant of plan construction; the greedy rule on its own; that it determines the plan |
| `Scheduler`, `Planning`, `PlannerLimits` | the planner class; planner against judge; where the two part |
| `ScoreLaws`, `PlanLaws` | what choices of the greedy rule mean in minutes, risks, moves and turns; what a built plan contains and when refusals are true |
| `FloorLaws`, `SkillLaws` | the strict clauses said of the entities of the snapshot; what skill levels mean for teams and plans |
| `Transform`, `TransformLaws`, `OverrideLaws` | scenario overrides and live start bounds; commutation and shrinking; what a set of overrides does, request by request |
| `WorkOrderPolicy`, `WorkOrders`, `WorkOrderLog` | transition table and guards; transactions as functions; the log as source of truth |
| `WorkOrderRuns`, `WorkOrderOrigins`, `WorkOrderFences`, `WorkOrderStore` | all runs; where orders come from; when a command takes effect; the service class |
| `Analytics`, `AnalyticsLaws`, `AnalyticsCounts`, `AnalyticsLimits` | the relational projection over one order's rows, on any rows; what it says of histories the service writes; what each metric counts and excludes; a run it cannot read |
| `Decisions`, `DecisionStore`, `DecisionLaws`, `DecisionHistory`, `DecisionEffects` | head, snapshots, cases, worker and human steps as functions of the state; the same as a class; invariants; laws over runs; when each step takes effect |
| `ScenarioLease`, `ScenarioLaws`, `ScenarioClaims`, `ScenarioGuards`, `ScenarioStore` | scenario jobs, attempts and leases; laws over all interleavings of workers; what a claim takes and leaves alone; the triggers of the tables; the service class |
| `Scoring`, `Sensitivity`, `ScoringLaws`, `Failures` | min-max scoring, the weight sweep, anchors and slopes of a score, failure counts under common random numbers |
| `EventProtocol`, `FakeEngine` | the streaming recogniser, its language, and a producer |

Code that updates state is a class or a method with loops, proved against a specification
function or predicate; the laws are lemmas about that specification, and what holds of every
reachable state is the class invariant. The main results are

- `Scheduler.DeterministicScheduler.Build` and `Planning.PlanAndJudge`: whatever the planner
  returns from fit reservations follows the greedy rule, and the strict judge accepts it, up to
  the presence of teams whose shifts are incompatible and reserved rows before their predecessors. `Bookings.TeamsCompatible` is a finite test
  of windows that can be made before the call; one-technician teams always pass it;
- `Slots.JointExactlyWhenCompatible`, `Slots.PairCompatibility` and
  `PlannerLimits.CrewIsServedWellExactlyWhenCompatible`: that test is exact, for the search and
  for the plans; any crew that fails it is sent out of shift by some plan;
- `GreedyLaws.PlanIsDetermined`: the rule determines the plan, booking by booking;
- `ScoreLaws.BookedPlaceIsBest`, `RequestIsServedSoonest` and `BookingsComeInTurn`: what the rule
  picks, said of start minutes, failure probabilities, current machines and dates;
- `FloorLaws.StrictValidIsFeasible` and `SkillLaws.LevelDecides`: the judge's clauses are demands
  on the plant, skill levels included;
- `Validator.Validate`: the judge's loops, maps and sweeps decide the set-based clauses;
- `WorkOrderRuns.RunsStayConsistent` and `AnalyticsLaws.ReachableHistoriesAreCounted`: rows
  and completions are functions of the event log, and no history the service writes is excluded
  from analytics while its attempt number has at most nine digits;
- `WorkOrderOrigins.OriginsAreUnique`: one order per published assignment, one active order per
  request of a basis, in every run;
- `WorkOrderFences.CommandIsExact` and `OneEffectPerRevision`: when a command takes effect and what
  it leaves, and that no change of an order is overwritten unread;
- `DecisionHistory.HeadHasNoABA` and its consequences for commits;
- `DecisionEffects.ApprovedCanBePublished` and `CommitIsReachable`: an approval leads to a commit of
  exactly that candidate, from every sound state;
- `ScenarioLaws.ReachableJobsAreSound`, `ChangesAreBounded` and `LostClaimsChangeNothing`, and
  `ScenarioClaims.OnlyHolderChanges`: a running job is its holder's until the lease ends;
- `TransformLaws.OrderIsIrrelevant` and `OutagesAndDeferralsOnlyShrink`, and
  `OverrideLaws.EffectiveIsExact`: overrides act together on the baseline, each on its own target;
- `AnalyticsCounts.SamplesAreCounted` and `ExecutionIsCountedExactly`: what a metric counts and
  excludes on any rows;
- `Sensitivity.SweepHasFewIntervals` and `DisplacedWinnerNeverReturns`;
- `EventProtocol.RecognisesEpisodes` and `FakeEngine.StreamIsRecognised`.

## Conventions and assumptions

- Identifiers in scheduling are integers standing for their rank in the string order; times are
  integers (microseconds in scheduling). Deadline and cancellation polls may fire at any time.
- A content hash is an injective constructor, so equal hashes mean equal content. Generated
  identifiers and lease tokens are fresh; `issued` remembers the tokens drawn so far.
- Transactions that hold a factory or row lock are single steps. Clock readings are parameters
  and do not run backwards between steps.
- Snapshots are well formed as the contract's validators demand (`Plant.WellFormed`); schedules
  given to the judge have non-empty assignments with distinct identifiers.
- Reservations handed to the planner fit (`Bookings.FitReservations`): each is acceptable alone, its
  team is on shift, and no two collide. Without this no plan passes the judge
  (`Bookings.UnfitReservationsAreUnsatisfiable`). If they are not closed under predecessors, the one
  clause that can fail besides team presence is precedence, and only for reserved rows. An
  assignment whose identity is made from an operation or request is a booking for it.
- The planner refuses a pending operation behind a completed one that holds no reservation,
  while the judge accepts such a plan: `PlannerLimits.PlanHalfDoneJob` shows both on one snapshot.
  `Build` says when each refusal happens, and claims soundness, not completeness.
- Laws about stored rows assume the unique keys of their tables and contracts: one completion per
  attempt and one event per sequence number (`AnalyticsCounts`), one row per assignment identifier
  (`WorkOrderOrigins.ListedOnce`), distinct technicians and requests (`OverrideLaws.Keyed`).
- Initial rows of work orders, cases and jobs follow the column defaults of
  `backend/prisma/schema.prisma`.
- The row guards of the database that change what a service step can do are part of the model
  (`Renewed` in `Decisions`, `backend/prisma/migrations/20261009010000_decision_worker_command_guards/migration.sql:33-36`).
- The projection's `bool_and` ignores NULL, so an unreadable following attempt does not break an
  interval; `Analytics.Broken` follows the query here.
- Scores, contributions, probabilities and downtime are exact reals.

## Model

| member | source | states |
|---|---|---|
| Slots.FindSlot | ai_services/domain/operations/scheduler.py:430-449 | the earliest start at or after the bound that meets nothing in the calendar and ends by the limit; none exactly when there is none, even over overlapping entries |
| Slots.EarliestFreeIsUnique | ai_services/domain/operations/scheduler.py:430-449 | two calendars with the same entries, in any order, have the same earliest free start |
| Slots.AvailabilityStart | ai_services/domain/operations/scheduler.py:420-427 | first fit over windows sorted by start equals the order-free earliest start inside any window |
| Slots.ShiftStartIsEarliest | ai_services/domain/operations/scheduler.py:420-427 | that start lies in one window, no earlier one does, and none means no later start is in shift |
| Slots.PassIsLowerBound | ai_services/domain/operations/scheduler.py:392-401 | one pass over the members skips no start that suits everybody, and leaves the last member in shift |
| Slots.FindTeamStart | ai_services/domain/operations/scheduler.py:381-417 | the alternating search equals its specification and takes at most one round more than there are calendar entries |
| Slots.TeamStartIsLowerBound | ai_services/domain/operations/scheduler.py:381-417 | for any team: in range, free of conflicts, no jointly feasible start before it, and none means none in range |
| Slots.SoloStartIsEarliest | ai_services/domain/operations/scheduler.py:381-417 | for one technician the result is the earliest start that is free and in shift, or there is none |
| Slots.JointExactlyWhenCompatible | ai_services/domain/operations/scheduler.py:392-401 | the search is jointly right for every calendar and range if and only if the shifts pass a finite test: from each opening and each last start of a window, one pass suits all members |
| Slots.TestStartsSuffice | ai_services/domain/operations/scheduler.py:392-401 | a crew that passes the finite test is jointly right from every start |
| Slots.PairCompatibility | ai_services/domain/operations/scheduler.py:392-401 | for two members the test compares windows: whenever one of the second opens too late for one of the first, the first is on shift again then or an earlier window of the second takes over |
| Slots.NestedShiftsAreCompatible | ai_services/domain/operations/scheduler.py:392-401 | a last member whose windows lie inside those of all others makes the team compatible |
| Slots.LaterMemberBreaksEarlierShift | ai_services/domain/operations/scheduler.py:392-401 | two concrete technicians and four minutes of work for which the search returns a start at which the first is off shift |
| Teams.QualifiedTeams | ai_services/domain/operations/scheduler.py:338-369 | empty exactly when no on-duty crew covers the skills; the listed teams are exactly the minimum covers, each in the order of the snapshot |
| Teams.CombinationsAreSublists | ai_services/domain/operations/scheduler.py:345-368 | each enumerated group is a subsequence of the candidates of the asked size |
| Teams.CombinationsAreComplete | ai_services/domain/operations/scheduler.py:345-368 | every set of candidates of the asked size is enumerated |
| Judge.StrictValidMeansExclusive | ai_services/domain/operations/validator.py:382-412 | in a strict-valid plan each machine and each technician is busy with at most one assignment at every instant |
| Judge.StrictValidMeansScheduledOnce | ai_services/domain/operations/validator.py:141-195 | in a strict-valid plan every unfinished operation is produced by exactly one assignment, of its own job |
| Judge.PredecessorFinishes | ai_services/domain/operations/validator.py:414-454 | an unfinished predecessor has an assignment that ends by the start of its successor |
| Judge.StrictValidMeansChainsInOrder | ai_services/domain/operations/validator.py:414-454 | along any chain of unfinished predecessors the first operation ends before the last starts |
| JudgeLimits.CoverageIsEssentialForPrecedence | ai_services/domain/operations/validator.py:414-454 | a well-formed snapshot and a plan with a step before its predecessor on which the checks find the coverage code and no other: the dictionary of last rows is in order |
| Sweep.AllPairsExact | ai_services/domain/operations/validator.py:382-412 | the pairwise definition lists two different assignments exactly when they overlap, and once |
| Sweep.AllPairsIgnoreOrder | ai_services/domain/operations/validator.py:382-412 | the set of conflicting pairs does not depend on the order of the assignments |
| Sweep.SweepPairs | ai_services/domain/operations/validator.py:382-412 | the start-ordered scan with early exit reports exactly the pairs of the all-pairs definition, in its order |
| Sweep.OverlappingPairs | ai_services/domain/operations/validator.py:529-551 | sorting and sweeping any list of distinct assignments finds exactly its overlapping pairs |
| Validator.Validate | ai_services/domain/operations/validator.py:56-139 | no violation exactly when every strict clause holds; each code is reported exactly when its clause fails (precedence: given coverage) |
| Validator.CheckPlanContext | ai_services/domain/operations/validator.py:207-229 | snapshot or factory mismatch is the only thing it adds |
| Validator.CheckReferences | ai_services/domain/operations/validator.py:231-302 | adds the unknown-reference code exactly when some assignment names an unknown machine, operation of its job, request or technician |
| Validator.CheckPlanningWindow | ai_services/domain/operations/validator.py:304-334 | adds the window code exactly when the plan window differs or an assignment leaves it |
| Validator.CheckMachineEligibility | ai_services/domain/operations/validator.py:336-380 | adds the eligibility code exactly when an assignment sits on an unlisted, incapable or unusable machine |
| Validator.CheckMachineOverlap | ai_services/domain/operations/validator.py:382-412 | adds the overlap code exactly when two assignments of one machine meet |
| Validator.CheckPrecedence | ai_services/domain/operations/validator.py:414-454 | adds the precedence code exactly when the dictionary of last assignments shows a predecessor missing or late |
| Validator.DictionaryPrecedence | ai_services/domain/operations/validator.py:414-454 | with one assignment per operation the dictionary verdict is the set-based precedence clause |
| Validator.CheckTechnicians | ai_services/domain/operations/validator.py:456-551 | adds the availability code exactly when a team member is off shift or booked twice at once, and the skill code exactly when a required skill is lacking |
| Validator.CheckCrews | ai_services/domain/operations/validator.py:470-527 | adds presence and skill codes exactly for assignments whose team is off shift or lacks a required skill |
| Validator.CheckProductionRules | ai_services/domain/operations/validator.py:141-166 | reports exactly the broken rules among blocked operation, job release and duration |
| Validator.CheckMaintenanceRules | ai_services/domain/operations/validator.py:166-178 | reports exactly the broken rules among duration, start window and request status |
| Validator.CheckOperationCoverage | ai_services/domain/operations/validator.py:178-186 | adds the coverage code exactly when an operation is produced twice, or unfinished and not at all |
| Validator.CheckRequestCoverage | ai_services/domain/operations/validator.py:186-191 | adds the coverage code exactly when a request is maintained twice, or mandatory, active and not at all |
| Validator.CheckReservations | ai_services/domain/operations/validator.py:191-195 | adds the reservation code exactly when a retained row is not part of the plan unchanged |
| Bookings.BookingExtends | ai_services/domain/operations/scheduler.py:172-235 | appending a sound booking that fits all others keeps the list acceptable |
| Bookings.CompletePlanHolds | ai_services/domain/operations/scheduler.py:88-146 | a complete acceptable list meets every strict clause except, possibly, the presence of its teams and precedence |
| Bookings.SoloTeamsAreCompatible | ai_services/domain/operations/scheduler.py:338-369 | when every request can be served by one technician, every team the planner may choose has compatible shifts |
| Bookings.UnfitReservationsAreUnsatisfiable | ai_services/domain/operations/validator.py:141-195 | if a reserved row is unsound, unattended or does not fit another, no plan whatever is strict-valid |
| Bookings.LockedCancelledRowIsUnsatisfiable | ai_services/domain/operations/validator.py:191-195 | a locked cancelled row is demanded and dropped, so no plan is strict-valid |
| Scheduler.DeterministicScheduler.Book | ai_services/domain/operations/scheduler.py:166-170 | the assignment is appended to the list, its machine calendar and each team calendar, and nothing else changes |
| Scheduler.DeterministicScheduler.SeedCalendars | ai_services/domain/operations/scheduler.py:166-170 | after seeding, list and calendars hold exactly the reservations |
| Scheduler.DeterministicScheduler.ChooseMachine | ai_services/domain/operations/scheduler.py:237-267 | the choice is an earliest free slot of a usable option with least (score, machine, start); none exactly when no option has a slot |
| Greedy.OptionSlotIsUnique | ai_services/domain/operations/scheduler.py:371-379 | one earliest slot per machine option, whatever the order of its calendar |
| Scheduler.DeterministicScheduler.ScheduleOperation | ai_services/domain/operations/scheduler.py:187-235 | adds at most the booking the greedy rule picks for the operation; a refusal names a blocked, orphaned or slotless operation |
| Scheduler.DeterministicScheduler.ScheduleJobs | ai_services/domain/operations/scheduler.py:172-235 | visits every job once, by priority; every booking is the one the rule picks in its turn; completions are exactly the ends of produced operations |
| Scheduler.DeterministicScheduler.ScheduleProduction | ai_services/domain/operations/scheduler.py:172-235 | success means every unfinished operation is produced, none orphaned and none blocked; a refusal is true of the bookings at that point |
| Scheduler.PredecessorsComeFirst | ai_services/domain/operations/scheduler.py:187-196 | in sequence order each operation comes after all its predecessors |
| Scheduler.DeterministicScheduler.ChooseMaintenanceSlot | ai_services/domain/operations/scheduler.py:313-336 | the soonest start over all qualified teams, ties by team; none only when no team has a slot |
| Scheduler.DeterministicScheduler.PlaceRequest | ai_services/domain/operations/scheduler.py:278-311 | the booking placed for a request is sound and fits every other booking |
| Scheduler.DeterministicScheduler.ScheduleMaintenance | ai_services/domain/operations/scheduler.py:278-311 | serves the requests by urgency, each with the soonest team; success means every pending request is maintained, refusal that no minimal team of the request has a slot |
| Scheduler.DeterministicScheduler.Build | ai_services/domain/operations/scheduler.py:88-146 | the bookings are a greedy run from the reservations; a returned plan fails at most team presence and the precedence of reserved rows, the one never under compatible shifts, the other never under closed reservations; each refusal (blocked, missing predecessor, no machine slot, no maintenance slot) is true of the bookings made so far |
| Scheduler.PlannedIsValid | ai_services/domain/operations/scheduler.py:88-146 | a planned schedule is strict-valid if and only if every team in it is on shift and every reserved row starts after its predecessors |
| Scheduler.RunOrdersReserved | ai_services/domain/operations/validator.py:414-454 | in a greedy run only reserved rows can break precedence, and reservations closed under predecessors do not |
| Greedy.RunMeetsPredecessors | ai_services/domain/operations/scheduler.py:197-211 | every booking of a greedy run starts after all its predecessors |
| Greedy.RunIsAttended | ai_services/domain/operations/scheduler.py:278-311 | with compatible shifts every team of a greedy run is on shift |
| Greedy.RunsCompose | ai_services/domain/operations/scheduler.py:88-117 | production and maintenance phases in the order of the strategy make one run, each booking in its turn |
| GreedyLaws.ChosenIsUnique | ai_services/domain/operations/scheduler.py:237-336 | after given bookings the rule leaves one choice for each operation and request |
| GreedyLaws.PlanIsDetermined | ai_services/domain/operations/scheduler.py:88-146 | snapshot, strategy and reservations determine a complete plan, booking by booking |
| PlannerLimits.CrewIsServedWellExactlyWhenCompatible | ai_services/domain/operations/scheduler.py:392-401 | every plan built for a crew passes the judge if and only if the shifts of the crew pass the finite test |
| PlannerLimits.PlanForCrew | ai_services/domain/operations/scheduler.py:88-146 | for any crew whose shifts fail the test, a well-formed snapshot with clean reservations on which the planner, if in time, answers with an invalid plan |
| PlannerLimits.LateOpeningBreaksPlans | ai_services/domain/operations/scheduler.py:392-401 | the pair available in minutes [0, 4) and [8, 12), and in [5, 9), is such a crew for four minutes of work |
| PlannerLimits.PlanHalfDoneJob | ai_services/domain/operations/scheduler.py:197-210 | a snapshot with a completed predecessor without reservation: a strict-valid plan exists, and the planner, if in time, refuses |
| PlannerLimits.JudgeAcceptsNextStep | ai_services/domain/operations/validator.py:429-432 | the judge accepts a successor of a completed operation that has no row |
| Planning.PlanAndJudge | ai_services/domain/operations/service.py:140-170 | the judge objects to a built plan at most on team presence and precedence, and to nothing when the shifts are compatible and the reservations closed |
| ScoreLaws.BookedPlaceIsBest | ai_services/domain/operations/scheduler.py:237-276 | a booked operation could start nowhere, on no usable option of its own, with a smaller sum of finish minutes, weighted risk and weighted move; weights 0, 90, 5000 and 0.01, 4, 15 |
| ScoreLaws.ProductionEndsFirst | ai_services/domain/operations/scheduler.py:255-256 | production priority: on equal moves no machine and no open start would end the operation earlier |
| ScoreLaws.ReliabilityPaysForRisk | ai_services/domain/operations/scheduler.py:259-260 | reliability priority: a machine riskier by d is booked only if it ends 5000*d minutes earlier, less at most 15; at equal ends and moves the less risky one is |
| ScoreLaws.BalancedPaysForRisk | ai_services/domain/operations/scheduler.py:257-258 | balanced: the same with 90 and 4 |
| ScoreLaws.CurrentMachineIsKept | ai_services/domain/operations/scheduler.py:269-276 | at equal end and risk the machine of the current schedule is kept, under every strategy |
| ScoreLaws.BookedPlaceIsOpen | ai_services/domain/operations/scheduler.py:239-251 | the booked place is on a usable option, after release and predecessors, inside the window and free of all earlier bookings |
| ScoreLaws.TiesGoToLeastMachine | ai_services/domain/operations/scheduler.py:264-267 | of places equal in end, risk and move the one on the smallest machine identifier is booked |
| ScoreLaws.PenaltyIsMove | ai_services/domain/operations/scheduler.py:269-276 | a move is counted exactly when the first current row of the operation is on another machine |
| ScoreLaws.BookingsComeInTurn | ai_services/domain/operations/scheduler.py:94-110 | bookings come by phase of the strategy, then jobs by priority, release and name, operations by sequence, requests mandatory first and by deadline |
| ScoreLaws.RequestStartsInRange | ai_services/domain/operations/scheduler.py:316-323 | a request starts from its first possible start on, midway in its range when balanced, and in time to end in the window |
| ScoreLaws.ServedPlaceIsOpen | ai_services/domain/operations/scheduler.py:313-336 | a request is booked on its machine clear of every booking of machine and team, and its last member is on shift |
| ScoreLaws.RequestIsServedSoonest | ai_services/domain/operations/scheduler.py:324-336 | no minimal team could serve the request sooner, from the first start of the strategy on |
| ScoreLaws.TiesGoToFirstTeam | ai_services/domain/operations/scheduler.py:335-335 | of minimal teams free to start together the first by names is sent |
| PlanLaws.BuiltPlanIsComplete | ai_services/domain/operations/scheduler.py:88-110 | a built plan makes every unfinished operation, serves every open request, keeps every standing row, and adds proposals under the identity of their work only |
| PlanLaws.ScheduleIsBookings | ai_services/domain/operations/scheduler.py:118-138 | the schedule is the next revision for the window and lists its rows by start and end |
| PlanLaws.NoPredecessorIsTrue | ai_services/domain/operations/scheduler.py:202-210 | an operation refused for its predecessors is open and one of them is completed without a standing row |
| PlanLaws.NoMachineSlotIsTrue | ai_services/domain/operations/scheduler.py:212-216 | an operation refused for want of a slot could start nowhere, on no option |
| PlanLaws.NoMaintenanceSlotIsTrue | ai_services/domain/operations/scheduler.py:286-291 | a request refused for want of a slot is open and stands nowhere, and no minimal team could serve it in its range |
| FloorLaws.ClauseIsDemand | ai_services/domain/operations/validator.py:201-560 | each code of the judge is reported exactly when a demand on machines, people, jobs, requests and instants of the plant is not met |
| FloorLaws.StrictValidIsFeasible | ai_services/domain/operations/validator.py:141-195 | strict validity is feasibility on the floor |
| SkillLaws.ListedTeamIsAble | ai_services/domain/operations/scheduler.py:353-369 | a listed team has each required skill at its level, for the family and the action, among members at work |
| SkillLaws.UnableTeamIsNotListed | ai_services/domain/operations/scheduler.py:353-369 | a group without such a member is not listed |
| SkillLaws.NoTeamExactlyWhenUnable | ai_services/domain/operations/scheduler.py:338-369 | no team is listed exactly when all technicians at work together lack a required skill at its level |
| SkillLaws.RaisingRemovesCrews | ai_services/domain/operations/scheduler.py:347-347 | a higher minimum level only removes covering crews |
| SkillLaws.RaisingRemovesPlans | ai_services/domain/operations/validator.py:508-520 | a higher minimum level only removes strict-valid plans |
| SkillLaws.LevelDecides | ai_services/domain/operations/validator.py:508-520 | one plan for a request at level 4: it gets the skill code, and no other, exactly when its technician is below 4 |
| Transform.SubtractOutage | ai_services/domain/scenarios/transform.py:28-39 | the loop computes the window subtraction |
| Transform.SubtractIsExact | ai_services/domain/scenarios/transform.py:28-39 | a booking fits one resulting window if and only if it fitted one original window and misses the outage; resulting windows are non-empty |
| Transform.TransformSnapshot | ai_services/domain/scenarios/transform.py:14-68 | overrides are checked and applied in key order; a conflict yields no snapshot, a refused override its reason |
| TransformLaws.OverridesCommute | ai_services/domain/scenarios/transform.py:21-59 | two overrides with different keys are accepted alike and end alike in either order |
| TransformLaws.OrderIsIrrelevant | ai_services/domain/scenarios/transform.py:18-59 | any order of the same overrides is refused alike, or ends in the same snapshot and conflicts |
| TransformLaws.SubmissionOrderIsIrrelevant | ai_services/domain/scenarios/transform.py:18-18 | sorting the overrides first is only a normal form |
| TransformLaws.TighteningKeepsValidPlansValid | ai_services/domain/operations/validator.py:141-195 | a plan strict-valid under shorter shifts and later earliest starts is strict-valid without them |
| TransformLaws.OutagesAndDeferralsOnlyShrink | ai_services/domain/scenarios/transform.py:21-59 | every plan strict-valid on the effective snapshot is strict-valid on the baseline |
| TransformLaws.EffectiveSnapshotIsWellFormed | ai_services/domain/scenarios/transform.py:60-65 | without a recorded conflict the effective snapshot meets all cross-reference rules, so the last validation cannot fail |
| Transform.WithStartConstraints | ai_services/domain/operations/maintenance_constraints.py:5-15 | live start bounds are applied in turn, refused when they relax or leave the window, and never cross a latest start |
| TransformLaws.BoundIsDeferral | ai_services/domain/operations/maintenance_constraints.py:7-13 | a live bound is accepted exactly when the same deferral is, with the same snapshot |
| TransformLaws.LiveBoundsOnlyShrink | ai_services/domain/operations/maintenance_constraints.py:5-15 | live bounds only shrink the set of strict-valid plans |
| TransformLaws.BoundedSnapshotIsWellFormed | ai_services/domain/operations/maintenance_constraints.py:14-15 | of a well-formed snapshot with its bounds the last validation refuses exactly an earliest start above a latest one |
| OverrideLaws.OverrideIsAcceptable | ai_services/domain/scenarios/transform.py:22-53 | an override is accepted exactly when its target exists, is not completed or cancelled, and its times stay in the window and at or after the old earliest start |
| OverrideLaws.OverrideActs | ai_services/domain/scenarios/transform.py:28-57 | it cuts the outage out of the shifts, moves the earliest start or replaces the duration of its target, and touches nothing else |
| OverrideLaws.OverridesActTogether | ai_services/domain/scenarios/transform.py:21-59 | overrides with different keys act together on the baseline: accepted exactly when each is acceptable there, and then each request and technician shows its own |
| OverrideLaws.EffectiveIsExact | ai_services/domain/scenarios/transform.py:14-68 | whatever the order of submission: refused exactly when some override is unacceptable, withheld exactly when a deferral passes a latest start, and otherwise the baseline with all of them |
| WorkOrderStore.WorkOrderService.CommandWorkOrder | backend/src/services/work-order.service.js:261-322 | row, completion, event and receipt after the command are those of the transaction function, for every refusal and replay as well; every row stays what its log says |
| WorkOrderStore.WorkOrderService.CreateWorkOrder | backend/src/services/work-order.service.js:99-260 | head, commit, assignment, origin, active request and overlap are checked in turn; a new order starts unassigned with its CREATE event and receipt |
| WorkOrderStore.WorkOrderService.FindOrigin | backend/src/services/work-order.service.js:113-165 | the published assignment a draft names, or that the head changed or the source is invalid |
| WorkOrderOrigins.OriginsAreUnique | backend/src/services/work-order.service.js:166-209 | over every run: one order per published assignment, at most one active order per basis snapshot and request, no overlap of active orders without a reason, every order from a commit that was the head |
| WorkOrderOrigins.KeysStayUnique | backend/prisma/migrations/20261022010000_maintenance_work_orders/migration.sql:23-37 | no creation and no command can violate the two unique keys of the table |
| WorkOrderOrigins.OriginsStay | backend/prisma/migrations/20261022010000_maintenance_work_orders/migration.sql:98-101 | origins never change, and a closed or cancelled order never changes at all |
| WorkOrderLog.GrantedIsPermitted | backend/src/services/work-order-policy.js:101-157 | every granted command satisfies the transition table and guards, and its patch is the effect of the recorded event |
| WorkOrderLog.LegalMeansSane | backend/src/services/work-order-policy.js:80-157 | after any permitted log: completions are attempts 1..attempt-1 plus the current one iff COMPLETED or CLOSED; blocker iff BLOCKED; CANCELLED never started; all CHECKs hold |
| WorkOrderLog.StepStaysConstrained | backend/prisma/migrations/20261022010000_maintenance_work_orders/migration.sql:24-34 | every permitted event keeps the CHECK constraints of the table |
| WorkOrderLog.PermittedUpdateIsAllowed | backend/prisma/migrations/20261022010000_maintenance_work_orders/migration.sql:96-112 | every permitted event passes the update trigger |
| WorkOrderLog.LogIsNumbered | backend/src/services/work-order.service.js:54-64 | events are numbered 1..n without gap and the row revision is n |
| WorkOrderLog.NeighboursFit | backend/src/services/work-order.service.js:40-64 | each event starts from the status the last one left, later in time, the attempt growing only on rework |
| WorkOrderLog.DecisionFollowsItsCompletion | backend/src/services/work-order-policy.js:114-118 | a close or rework comes directly after the COMPLETE of its attempt, by another person, with the verdict the outcome demands |
| WorkOrderLog.JudgeIsIndependent | backend/src/services/work-order-recovery-policy.js:19-32 | closer or rework requester is not the reporter of the attempt |
| WorkOrderLog.StartNeverChanges | backend/src/services/work-order-policy.js:127-129 | once set, the actual start never changes |
| WorkOrderLog.StartedExactlyWithStart | backend/src/services/work-order-policy.js:127-129 | an actual start exists exactly when a START event does |
| WorkOrderLog.CancelledNeverStarted | backend/src/services/work-order-policy.js:112-113 | a cancelled order has no START event and was never in progress |
| WorkOrderRuns.RunsStayConsistent | backend/src/services/work-order.service.js:261-322 | in every reachable store each row and its completions are exactly what its permitted log rebuilds |
| WorkOrderRuns.ReachableRowsAreSane | backend/src/services/work-order.service.js:285-320 | the counting and status laws hold of every reachable row |
| WorkOrderRuns.TriggersNeverFire | backend/prisma/migrations/20261022010000_maintenance_work_orders/migration.sql:96-131 | no reachable command is stopped by the update or event trigger |
| WorkOrderRuns.RetriesAreHarmless | backend/src/services/work-order.service.js:17-25 | an answered creation or command sent again, whatever happened between, changes nothing and gets the recorded answer, or its sender is no longer authorised |
| WorkOrderRuns.KeysAreNotReused | backend/src/services/work-order.service.js:22-23 | a key spent on a creation or command refuses every other request of the same user and changes nothing |
| WorkOrderRuns.OfferIsExact | backend/src/services/work-order-policy.js:158-172 | some request of a kind would be granted exactly when the kind is offered, there is somebody eligible for it and the revision counter has room |
| WorkOrderOrigins.CreationIsExact | backend/src/services/work-order.service.js:99-260 | under an unused key an order is created exactly by an administrator or engineer, for an assignment of the published plan that no order has, no active order duplicates, and no unreviewed overlap disturbs |
| WorkOrderOrigins.NothingElseIsCreated | backend/src/services/work-order.service.js:113-165 | a creation that goes through names a pending maintenance assignment of the published plan |
| WorkOrderFences.EffectNeedsRevision | backend/src/services/work-order.service.js:290-291 | a command that takes effect had read the revision it met; row and event carry the next one |
| WorkOrderFences.StaleCommandIsRefused | backend/src/services/work-order.service.js:290-291 | with another expected revision and no receipt a command changes nothing and is refused |
| WorkOrderFences.ConflictMeansStale | backend/src/services/work-order.service.js:290-291 | only such a command is answered with a conflict of revisions |
| WorkOrderFences.RevisionsNeverFall | backend/src/services/work-order.service.js:319-320 | in every run the revision of an order never falls |
| WorkOrderFences.OneEffectPerRevision | backend/src/services/work-order.service.js:290-291 | in every run at most one of two commands that read the same revision of an order takes effect |
| WorkOrderFences.DecisionIsExact | backend/src/services/work-order-policy.js:101-157 | a command is granted exactly to those entitled to it, in the state it asks for, and leaves the row it says |
| WorkOrderFences.CommandIsExact | backend/src/services/work-order.service.js:278-320 | under an unused key a command takes effect exactly when sender, role, assignee, state, eligible target and revision allow it |
| WorkOrderFences.TriggerMovesAreCommands | backend/prisma/migrations/20261022010000_maintenance_work_orders/migration.sql:96-112 | the status moves the table trigger lets pass are those some command makes |
| AnalyticsLaws.NothingIsExcluded | backend/src/services/maintenance-analytics-query.js:51-105 | no sample of a history written by the service is excluded, exactly while its attempt has at most nine digits |
| AnalyticsLaws.ReachableHistoriesAreCounted | backend/src/services/maintenance-analytics-query.js:51-105 | the same for every order of every reachable store |
| AnalyticsLimits.TenDigitAttemptIsExcluded | backend/src/services/maintenance-analytics-query.js:19-20 | a run of the service, within the revision limit, whose order is excluded because its attempt has ten digits |
| AnalyticsLimits.ReworkForever | backend/src/services/work-order-policy.js:114-118 | two commands per attempt bring an order to any attempt within the revision limit |
| AnalyticsLaws.HistoryIsValidExactly | backend/src/services/maintenance-analytics-query.js:34-39 | the history of a permitted log is valid exactly when its last attempt number is readable |
| AnalyticsLaws.OneCompletePerReport | backend/src/services/maintenance-analytics-query.js:42-51 | an attempt has one COMPLETE event, at the time of its completion row, exactly when it has that row |
| AnalyticsLaws.ReportedAttemptIsWhole | backend/src/services/maintenance-analytics-query.js:45-47 | every interval in progress of a reported attempt is closed inside that attempt |
| AnalyticsLaws.SecondsAreInstants | backend/src/services/maintenance-analytics-query.js:42-50 | the summed interval lengths of an attempt count the instants the replayed log is in progress in it |
| AnalyticsLaws.ActiveTimeIsReplayedTime | backend/src/services/maintenance-analytics-query.js:87-94 | the active execution time of a completion is the time its attempt spent in progress |
| AnalyticsLaws.WaitIsCounted | backend/src/services/maintenance-analytics-query.js:96-104 | a decision finds its COMPLETE and completion; the wait is the time between them |
| AnalyticsLaws.AcceptIsCounted | backend/src/services/maintenance-analytics-query.js:81-86 | time to first accept runs from the creation of the order and is never excluded |
| AnalyticsLaws.ReworksAreExtraAttempts | backend/src/services/maintenance-analytics-query.js:71-79 | rework events number the extra attempts and COMPLETE events the completions |
| AnalyticsLaws.ReworkRateIsExact | backend/src/services/maintenance-analytics-query.js:64-79 | the rework rate of an order is its extra attempts over all decisions on it |
| AnalyticsLaws.FirstPassIsExact | backend/src/services/maintenance-analytics-query.js:65-66 | an order enters the first-pass rate when closed, and in its favour exactly when attempt 1 succeeded |
| AnalyticsCounts.SamplesAreCounted | backend/src/services/maintenance-analytics-query.js:51-105 | of any rows with one completion per attempt each metric has exactly the samples of the events, completions and state it is about |
| AnalyticsCounts.FlowCounts | backend/src/services/maintenance-analytics-query.js:64-79 | numerators and denominators of the flow metrics are numbers of events |
| AnalyticsCounts.HistoryIsValidRaw | backend/src/services/maintenance-analytics-query.js:34-39 | first number, last number and signs decide that a history is numbered 1..n without gap, in time order, with readable attempts |
| AnalyticsCounts.LostEventIsNoticed | backend/src/services/maintenance-analytics-query.js:34-57 | a history that lost an event is no longer valid, or lacks the event of the row revision |
| AnalyticsCounts.ExecutionIsCountedExactly | backend/src/services/maintenance-analytics-query.js:87-94 | the active time of a completion counts exactly when the history is orderly, creates once, completes the attempt once at that time and has all its work inside it |
| AnalyticsCounts.AcceptIsCountedExactly | backend/src/services/maintenance-analytics-query.js:81-86 | the time to the first acceptance counts exactly in an orderly history with one creation before it |
| AnalyticsCounts.WaitIsCountedExactly | backend/src/services/maintenance-analytics-query.js:96-104 | the wait for a decision counts exactly in an orderly history with one creation, directly after a COMPLETE its completion confirms |
| AnalyticsCounts.ExecutionIsMissingExactly | backend/src/services/maintenance-analytics-query.js:89-89 | it is missing, not inconsistent, exactly without a closed interval of work or a COMPLETE of the attempt |
| DecisionStore.OperationsStore.IngestFactorySnapshot | backend/src/services/operations-snapshot.service.js:30-76 | compare-and-swap on the head revision; a known snapshot id is replayed or refused and never published again |
| DecisionStore.OperationsStore.CreateDecisionCase | backend/src/services/decision-case.service.js:58-104 | a case pins the current snapshot and plan version, or the request is refused or replayed |
| DecisionStore.OperationsStore.ClaimDecisionCase | backend/src/services/decision-planning.service.js:42-54 | a free case is leased under a new token with the next attempt number |
| DecisionStore.OperationsStore.RenewDecisionCaseLease | backend/src/services/decision-planning.service.js:107-117 | the owner extends its lease; the row guard admits growth while ANALYZING only |
| DecisionStore.OperationsStore.RecordDecisionPlanningFailure | backend/src/services/decision-planning.service.js:87-95 | a fenced failure clears the lease |
| DecisionStore.OperationsStore.ReleaseDecisionCaseLease | backend/src/services/decision-planning.service.js:97-127 | a fenced release requeues the case, before expiry by its owner or after it |
| DecisionStore.OperationsStore.PersistDecisionRecommendation | backend/src/services/decision-planning.service.js:56-85 | the recommendation and all remaining stages are written, or nothing is |
| DecisionStore.OperationsStore.ExecuteDecisionCommand | backend/src/services/decision-command.service.js:31-121 | approve, reject and commit write case, head, schedule, commit and receipt exactly as specified, with every refusal in order |
| DecisionLaws.PersistenceIsAllOrNothing | backend/src/services/decision-planning.service.js:72-78 | the stages all pass exactly when the last clock reading precedes the lease expiry |
| DecisionLaws.ReachableIsSound | backend/src/services/decision-command.service.js:54-116 | in every reachable state: head revision = snapshots + plan version, lease and processing CHECKs, approvals name a valid candidate, commits publish the next version |
| DecisionLaws.PublicationStaysSound | backend/src/services/decision-command.service.js:80-98 | a commit writes the approved schedule as the very next plan version and disturbs no other case |
| DecisionHistory.RunMovesHead | backend/src/services/operations-snapshot.service.js:36-65 | between two states of a run an old snapshot never becomes current again and versions never fall; cases stay on their basis |
| DecisionHistory.HeadHasNoABA | backend/src/services/decision-command.service.js:57-60 | same snapshot and same plan version mean the same head, revision and schedule included |
| DecisionHistory.CommandSeesHeadOfCreation | backend/src/services/decision-command.service.js:54-60 | a command that takes effect sees the head of its case creation |
| DecisionHistory.OneCommitPerBasis | backend/src/services/decision-command.service.js:80-98 | two cases on one basis never both commit |
| DecisionHistory.CommitVersionsAreGapFree | backend/src/services/decision-command.service.js:93-98 | commit plan versions are exactly 1..head version, each by one case |
| DecisionHistory.PublishedIsApproved | backend/src/services/decision-command.service.js:81-92 | the published payload and hash are those of the approved valid candidate |
| DecisionHistory.IntegrityNeverFails | backend/src/services/decision-command.service.js:68-77 | the stored-content integrity refusals cannot occur in a reachable state |
| DecisionHistory.DeadTokensChangeNothing | backend/src/services/decision-planning.service.js:25-29 | a token that was released, expired and requeued, or superseded can never change anything again |
| DecisionHistory.OffersAreHonoured | backend/src/services/decision-case.service.js:41-56 | an offered approval or rejection is granted; an offered commit exactly when its schedule is unpublished |
| DecisionHistory.GrantedWasOffered | backend/src/services/decision-case.service.js:41-56 | whatever is granted was on offer |
| DecisionEffects.IngestionIsExact | backend/src/services/operations-snapshot.service.js:47-65 | a new snapshot is taken exactly on the expected head revision and becomes the head at the next one, plan and schedule unchanged |
| DecisionEffects.KnownSnapshotChangesNothing | backend/src/services/operations-snapshot.service.js:38-46 | a known snapshot is replayed with its own content, refused with any other, and changes nothing |
| DecisionEffects.CreationIsExact | backend/src/services/decision-case.service.js:58-104 | a case is created exactly on the head its author names, at the start of planning |
| DecisionEffects.ClaimIsExact | backend/src/services/decision-planning.service.js:42-54 | a created or failed case is leased exactly at the revision it has |
| DecisionEffects.RenewalIsExact | backend/src/services/decision-planning.service.js:107-117 | a heartbeat extends exactly a lease in force, and never shortens it |
| DecisionEffects.FailureIsExact | backend/src/services/decision-planning.service.js:87-95 | a failure is recorded exactly by the holder of a lease in force |
| DecisionEffects.ReleaseIsExact | backend/src/services/decision-planning.service.js:97-127 | a case is requeued exactly by its token, as stopped before the lease ends and as expired from then on |
| DecisionEffects.PersistIsExact | backend/src/services/decision-planning.service.js:56-85 | a checked new recommendation is stored exactly when the last stage precedes the end of the lease |
| DecisionEffects.OnlyHolderChanges | backend/src/services/decision-planning.service.js:25-29 | in every run a leased case stays as it is until a step presents its token |
| DecisionEffects.RejectionIsExact | backend/src/services/decision-command.service.js:55-106 | a rejection takes effect exactly on an up-to-date case that awaits a decision, and rejects it in the name of the person |
| DecisionEffects.ApprovalIsExact | backend/src/services/decision-command.service.js:55-78 | an approval takes effect exactly on an up-to-date case that awaits one, for a recommended candidate |
| DecisionEffects.ApprovalApproves | backend/src/services/decision-command.service.js:100-106 | it approves: the record names candidate, version, both hashes and the person |
| DecisionEffects.PublicationIsExact | backend/src/services/decision-command.service.js:61-89 | a commit takes effect exactly for the approved candidate of an up-to-date live case whose schedule is unpublished |
| DecisionEffects.PublicationCommits | backend/src/services/decision-command.service.js:90-106 | it commits: the approved schedule is published and the head stands on it, one plan version further |
| DecisionEffects.ApprovedCanBePublished | backend/src/services/decision-command.service.js:54-98 | after an approval of a live case and any run that leaves the head, the candidate can be published exactly when its schedule is unpublished |
| DecisionEffects.CommitIsReachable | backend/src/services/decision-command.service.js:31-121 | from every sound state a checked candidate with an unpublished schedule can become the next plan version |
| DecisionEffects.FirstCommit | backend/src/services/decision-command.service.js:31-121 | from an empty store one snapshot and one case lead to a commit |
| DecisionEffects.RetriesAreHarmless | backend/src/services/decision-command.service.js:46-51 | whatever happened between, a repeated creation or command is answered as the first time and any other under its key is refused; both change nothing |
| ScenarioStore.ScenarioJobs.ClaimCandidate | backend/src/services/scenario-lease.service.js:57-81 | one candidate is recovered, failed, skipped or started, as the specification says |
| ScenarioStore.ScenarioJobs.ClaimNext | backend/src/services/scenario-lease.service.js:46-85 | candidates are tried in turn until one is claimed or has vanished |
| ScenarioStore.ScenarioJobs.Heartbeat | backend/src/services/scenario-lease.service.js:96-104 | a fenced extension, never past the deadline |
| ScenarioStore.ScenarioJobs.Release | backend/src/services/scenario-lease.service.js:105-117 | a fenced release requeues, or fails a job out of attempts |
| ScenarioStore.ScenarioJobs.Persist | backend/src/services/scenario-lease.service.js:118-143 | every point gets its outcome and the job succeeds, or nothing changes |
| ScenarioStore.ScenarioJobs.Reject | backend/src/services/scenario-lease.service.js:144-156 | a retryable error requeues while attempts and deadline allow, otherwise the job fails |
| ScenarioLaws.ReachableJobsAreSound | backend/src/services/scenario-lease.service.js:18-156 | at most one running job per factory; attempts 1..n, n at most 3, with their own tokens, open only while the job runs; leases within deadlines; points final iff the job is |
| ScenarioLaws.ClaimStaysSound | backend/src/services/scenario-lease.service.js:36-81 | recovery and start in one transaction keep all of that |
| ScenarioLaws.StepLowersMeasure | backend/src/services/scenario-lease.service.js:27-156 | every step but a heartbeat lowers 2*(3-attempt)+[running] or changes nothing; terminal jobs never change |
| ScenarioGuards.GuardsNeverFire | backend/prisma/migrations/20261027010000_scenario_planning/migration.sql:164-196 | no reachable step is stopped by a row trigger or CHECK of the scenario tables |
| ScenarioGuards.StepIsAllowed | backend/prisma/migrations/20261027010000_scenario_planning/migration.sql:164-196 | every row a step writes, the recovered row of a claim included, passes the triggers of jobs, attempts and points |
| ScenarioGuards.PersistWritesPendingPoints | backend/prisma/migrations/20261027010000_scenario_planning/migration.sql:180-188 | results are written over pending points only |
| ScenarioLaws.ChangesAreBounded | backend/src/services/scenario-lease.service.js:27-156 | a job sees at most six lifecycle changes in any run |
| ScenarioLaws.TerminalIsForever | backend/src/services/scenario-lease.service.js:60-60 | a terminal job stays as it is |
| ScenarioLaws.LostClaimsChangeNothing | backend/src/services/scenario-lease.service.js:86-95 | a claim that expired or was superseded is refused for ever and changes nothing |
| ScenarioClaims.LiveLeaseIsProtected | backend/src/services/scenario-lease.service.js:60-62 | a job under a live lease is not claimed: the answer is nothing and nothing changes |
| ScenarioClaims.OnlyHolderChanges | backend/src/services/scenario-lease.service.js:57-95 | in every run, until its lease ends, a running job changes only by steps that present its token and attempt |
| ScenarioClaims.ClaimOfQueuedIsExact | backend/src/services/scenario-lease.service.js:66-80 | a queued job is claimed exactly while time and attempts remain and its factory is idle; out of time it fails |
| ScenarioClaims.ClaimOfExpiredIsExact | backend/src/services/scenario-lease.service.js:36-81 | a job after its lease is timed out, exhausted, or requeued and taken, its attempt ended accordingly |
| ScenarioClaims.ClaimNextTakesFirst | backend/src/services/scenario-lease.service.js:56-84 | candidates are tried in order up to the first that is claimed or gone, and no further |
| ScenarioClaims.PersistIsExact | backend/src/services/scenario-lease.service.js:118-143 | the holder's complete result in time is stored point by point and wins the attempt; nothing else is stored |
| ScenarioClaims.HeartbeatIsExact | backend/src/services/scenario-lease.service.js:96-104 | the holder's heartbeat moves the end of the lease to its length from now, never past the deadline |
| ScenarioClaims.RejectIsExact | backend/src/services/scenario-lease.service.js:144-156 | an engine error requeues exactly when retryable with attempts and time left, and fails the job otherwise |
| ScenarioClaims.ReleaseIsExact | backend/src/services/scenario-lease.service.js:105-117 | a stopping worker gives its job back, or fails it after the third attempt |
| Scoring.RankCandidates | ai_services/domain/operations/scoring.py:48-132 | scores every candidate and sorts by score, strategy order and id; a reference that does not cover the candidates is refused |
| Scoring.WinnerIsBest | ai_services/domain/operations/scoring.py:125-132 | the first row comes before the row of every candidate |
| Scoring.RankIsSortedPermutation | ai_services/domain/operations/scoring.py:125-132 | rows are the scored candidates, best first |
| Scoring.BenefitInUnit | ai_services/domain/operations/scoring.py:26-31 | inside the reference a benefit lies between 0 and 1 |
| Scoring.ScoreRespectsDominance | ai_services/domain/operations/scoring.py:86-124 | a candidate at least as good on every KPI never scores lower, whatever the weights |
| Scoring.ContributionsSumToScore | ai_services/domain/operations/scoring.py:109-122 | the weighted contributions add up to the score |
| Scoring.OwnReferenceIsNeutral | ai_services/domain/operations/scoring.py:42-78 | ranking against the candidates' own reference equals ranking without one |
| Sensitivity.Sweep | ai_services/domain/scenarios/sensitivity.py:57-94 | one point per weight in ascending order with the winner there, intervals between neighbouring feasible points of different strategy; over unique candidates and distinct weights at most n-1 intervals |
| Sensitivity.WinnerFollowsWeight | ai_services/domain/scenarios/sensitivity.py:57-88 | as the weight grows the winner's benefit in the swept objective never falls, and stays equal only if the winner stays |
| Sensitivity.DisplacedWinnerNeverReturns | ai_services/domain/scenarios/sensitivity.py:89-94 | a displaced winner never returns |
| Sensitivity.SweepHasFewIntervals | ai_services/domain/scenarios/sensitivity.py:89-94 | n candidates give at most n-1 rank-change intervals |
| Sensitivity.SweepIsSwept | ai_services/domain/scenarios/sensitivity.py:57-88 | the points of a sweep over distinct weights meet the hypotheses of these laws |
| ScoringLaws.BestScoresOne | ai_services/domain/operations/scoring.py:86-124 | a candidate with the best value of every metric scores one |
| ScoringLaws.WorstScoresZero | ai_services/domain/operations/scoring.py:86-124 | one with the worst value of every metric scores zero |
| ScoringLaws.OneMetricMoves | ai_services/domain/operations/scoring.py:86-124 | of two candidates that differ in one metric the better leads by the metric share of the weight, in proportion to the distance on the scale |
| ScoringLaws.WinnerScoresHighest | ai_services/domain/operations/scoring.py:125-132 | the first row has the highest score; ties go to production priority, then balanced, then the smaller identifier |
| ScoringLaws.RefusalIsExact | ai_services/domain/operations/scoring.py:63-70 | a reference is refused exactly when it misses a metric, is inverted or leaves a candidate outside |
| ScoringLaws.IntervalsAreChanges | ai_services/domain/scenarios/sensitivity.py:89-94 | the intervals are exactly the neighbouring feasible samples whose winners follow different strategies |
| ScoringLaws.PointShowsWinner | ai_services/domain/scenarios/sensitivity.py:57-88 | a point shows its weight and a candidate that scores highest there, or none when the budget was spent before it |
| ScoringLaws.SweptWeightIsValidExactly | ai_services/domain/scenarios/sensitivity.py:57-62 | a swept weight is usable exactly when no weight is negative and not all are zero within 1e-12 |
| Failures.SimulateFailures | ai_services/domain/operations/simulator.py:118-158 | failing runs, failures and downtime per run are those of the run-by-run definition; none only on cancellation or deadline |
| Failures.MaintenanceLowersTotals | ai_services/domain/operations/simulator.py:135-152 | under common draws and one horizon, maintaining more machines raises neither failing runs, failures nor downtime |
| Failures.MaintenanceLowersEstimates | ai_services/domain/operations/simulator.py:154-158 | nor any of the three estimates |
| Failures.FailuresAreBracketed | ai_services/domain/operations/simulator.py:135-153 | failing runs <= failures <= failing runs times observations, and failing runs <= runs |
| Failures.DowntimeIsBounded | ai_services/domain/operations/simulator.py:146-151 | downtime of a run is at most its failures times the horizon |
| Failures.CommonRandomDraws.Call | ai_services/domain/scenarios/sampling.py:21-32 | the memoised draw is the uncached function of seed, pinned observation and index, lies in [0, 1), and foreign requests are refused |
| Failures.FailuresAreCounted | ai_services/domain/operations/simulator.py:138-150 | failures of a run are the observations whose draw falls below the probability, or below three tenths of it when the machine is maintained |
| Failures.FailingRunsAreCounted | ai_services/domain/operations/simulator.py:133-155 | failing runs are the runs with such an observation |
| Failures.ProbabilityIsShareOfRuns | ai_services/domain/operations/simulator.py:118-158 | the failure probability is their share of all runs |
| Failures.DowntimePerFailure | ai_services/domain/operations/simulator.py:146-150 | each failure costs the forecast horizon, capped by the plan horizon |
| Failures.EstimatesArePerRun | ai_services/domain/operations/simulator.py:154-158 | expected failures are all failing run-observation pairs over the runs, downtime its average |
| Failures.FractionIsLeadingBits | ai_services/domain/scenarios/sampling.py:30-31 | a draw is the 53 leading bits of its digest as a fraction |
| EventProtocol.EventSequence.Take | backend/src/worker/event-collector.js:11-45 | one event moves the automaton as specified; at its third event a step is handed over as one triple on the same observation |
| EventProtocol.CollectEngineEvents | backend/src/worker/event-collector.js:98-107 | accepts exactly the recognised streams and hands back the stream it was given |
| EventProtocol.RecognisesEpisodes | backend/src/worker/event-collector.js:5-51 | accepted exactly: n >= 1 ordered triples for steps 0..n-1, none but the last terminal, then one matching summary |
| EventProtocol.AcceptsRest | backend/src/worker/event-collector.js:11-45 | from a step boundary the automaton accepts exactly the rest of an episode |
| FakeEngine.Execute | backend/src/engine/fake-engine.js:39-181 | the generator yields its specified stream, or a prefix of whole steps when aborted |
| FakeEngine.Serve | backend/src/engine/fake-engine.js:115-150 | each machine meets its action in order while spares last |
| FakeEngine.StreamIsRecognised | backend/src/engine/fake-engine.js:55-180 | every stream is an episode of its request and is accepted |
| FakeEngine.SummaryAddsUp | backend/src/engine/fake-engine.js:167-180 | summary counters are the outcome counts, its cost the step costs, and spares plus replacements the initial spares |
| FakeEngine.ProductionBalances | backend/src/engine/fake-engine.js:115-165 | the same balance after every number of steps |
| FakeEngine.ToolsCarryOver | backend/src/engine/fake-engine.js:115-138 | the tool a machine shows next is the one the last step left on it |
| FakeEngine.WaitingMeansNoSpare | backend/src/engine/fake-engine.js:122-138 | a replacement waits only when no spare is left |
| FakeEngine.SummaryIsPriced | backend/src/engine/fake-engine.js:116-141 | the total cost is one replacement price per replacement and one waiting price per wait |
| FakeEngine.SparesGoInOrder | backend/src/engine/fake-engine.js:116-141 | spares go to the asking machines in order; a machine waits exactly when all were asked for before it |
| FakeEngine.ObservationsCarryOver | backend/src/engine/fake-engine.js:55-165 | each observation shows the tools, ages and spares the step before it left, the first one a new shop |

## Left out

- The legacy constraint profile: it skips coverage, so it can schedule a retained request twice.
- Rounding of scores, KPIs and costs; floating point throughout.
- Violation messages, entity references, report order and stable identifiers of violations; the judge's verdict and the set of codes are modelled.
- Ties in sorted calendars and schedules beyond start and end, and the order of the returned team list.
- Planner warnings, assumptions texts, KPI calculation other than failures, and the choice among strategies by the planning service.
- Hash and schema checks on a stored publication are one flag of `WorkOrders.Publication`; head and commits are read from outside the work-order model.
- Audit rows and rendered response bodies of the work-order and decision services; a receipt stores the row it answered with.
- Case event rows of decision cases and request bodies.
- The semantic check of a recommendation before it is persisted is the predicate `Decisions.Checked` on its cross references.
- Integer overflow of revisions in the decision services; work orders model the 32-bit revision limit.
- Selection of claim candidates by engine version; candidates of a claim are arbitrary.
- Duration sweeps and infeasible sources of the sensitivity evaluator, and its re-validation of a saved source.
- The per-run generator of the failure simulation without common draws; a draw is any function of run and observation.
- Wear, risk and remaining-life figures of the fixture engine, and engine timeouts and abort signals of the collector.
- HTTP routes, controllers, SQL transport, sessions, and all of the frontend.
- AnalyticsLaws.NothingIsExcluded: one order at a time; filters by machine, drill-down and percentiles over several orders are not modelled.
- Slots.FindTeamStart: says nothing of the result when the deadline fires, as the search then raises.
- Sensitivity.Sweep: takes the pinned candidates as given and models the feasible weight-only branch.
- Sensitivity.SweepHasFewIntervals: exact scores; rounding to twelve digits before the sort could tie neighbours.
- Scoring.RankCandidates: exact scores; the code rounds to twelve digits before sorting, which can turn a close lead into a tie.
- PlannerLimits.CrewIsServedWellExactlyWhenCompatible: the plants are those of one request for the crew with empty calendars.
- DecisionStore.OperationsStore.CreateDecisionCase: the look-up of trigger references is one boolean, and the case event row is not modelled.
- EventProtocol.CollectEngineEvents: events arrive validated; idle timeout and abort of the source loop are not modelled.
- FakeEngine.Execute: wear, risk and rounded cost figures of the payloads are not modelled.
- GreedyLaws.PlanIsDetermined: speaks of plans that are completed; which refusal comes first is not stated.
- ScenarioGuards.GuardsNeverFire: timestamps and the number of points are not modelled; the writes of a transaction that is rolled back are not stated.
- Bookings.UnfitReservationsAreUnsatisfiable: assumes that stable identities name what they were made from, as the planner writes them.
