/** The planning service's use of the two: build a schedule, then let the judge look at it. */
module Planning {
  import opened Plant
  import opened Judge
  import opened Bookings
  import opened Scheduler
  import opened Validator

  lemma AlmostValidCodes(s: Snapshot, plan: Plan, codes: set<Code>)
    requires AlmostValid(s, plan) && ExactCodes(s, plan, codes)
    ensures codes <= {TechnicianAvailability, Precedence}
    ensures Precedence in codes <==> !Holds(Precedence, s, plan)
  {
    hide Holds;
    assert Holds(OperationCoverage, s, plan);
  }

  /**
   Whatever is built, the judge can object to absent teams and to reserved rows before their
   predecessors only: with compatible shifts and closed reservations to nothing.
   */
  method PlanAndJudge(s: Snapshot, strategy: Strategy) returns (outcome: Outcome, drafts: seq<Violation>)
    requires WellFormed(s) && FitReservations(s)
    ensures outcome.Built? ==> Codes(drafts) <= {TechnicianAvailability, Precedence}
    ensures outcome.Built? ==> (drafts == [] <==> StrictValid(s, Plan(s.id, outcome.schedule)))
    ensures outcome.Built? && PredecessorClosed(s) ==> Precedence !in Codes(drafts)
    ensures outcome.Built? && TeamsCompatible(s, IndexOf(s)) ==> (drafts == [] <==> Precedence !in Codes(drafts))
    ensures outcome.Built? && TeamsCompatible(s, IndexOf(s)) && PredecessorClosed(s) ==> drafts == []
  {
    hide WellFormed, FitReservations, StrictValid, Holds, AlmostValid, ExactCodes, TeamsCompatible, PredecessorClosed;
    hide Planned, ProperSchedule, Codes;
    var scheduler := new DeterministicScheduler(s);
    outcome := scheduler.Build(strategy);
    drafts := [];
    if outcome.Built? {
      drafts := Validate(s, Plan(s.id, outcome.schedule));
      AlmostValidCodes(s, Plan(s.id, outcome.schedule), Codes(drafts));
    }
  }
}
