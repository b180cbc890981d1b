/** The approval workflow engine (app/services/approvals.py) of one
    organisation: instances, their append-only trail, and a configuration that
    may be replaced while requests are in flight. */
module Approvals {
  import opened Base

  datatype RequestType =
    | LeaveRequest | Expense | BillRequest | PurchaseOrder | StockAdjustment | StockIssue | StockTransfer | Stocktake

  /** Request types with no requester. */
  predicate IsRequesterless(t: RequestType) {
    t in {BillRequest, PurchaseOrder, StockAdjustment, StockTransfer, Stocktake}
  }

  datatype Role = Admin | PayrollManager | Accountant | Manager | EmployeeRole | OtherRole(name: string)

  datatype Eligibility = ByRole | DirectManager | DepartmentHead | SpecificPerson

  /** What a caller configures; the position in the list becomes the order. */
  datatype StepInput = StepInput(eligibility: Eligibility, role: Option<Role>, account: Option<Uuid>)

  datatype WorkflowStep = WorkflowStep(stepOrder: int, rule: StepInput)

  datatype Claims = Claims(account: Uuid, role: Role)

  datatype Person = Person(managerId: Option<Uuid>, departmentId: Option<Uuid>)

  /** The employee and department rows an eligibility check reads. */
  datatype Directory = Directory(employeeOfAccount: map<Uuid, Uuid>, employees: map<Uuid, Person>,
                                 departmentHead: map<Uuid, Option<Uuid>>)

  datatype Status = Pending | Approved | Rejected

  datatype Instance = Instance(requester: Option<Uuid>, currentStep: int, status: Status)

  datatype Decision = Decision(stepOrder: int, approve: bool, account: Uuid, role: Role)

  datatype Key = Key(kind: RequestType, request: Uuid)

  datatype Refusal = NotPending | NotAuthorised | InvalidStep

  // ----- Reading the configuration -----

  /** The step at the instance's position, if one is configured. */
  function StepAt(steps: seq<WorkflowStep>, order: int): Option<WorkflowStep> {
    if steps == [] then None
    else if steps[0].stepOrder == order then Some(steps[0])
    else StepAt(steps[1..], order)
  }

  /** The gate used when there is no step: the flow's original hard-coded roles. */
  predicate DefaultGate(d: Directory, claims: Claims, requester: Option<Uuid>) {
    || claims.role in {Admin, PayrollManager, Accountant}
    || (&& claims.role == Manager && requester.Some?
        && claims.account in d.employeeOfAccount && requester.value in d.employees
        && d.employees[requester.value].managerId == Some(d.employeeOfAccount[claims.account]))
  }

  /** is_eligible_approver. */
  predicate IsEligible(d: Directory, step: Option<WorkflowStep>, claims: Claims, requester: Option<Uuid>) {
    if step.None? then DefaultGate(d, claims, requester)
    else
      var rule := step.value.rule;
      match rule.eligibility
      case ByRole => rule.role == Some(claims.role)
      case SpecificPerson => rule.account == Some(claims.account)
      case _ =>
        && requester.Some? && requester.value in d.employees && claims.account in d.employeeOfAccount
        && var person, decider := d.employees[requester.value], d.employeeOfAccount[claims.account];
          if rule.eligibility.DirectManager? then person.managerId == Some(decider)
          else
            && person.departmentId.Some? && person.departmentId.value in d.departmentHead
            && d.departmentHead[person.departmentId.value] == Some(decider)
  }

  predicate IsValidInput(kind: RequestType, input: StepInput) {
    && !(input.eligibility in {DirectManager, DepartmentHead} && IsRequesterless(kind))
    && !(input.eligibility.ByRole? && input.role == Some(EmployeeRole))
  }

  function Numbered(inputs: seq<StepInput>): (steps: seq<WorkflowStep>)
    ensures |steps| == |inputs|
    ensures forall i :: 0 <= i < |inputs| ==> steps[i] == WorkflowStep(i + 1, inputs[i])
  {
    seq(|inputs|, i requires 0 <= i < |inputs| => WorkflowStep(i + 1, inputs[i]))
  }

  function StepsOf(steps: map<RequestType, seq<WorkflowStep>>, kind: RequestType): seq<WorkflowStep> {
    if kind in steps then steps[kind] else []
  }

  // ----- The tables -----

  datatype State = State(
    steps: map<RequestType, seq<WorkflowStep>>, instances: map<Key, Instance>, trail: map<Key, seq<Decision>>)

  const EMPTY: State := State(map[], map[], map[])

  function InstanceOf(s: State, key: Key, requester: Option<Uuid>): Instance {
    if key in s.instances then s.instances[key] else Instance(requester, 1, Pending)
  }

  function TrailOf(s: State, key: Key): seq<Decision> {
    if key in s.trail then s.trail[key] else []
  }

  function TotalSteps(steps: seq<WorkflowStep>): nat {
    if steps == [] then 1 else |steps|
  }

  datatype DecideCall = DecideCall(key: Key, claims: Claims, requester: Option<Uuid>, approve: bool)

  /** decide's two guards. */
  function DecideRefusal(s: State, d: Directory, c: DecideCall): Option<Refusal> {
    var instance := InstanceOf(s, c.key, c.requester);
    if !instance.status.Pending? then Some(NotPending)
    else if !IsEligible(d, StepAt(StepsOf(s.steps, c.key.kind), instance.currentStep), c.claims, c.requester)
    then Some(NotAuthorised)
    else None
  }

  /** The instance after an accepted decision. */
  function Decided(instance: Instance, approve: bool, totalSteps: nat): Instance {
    if !approve then instance.(status := Rejected)
    else if instance.currentStep >= totalSteps then instance.(status := Approved)
    else instance.(currentStep := instance.currentStep + 1)
  }

  class Engine {
    var steps: map<RequestType, seq<WorkflowStep>>
    var instances: map<Key, Instance>
    var trail: map<Key, seq<Decision>>

    function Now(): State
      reads this
    {
      State(steps, instances, trail)
    }

    constructor ()
      ensures Now() == EMPTY
    {
      steps, instances, trail := map[], map[], map[];
    }

    method GetOrCreateInstance(key: Key, requester: Option<Uuid>) returns (r: Instance)
      modifies this`instances
      ensures r == InstanceOf(old(Now()), key, requester) && instances == old(instances)[key := r]
    {
      if key !in instances {
        instances := instances[key := Instance(requester, 1, Pending)];
      }
      r := instances[key];
    }

    /** decide: returns the instance and whether this decision was final. A
        refusal rolls the transaction back. */
    method Decide(d: Directory, c: DecideCall) returns (r: Result<(Instance, bool), Refusal>)
      modifies this
      ensures r.Err? <==> DecideRefusal(old(Now()), d, c).Some?
      ensures Now() == Step(old(Now()), DecideEvent(d, c))
      ensures r.Ok? ==> r.value.0 == instances[c.key] && (r.value.1 <==> !instances[c.key].status.Pending?)
    {
      var before := instances;
      var instance := GetOrCreateInstance(c.key, c.requester);
      if !instance.status.Pending? {
        instances := before;
        return Err(NotPending);
      }
      var configured := StepsOf(steps, c.key.kind);
      if !IsEligible(d, StepAt(configured, instance.currentStep), c.claims, c.requester) {
        instances := before;
        return Err(NotAuthorised);
      }
      var decision := Decision(instance.currentStep, c.approve, c.claims.account, c.claims.role);
      trail := trail[c.key := TrailOf(Now(), c.key) + [decision]];
      if !c.approve {
        instance := instance.(status := Rejected);
        instances := instances[c.key := instance];
        return Ok((instance, true));
      }
      var totalSteps := if configured != [] then |configured| else 1;
      if instance.currentStep >= totalSteps {
        instance := instance.(status := Approved);
        instances := instances[c.key := instance];
        return Ok((instance, true));
      }
      instance := instance.(currentStep := instance.currentStep + 1);
      instances := instances[c.key := instance];
      return Ok((instance, false));
    }

    /** replace_workflow_steps: all rows of the request type, renumbered 1..N. */
    method ReplaceWorkflowSteps(kind: RequestType, inputs: seq<StepInput>)
      returns (r: Result<seq<WorkflowStep>, Refusal>)
      modifies this
      ensures r.Ok? <==> forall i :: 0 <= i < |inputs| ==> IsValidInput(kind, inputs[i])
      ensures r.Ok? ==> r.value == Numbered(inputs)
      ensures Now() == Step(old(Now()), ReplaceEvent(kind, inputs))
    {
      for i := 0 to |inputs|
        invariant forall j :: 0 <= j < i ==> IsValidInput(kind, inputs[j])
      {
        if !IsValidInput(kind, inputs[i]) {
          return Err(InvalidStep);
        }
      }
      var created := [];
      for i := 0 to |inputs|
        invariant created == Numbered(inputs)[..i]
      {
        created := created + [WorkflowStep(i + 1, inputs[i])];
      }
      steps := steps[kind := created];
      return Ok(created);
    }
  }

  // ----- Runs: decisions, submissions and replacements, in any order -----

  datatype Event =
    | SubmitEvent(key: Key, requester: Option<Uuid>)
    | DecideEvent(directory: Directory, call: DecideCall)
    | ReplaceEvent(kind: RequestType, inputs: seq<StepInput>)

  function Step(s: State, e: Event): State {
    match e
    case SubmitEvent(key, requester) => s.(instances := s.instances[key := InstanceOf(s, key, requester)])
    case ReplaceEvent(kind, inputs) =>
      if forall i :: 0 <= i < |inputs| ==> IsValidInput(kind, inputs[i])
      then s.(steps := s.steps[kind := Numbered(inputs)])
      else s
    case DecideEvent(d, c) =>
      if DecideRefusal(s, d, c).Some? then s
      else
        var instance := InstanceOf(s, c.key, c.requester);
        var decision := Decision(instance.currentStep, c.approve, c.claims.account, c.claims.role);
        s.(instances := s.instances[c.key := Decided(instance, c.approve, TotalSteps(StepsOf(s.steps, c.key.kind)))],
           trail := s.trail[c.key := TrailOf(s, c.key) + [decision]])
  }

  function Run(s: State, events: seq<Event>): State {
    if events == [] then s else Step(Run(s, events[..|events| - 1]), events[|events| - 1])
  }

  predicate ConfigurationIsNumbered(s: State) {
    forall kind, i :: kind in s.steps && 0 <= i < |s.steps[kind]| ==> s.steps[kind][i].stepOrder == i + 1
  }

  /** The trail carries steps 1, 2, ..., k; only its last decision may be a
      reject, and it is one exactly when the instance is rejected. k is one
      short of the current step while pending, and the current step once the
      instance is decided. */
  predicate TrailMatches(instance: Instance, trail: seq<Decision>) {
    && (forall i :: 0 <= i < |trail| ==> trail[i].stepOrder == i + 1)
    && (forall i :: 0 <= i < |trail| - 1 ==> trail[i].approve)
    && |trail| == (if instance.status.Pending? then instance.currentStep - 1 else instance.currentStep)
    && (instance.status.Pending? && trail != [] ==> trail[|trail| - 1].approve)
    && (!instance.status.Pending? ==> trail != [] && (instance.status.Approved? <==> trail[|trail| - 1].approve))
  }

  predicate Invariant(s: State) {
    && ConfigurationIsNumbered(s)
    && (forall key :: key in s.instances ==> TrailMatches(s.instances[key], TrailOf(s, key)))
    && (forall key :: key in s.trail ==> key in s.instances)
  }

  lemma StepKeepsInvariant(s: State, e: Event)
    requires Invariant(s)
    ensures Invariant(Step(s, e))
  {
    hide TrailMatches, IsEligible, Decided;
    var t := Step(s, e);
    if e.DecideEvent? && DecideRefusal(s, e.directory, e.call).None? {
      var key := e.call.key;
      var instance := InstanceOf(s, key, e.call.requester);
      FreshMatches(e.call.requester);
      DecidedMatches(instance, TrailOf(s, key), TotalSteps(StepsOf(s.steps, key.kind)),
                     Decision(instance.currentStep, e.call.approve, e.call.claims.account, e.call.claims.role));
    } else if e.SubmitEvent? {
      FreshMatches(e.requester);
    }
    forall key | key in t.instances
      ensures TrailMatches(t.instances[key], TrailOf(t, key))
    {
      assert key in s.instances ==> TrailMatches(s.instances[key], TrailOf(s, key));
    }
  }

  lemma FreshMatches(requester: Option<Uuid>)
    ensures TrailMatches(Instance(requester, 1, Pending), [])
  {
  }

  lemma DecidedMatches(instance: Instance, trail: seq<Decision>, totalSteps: nat, decision: Decision)
    requires instance.status.Pending? && TrailMatches(instance, trail) && decision.stepOrder == instance.currentStep
    ensures TrailMatches(Decided(instance, decision.approve, totalSteps), trail + [decision])
  {
  }

  lemma {:induction false} RunKeepsInvariant(events: seq<Event>)
    ensures Invariant(Run(EMPTY, events))
  {
    if events != [] {
      RunKeepsInvariant(events[..|events| - 1]);
      StepKeepsInvariant(Run(EMPTY, events[..|events| - 1]), events[|events| - 1]);
    }
  }

  /** Over every run, every instance's trail is what TrailMatches says. */
  lemma TrailIsStepsInOrder(events: seq<Event>, key: Key)
    requires key in Run(EMPTY, events).instances
    ensures TrailMatches(Run(EMPTY, events).instances[key], TrailOf(Run(EMPTY, events), key))
  {
    RunKeepsInvariant(events);
  }

  /** Once decided, an instance never changes again and gains no decision,
      whatever is configured or attempted later. */
  lemma {:induction false} TerminalIsFinal(s: State, key: Key, events: seq<Event>)
    requires key in s.instances && !s.instances[key].status.Pending?
    ensures key in Run(s, events).instances && Run(s, events).instances[key] == s.instances[key]
    ensures TrailOf(Run(s, events), key) == TrailOf(s, key)
  {
    if events != [] {
      TerminalIsFinal(s, key, events[..|events| - 1]);
    }
  }

  /** Trails are append-only. */
  lemma {:induction false} TrailOnlyGrows(s: State, key: Key, events: seq<Event>)
    ensures TrailOf(s, key) <= TrailOf(Run(s, events), key)
  {
    if events != [] {
      TrailOnlyGrows(s, key, events[..|events| - 1]);
    }
  }

  lemma {:induction false} StepAtNumbered(steps: seq<WorkflowStep>, first: int, order: int)
    requires forall i :: 0 <= i < |steps| ==> steps[i].stepOrder == first + i
    ensures StepAt(steps, order) == if first <= order < first + |steps| then Some(steps[order - first]) else None
  {
    if steps != [] {
      StepAtNumbered(steps[1..], first + 1, order);
    }
  }

  /** The default gate decides exactly when nothing is configured or, what the
      engine's description leaves out, the workflow was cut shorter than the
      instance's position; otherwise it is the step at that position. */
  lemma DefaultGateIffNoStepThere(s: State, key: Key)
    requires Invariant(s) && key in s.instances && s.instances[key].status.Pending?
    ensures var steps, position := StepsOf(s.steps, key.kind), s.instances[key].currentStep;
            && (StepAt(steps, position).None? <==> steps == [] || position > |steps|)
            && (StepAt(steps, position).Some? ==> StepAt(steps, position).value == steps[position - 1])
  {
    var steps := StepsOf(s.steps, key.kind);
    StepAtNumbered(steps, 1, s.instances[key].currentStep);
    assert TrailMatches(s.instances[key], TrailOf(s, key));
  }

  // ----- A configuration left alone -----

  /** The accepted decisions on one request, in order. */
  function Accepted(s: State, key: Key, events: seq<Event>): seq<Event> {
    if events == [] then []
    else
      var e := events[|events| - 1];
      var before := Run(s, events[..|events| - 1]);
      Accepted(s, key, events[..|events| - 1])
      + if e.DecideEvent? && e.call.key == key && DecideRefusal(before, e.directory, e.call).None? then [e] else []
  }

  /** Decision number i was taken by someone eligible for configured step i, or
      through the default gate when no step is configured. */
  predicate WasEligible(steps: seq<WorkflowStep>, i: nat, e: Event)
    requires steps == [] || i < |steps|
  {
    e.DecideEvent? &&
    IsEligible(e.directory, if steps == [] then None else Some(steps[i]), e.call.claims, e.call.requester)
  }

  function Most(a: nat, b: nat): nat {
    if a >= b then a else b
  }

  /** Where a request stands under a fixed N-step configuration after the
      decisions accepted so far: within max(N, 1) of them, taken in step order
      by people eligible for each step, and approved exactly when all of them
      were approvals. */
  predicate FollowsConfiguration(
    steps: seq<WorkflowStep>, instance: Instance, trail: seq<Decision>, accepted: seq<Event>)
  {
    && |trail| == |accepted| <= Most(|steps|, 1)
    && (forall i :: 0 <= i < |accepted| ==>
          && WasEligible(steps, i, accepted[i])
          && var call := accepted[i].call;
            trail[i] == Decision(i + 1, call.approve, call.claims.account, call.claims.role))
    && (instance.status.Approved?
        <==> |trail| == Most(|steps|, 1) && forall i :: 0 <= i < |trail| ==> trail[i].approve)
    && (instance.status.Rejected? <==> exists i :: 0 <= i < |trail| && !trail[i].approve)
    && instance.currentStep == (if instance.status.Pending? then |trail| + 1 else |trail|)
  }

  /** From submission on, if nobody replaces this request type's workflow. */
  lemma {:induction false} FixedConfigurationIsFollowed(s: State, key: Key, events: seq<Event>)
    requires Invariant(s) && key in s.instances
    requires s.instances[key].status.Pending? && TrailOf(s, key) == [] && s.instances[key].currentStep == 1
    requires forall i :: 0 <= i < |events| && events[i].ReplaceEvent? ==> events[i].kind != key.kind
    ensures var after := Run(s, events);
            && key in after.instances && StepsOf(after.steps, key.kind) == StepsOf(s.steps, key.kind)
            && FollowsConfiguration(StepsOf(s.steps, key.kind), after.instances[key], TrailOf(after, key),
                Accepted(s, key, events))
  {
    if events != [] {
      var front, e := events[..|events| - 1], events[|events| - 1];
      FixedConfigurationIsFollowed(s, key, front);
      var before := Run(s, front);
      hide FollowsConfiguration, DecideRefusal, Decided;
      if e.DecideEvent? && e.call.key == key && DecideRefusal(before, e.directory, e.call).None? {
        StepKeepsConfiguration(before, key, e);
        DecisionFollows(before, StepsOf(s.steps, key.kind), e, Accepted(s, key, front));
      } else {
        OtherEventsLeaveItAlone(before, key, e);
        assert Accepted(s, key, events) == Accepted(s, key, front);
      }
    }
  }

  lemma StepKeepsConfiguration(s: State, key: Key, e: Event)
    requires key in s.instances && (e.ReplaceEvent? ==> e.kind != key.kind)
    ensures key in Step(s, e).instances && StepsOf(Step(s, e).steps, key.kind) == StepsOf(s.steps, key.kind)
  {
    hide DecideRefusal, Decided;
  }

  lemma OtherEventsLeaveItAlone(s: State, key: Key, e: Event)
    requires key in s.instances && (e.ReplaceEvent? ==> e.kind != key.kind)
    requires !(e.DecideEvent? && e.call.key == key && DecideRefusal(s, e.directory, e.call).None?)
    ensures var t := Step(s, e);
            && key in t.instances && StepsOf(t.steps, key.kind) == StepsOf(s.steps, key.kind)
            && t.instances[key] == s.instances[key] && TrailOf(t, key) == TrailOf(s, key)
  {
    hide DecideRefusal, Decided;
  }

  lemma DecisionFollows(s: State, steps: seq<WorkflowStep>, e: Event, accepted: seq<Event>)
    requires e.DecideEvent? && DecideRefusal(s, e.directory, e.call).None? && e.call.key in s.instances
    requires steps == StepsOf(s.steps, e.call.key.kind)
    requires forall i :: 0 <= i < |steps| ==> steps[i].stepOrder == i + 1
    requires FollowsConfiguration(steps, s.instances[e.call.key], TrailOf(s, e.call.key), accepted)
    ensures var t := Step(s, e);
            FollowsConfiguration(steps, t.instances[e.call.key], TrailOf(t, e.call.key), accepted + [e])
  {
    var key := e.call.key;
    var n := |accepted|;
    var trail := TrailOf(s, key);
    assert n < TotalSteps(steps);
    StepAtNumbered(steps, 1, n + 1);
    var after := TrailOf(Step(s, e), key);
    assert after[n].approve == e.call.approve;
  }

  // ----- Who may decide -----

  /** The account is that of the employee's own manager. */
  predicate IsTheirManager(d: Directory, account: Uuid, employee: Uuid) {
    exists manager: Uuid | manager in d.employeeOfAccount.Values ::
      && account in d.employeeOfAccount && d.employeeOfAccount[account] == manager
      && employee in d.employees && d.employees[employee].managerId == Some(manager)
  }

  /** The account is that of whoever heads the employee's department. */
  predicate HeadsTheirDepartment(d: Directory, account: Uuid, employee: Uuid) {
    exists department | department in d.departmentHead.Keys ::
      && employee in d.employees && d.employees[employee].departmentId == Some(department)
      && account in d.employeeOfAccount && d.departmentHead[department] == Some(d.employeeOfAccount[account])
  }

  /** Someone a step with this rule is for. */
  predicate FitsRule(d: Directory, rule: StepInput, account: Uuid, role: Role, requester: Option<Uuid>) {
    || (rule.eligibility == ByRole && rule.role == Some(role))
    || (rule.eligibility == SpecificPerson && rule.account == Some(account))
    || (rule.eligibility == DirectManager && requester.Some? && IsTheirManager(d, account, requester.value))
    || (rule.eligibility == DepartmentHead && requester.Some? && HeadsTheirDepartment(d, account, requester.value))
  }

  /** Someone the flow was for before any step was configured. */
  predicate FitsDefault(d: Directory, account: Uuid, role: Role, requester: Option<Uuid>) {
    || role == Admin || role == PayrollManager || role == Accountant
    || (role == Manager && requester.Some? && IsTheirManager(d, account, requester.value))
  }

  lemma EligibleIffFits(d: Directory, step: Option<WorkflowStep>, claims: Claims, requester: Option<Uuid>)
    ensures IsEligible(d, step, claims, requester)
            <==> match step
                 case None => FitsDefault(d, claims.account, claims.role, requester)
                 case Some(s) => FitsRule(d, s.rule, claims.account, claims.role, requester)
  {
    if requester.Some? {
      ManagerMeans(d, claims.account, requester.value);
      HeadMeans(d, claims.account, requester.value);
    }
    hide IsTheirManager, HeadsTheirDepartment;
  }

  lemma ManagerMeans(d: Directory, account: Uuid, employee: Uuid)
    ensures IsTheirManager(d, account, employee)
            <==> account in d.employeeOfAccount && employee in d.employees
                 && d.employees[employee].managerId == Some(d.employeeOfAccount[account])
  {
  }

  lemma HeadMeans(d: Directory, account: Uuid, employee: Uuid)
    ensures HeadsTheirDepartment(d, account, employee)
            <==> account in d.employeeOfAccount && employee in d.employees
                 && d.employees[employee].departmentId.Some?
                 && d.employees[employee].departmentId.value in d.departmentHead
                 && d.departmentHead[d.employees[employee].departmentId.value] == Some(d.employeeOfAccount[account])
  {
  }

  /** On any reachable pending instance a decision is accepted exactly when it is
      by someone the step at the instance's position is for, or, where no step is
      there, by someone of the flow's own; it then joins the trail, and nothing
      else does. */
  lemma DecisionIsAcceptedIff(events: seq<Event>, d: Directory, c: DecideCall)
    requires c.key in Run(EMPTY, events).instances && Run(EMPTY, events).instances[c.key].status.Pending?
    ensures var s := Run(EMPTY, events);
            var t := Step(s, DecideEvent(d, c));
            var steps, position := StepsOf(s.steps, c.key.kind), s.instances[c.key].currentStep;
            var fits := if 0 < position <= |steps|
                        then FitsRule(d, steps[position - 1].rule, c.claims.account, c.claims.role, c.requester)
                        else FitsDefault(d, c.claims.account, c.claims.role, c.requester);
            TrailOf(t, c.key)
            == TrailOf(s, c.key)
               + if fits then [Decision(position, c.approve, c.claims.account, c.claims.role)] else []
  {
    var s := Run(EMPTY, events);
    RunKeepsInvariant(events);
    DefaultGateIffNoStepThere(s, c.key);
    assert TrailMatches(s.instances[c.key], TrailOf(s, c.key));
    EligibleIffFits(d, StepAt(StepsOf(s.steps, c.key.kind), s.instances[c.key].currentStep), c.claims, c.requester);
    hide IsEligible, FitsRule, FitsDefault, TrailMatches, Decided, StepAt, Run;
  }

  /** Over every run under a fixed configuration, decision number i was by someone
      step i is for; with no step configured, by someone of the flow's own. */
  lemma DecisionsWereByWhoeverTheyAreFor(s: State, key: Key, events: seq<Event>, i: nat)
    requires Invariant(s) && key in s.instances
    requires s.instances[key].status.Pending? && TrailOf(s, key) == [] && s.instances[key].currentStep == 1
    requires forall k :: 0 <= k < |events| && events[k].ReplaceEvent? ==> events[k].kind != key.kind
    requires i < |TrailOf(Run(s, events), key)|
    ensures i < |Accepted(s, key, events)| && Accepted(s, key, events)[i].DecideEvent?
    ensures var e, made := Accepted(s, key, events)[i], TrailOf(Run(s, events), key)[i];
            var steps := StepsOf(s.steps, key.kind);
            if steps == [] then FitsDefault(e.directory, made.account, made.role, e.call.requester)
            else i < |steps| && FitsRule(e.directory, steps[i].rule, made.account, made.role, e.call.requester)
  {
    FixedConfigurationIsFollowed(s, key, events);
    var e, steps := Accepted(s, key, events)[i], StepsOf(s.steps, key.kind);
    hide Accepted, Run, IsEligible, FitsDefault, FitsRule;
    assert WasEligible(steps, i, e);
    EligibleIffFits(e.directory, if steps == [] then None else Some(steps[i]), e.call.claims, e.call.requester);
  }

  /** No configured step is for the plain employee role, and none of a request
      type without requesters is for the requester's manager or department head. */
  predicate ConfigurationIsSensible(s: State) {
    forall kind, i :: kind in s.steps && 0 <= i < |s.steps[kind]| ==>
      var rule := s.steps[kind][i].rule;
      && !(rule.eligibility == ByRole && rule.role == Some(EmployeeRole))
      && (kind in {BillRequest, PurchaseOrder, StockAdjustment, StockTransfer, Stocktake} ==>
            rule.eligibility != DirectManager && rule.eligibility != DepartmentHead)
  }

  lemma {:induction false} ConfigurationStaysSensible(events: seq<Event>)
    ensures ConfigurationIsSensible(Run(EMPTY, events))
  {
    if events != [] {
      ConfigurationStaysSensible(events[..|events| - 1]);
      StepKeepsSensible(Run(EMPTY, events[..|events| - 1]), events[|events| - 1]);
    }
  }

  lemma StepKeepsSensible(s: State, e: Event)
    requires ConfigurationIsSensible(s)
    ensures ConfigurationIsSensible(Step(s, e))
  {
    hide DecideRefusal, Decided;
  }
}
