/**
 Delegations across process deaths: contracts are created, started, cancelled, finished
 and judged by transactions of several processes, and executor runs live and die with
 their process.

 A method that reports failure changed nothing: the source raised inside the transaction.
 */
module DelegationServiceModel {
  import opened Wrappers
  import opened Ownership
  import opened Tasks
  import opened DelegationAuthority
  import opened DelegationLifecycle

  datatype StartResult = UnknownContract | NotAtomic | NotStartable | LiveExecutor | Stale | Submitted | SubmissionFailed

  datatype Event =
    | CreateTask(task: TaskId)
    | Delegate(id: DelegationId, parent: TaskId, child: TaskId, request: Option<Request>, explicit: Option<Ceiling>,
               required: set<string>, summaryRequired: bool)
    | Start(id: DelegationId, owner: Owner, atomic: bool, submits: bool, dies: bool)
    | ClaimExecution(token: string, seconds: int)
    | Begin(token: string)
    | StartWork(token: string)
    | Invoke(token: string)
    | SignalCancel(token: string)
    | Deliver(token: string, timedOut: bool, outcome: Outcome)
    | EndRun(token: string)
    | FinishAs(id: DelegationId, owner: Owner, ending: Ending, outcome: Outcome, updateChild: bool)
    | RequestCancel(id: DelegationId)
    | ClaimForCancel(id: DelegationId, owner: Owner)
    | Complete(id: DelegationId, outcome: Outcome, selected: Option<Owner>)
    | Judge(id: DelegationId, accept: bool)
    | RecordEvidence(id: string, task: TaskId, kind: string)
    | UpdateTask(task: TaskId, selected: Option<Owner>, state: Option<TaskState>, phase: Option<string>)
    | FailTask(task: TaskId, newPhase: string)
    | RecoverTask(task: TaskId, newPhase: string)
    | RenewLease(key: Key, owner: Owner, seconds: int)
    | DropLease(key: Key, owner: Owner)
    | Exit(process: Process)

  datatype Step = Step(event: Event, now: int, readable: set<Process>)

  /** `_finish_execution` spares the child only on the error path of a run, and reports
      success only from a run that returned. */
  predicate WellBehaved(e: Event) {
    e.FinishAs? ==> e.ending != EndCompleted && (e.updateChild || e.ending in {EndTimedOut, EndFailed})
  }

  /** A time-out outranks a cancellation, and both outrank a missing summary. */
  function EndingOf(timedOut: bool, cancelled: bool, unsummarized: bool): Ending {
    match (timedOut, cancelled, unsummarized)
    case (true, _, _) => EndTimedOut
    case (false, true, _) => EndCancelled
    case (false, false, true) => EndFailed
    case (false, false, false) => EndCompleted
  }

  predicate Startable(b: Book, d: DelegationId, owner: Owner, atomic: bool, sight: Sight) {
    && d in b.contracts && b.contracts[d].state in {Created, Scheduled, Running}
    && (atomic ==> b.contracts[d].scope.budget.iterations == 1)
    && Claimable(b.rows, LeaseOf(d), owner, None, sight)
  }

  function Claimed(b: Book, d: DelegationId, owner: Owner, now: int): Book {
    b.(rows := b.rows[LeaseOf(d) := Lease(owner, Expiry(now, 30), [])])
  }

  function Scheduling(b: Book, d: DelegationId, owner: Owner, now: int): Book
    requires d in b.contracts
  {
    Claimed(b, d, owner, now).(contracts := b.contracts[d := b.contracts[d].(state := Scheduled)])
  }

  ghost predicate ContractOfTask(b: Book, t: TaskId, d: DelegationId) {
    d in b.contracts && d in b.delegations && b.delegations[d].child == t
  }

  /** The parent task takes no more children. */
  predicate Closed(tasks: map<TaskId, Task>, parent: TaskId) {
    parent !in tasks || tasks[parent].state in {TaskCompleted, TaskCancelled}
  }

  /** The ceiling over a new child: the parent's contract, or the explicit one at a root. */
  ghost predicate CeilingOver(b: Book, parent: TaskId, explicit: Option<Ceiling>, id: Option<DelegationId>, c: Ceiling) {
    match id
    case Some(d) =>
      && ContractOfTask(b, parent, d)
      && c == Ceiling(b.contracts[d].scope.tools, b.contracts[d].scope.authority, Some(b.contracts[d].scope.budget))
    case None => (forall d :: !ContractOfTask(b, parent, d)) && explicit.Some? && c == explicit.value.(budget := None)
  }

  ghost predicate Creatable(b: Book, parent: TaskId, request: Option<Request>, explicit: Option<Ceiling>) {
    && !Closed(b.tasks, parent)
    && (request.Some? ==> exists id, c :: CeilingOver(b, parent, explicit, id, c) && Granting(id, c, request.value).Granted?)
  }

  function CancelRequested(b: Book, d: DelegationId): Book
    requires d in b.contracts
  {
    b.(contracts := b.contracts[d := b.contracts[d].(state := CancellationRequested)])
  }

  /** The new contract gives what was asked for, under the parent's ceiling. */
  ghost predicate Asked(b: Book, parent: TaskId, c: Contract, request: Request, explicit: Option<Ceiling>, required: set<string>) {
    && FreshContract(b, c) && c.required == required
    && c.scope.tools == request.tools && c.scope.authority == request.authority
    && match c.scope.parent
       case Some(p) => ContractOfTask(b, parent, p)
       case None =>
         && (forall d :: !ContractOfTask(b, parent, d))
         && explicit.Some? && Narrower(c.scope.authority, explicit.value.authority, c.scope.tools, explicit.value.tools)
  }

  /** The outcome of a grant decides about the creation, and its scope is the contract's. */
  ghost predicate GrantsAs(g: Grant, ok: bool, contract: Option<Contract>) {
    if g.Granted? then ok && contract.Some? && contract.value.scope == g.scope else !ok
  }

  ghost predicate Judgeable(b: Book, d: DelegationId, accept: bool) {
    && d in b.contracts && d in b.delegations && b.contracts[d].state == Completed
    && b.delegations[d].outcome.Some?
    && var o := b.delegations[d].outcome.value;
    && (forall i | 0 <= i < |o.evidence| :: o.evidence[i] in b.evidence && b.evidence[o.evidence[i]].task == b.delegations[d].child)
    && (accept ==>
          && EvidenceFits(b.evidence, o.evidence, b.delegations[d].child, b.contracts[d].required)
          && Summarized(b.contracts[d], b.delegations[d]))
  }

  function Judged(b: Book, d: DelegationId, accept: bool): Book
    requires d in b.contracts
  {
    b.(contracts := b.contracts[d := b.contracts[d].(state := if accept then Accepted else Rejected, accepted := Some(accept))])
  }

  lemma SchedulingKeeps(a: Book, b: Book, d: DelegationId, owner: Owner, now: int)
    requires Consistent(a) && AtMostOnce(a) && Linked(a) && d in a.contracts && a.contracts[d].state in {Created, Scheduled}
    requires owner.token !in a.runs
    requires b == Scheduling(a, d, owner, now).(runs := b.runs)
    requires b.runs == a.runs || b.runs == a.runs[owner.token := Execution(d, owner, Preparing, false)]
    ensures Consistent(b) && AtMostOnce(b) && Evolves(a, b)
  {
    var mid := Scheduling(a, d, owner, now);
    assert Agrees(a, d) && Settled(a, d);
    StateKeeps(a, mid, d);
    RunsKeep(mid, b);
    EvolvesTransitive(a, mid, b);
  }

  /** A lost run is failed under the lease that was just taken, unless this process dies or
      something was recorded meanwhile. */
  function LostRun(a: Book, d: DelegationId, owner: Owner, dies: bool, now: int, sight: Sight): Book
    requires d in a.contracts && d in a.delegations
  {
    var mid := Claimed(a, d, owner, now);
    if !dies && Finishable(mid, d, owner, EndFailed, true, now, sight)
    then Finished(mid, d, EndFailed, Outcome(StatusFailed, false, []), true)
    else mid
  }

  /** It is failed exactly if it is recorded at all: nothing was recorded before, and the
      child failed too or has no other live executor. */
  lemma LostRunFails(a: Book, d: DelegationId, owner: Owner, dies: bool, now: int, sight: Sight)
    requires Linked(a) && d in a.contracts && a.contracts[d].state == Running
    ensures
      var b, child := LostRun(a, d, owner, dies, now, sight), a.delegations[d].child;
      && b.contracts[d].state in {Running, Failed} && b.runs == a.runs && b.invoked == a.invoked
      && (b.contracts[d].state == Failed <==>
            && !dies && a.delegations[d].state == Requested
            && (if a.tasks[child].state in {TaskCompleted, TaskFailed, TaskCancelled} then a.tasks[child].state == TaskFailed
                else Unfenced(a.rows, child, Some(owner), now, sight)))
      && (b.contracts[d].state == Failed ==> b.delegations[d].state == RowFailed && b.tasks[child].state == TaskFailed)
      && (b.contracts[d].state == Running ==> b == a.(rows := a.rows[LeaseOf(d) := Lease(owner, now + 30, [])]))
  {
  }

  lemma StaleKeeps(a: Book, d: DelegationId, owner: Owner, dies: bool, now: int, sight: Sight)
    requires Consistent(a) && AtMostOnce(a) && d in a.contracts && d in a.delegations
    ensures
      var b := LostRun(a, d, owner, dies, now, sight);
      Consistent(b) && AtMostOnce(b) && Evolves(a, b)
  {
    var mid, b := Claimed(a, d, owner, now), LostRun(a, d, owner, dies, now, sight);
    RunsKeep(a, mid);
    if b != mid {
      FinishedKeeps(mid, d, owner, EndFailed, Outcome(StatusFailed, false, []), true, now, sight);
      EvolvesTransitive(a, mid, b);
    }
  }

  /** Marking the child running brings the run no closer than it was. */
  lemma StartingKeeps(a: Book, b: Book, token: string)
    requires Consistent(a) && AtMostOnce(a) && Linked(a) && token in a.runs && a.runs[token].stage == Begun
    requires b == a.(tasks := b.tasks, runs := b.runs)
    requires forall t | t in a.tasks :: t in b.tasks && (Terminal(a.tasks[t].state) ==> b.tasks[t].state == a.tasks[t].state)
    requires b.runs == a.runs[token := a.runs[token].(stage := Working)] || b.runs == a.runs - {token}
    ensures Consistent(b) && AtMostOnce(b) && Evolves(a, b)
  {
    var mid := a.(tasks := b.tasks);
    SurroundingsKeep(a, mid);
    RunsKeep(mid, b);
    EvolvesTransitive(a, mid, b);
  }

  lemma RequestedKeeps(a: Book, d: DelegationId)
    requires Consistent(a) && AtMostOnce(a) && d in a.contracts && a.contracts[d].state in {Created, Scheduled, Running}
    ensures
      var b := CancelRequested(a, d);
      Consistent(b) && AtMostOnce(b) && Evolves(a, b)
  {
    var b := CancelRequested(a, d);
    assert Agrees(a, d);
    StateKeeps(a, b, d);
  }

  lemma JudgedKeeps(a: Book, d: DelegationId, accept: bool)
    requires Consistent(a) && AtMostOnce(a) && Judgeable(a, d, accept)
    ensures
      var b := Judged(a, d, accept);
      Consistent(b) && AtMostOnce(b) && Evolves(a, b)
  {
    var b := Judged(a, d, accept);
    assert Agrees(a, d) && Settled(a, d);
    assert Agrees(b, d);
    StateKeeps(a, b, d);
  }

  class DelegationService {
    const leases: LeaseTable
    var tasks: map<TaskId, Task>
    var delegations: map<DelegationId, Row>
    var contracts: map<DelegationId, Contract>
    var evidence: map<string, Evidence>
    var runs: map<string, Execution>
    var invoked: multiset<DelegationId>

    ghost function View(): Book
      reads this, leases
    {
      Book(leases.rows, tasks, delegations, contracts, evidence, runs, invoked)
    }

    ghost predicate Valid()
      reads this, leases
    {
      Consistent(View()) && AtMostOnce(View())
    }

    constructor ()
      ensures Valid() && fresh(leases)
    {
      leases := new LeaseTable();
      tasks, delegations, contracts, evidence, runs, invoked := map[], map[], map[], map[], map[], multiset{};
    }

    // -------------------------------------------------------------- creation

    /** Creates a child under its parent's ceiling; a plain delegation has no contract. */
    method CreateDelegation(id: DelegationId, parent: TaskId, child: TaskId, request: Option<Request>,
        explicit: Option<Ceiling>, required: set<string>, summaryRequired: bool)
      returns (ok: bool, ghost contract: Option<Contract>)
      requires Linked(View()) && id !in delegations && child !in tasks
      modifies this
      ensures ok <==> Creatable(old(View()), parent, request, explicit)
      ensures !ok ==> View() == old(View())
      ensures ok ==>
        && View() == Delegated(old(View()), id, Row(parent, child, Requested, None), contract)
        && contract.Some? == request.Some?
        && (contract.Some? ==> Asked(old(View()), parent, contract.value, request.value, explicit, required))
      ensures ok ==>
        && tasks == old(tasks)[child := Task(TaskPending, "delegated", false)]
        && delegations == old(delegations)[id := Row(parent, child, Requested, None)]
      ensures parent !in old(tasks) || old(tasks)[parent].state in {TaskCompleted, TaskCancelled} ==> !ok
      ensures request.None? && parent in old(tasks) && old(tasks)[parent].state !in {TaskCompleted, TaskCancelled} ==> ok
      ensures request.Some? && parent in old(tasks) && old(tasks)[parent].state !in {TaskCompleted, TaskCancelled} ==>
        && (forall p | p in old(contracts) && p in old(delegations) && old(delegations)[p].child == parent ::
              var s := old(contracts)[p].scope;
              GrantsAs(Granting(Some(p), Ceiling(s.tools, s.authority, Some(s.budget)), request.value), ok, contract))
        && ((forall p | p in old(contracts) && p in old(delegations) :: old(delegations)[p].child != parent) ==>
              match explicit
              case None => !ok
              case Some(c) => GrantsAs(Granting(None, c.(budget := None), request.value), ok, contract))
      ensures ok && contract.Some? ==>
        contracts[id] == contract.value == Contract(contract.value.scope, required, summaryRequired, Created, false, None)
    {
      contract := None;
      if Closed(tasks, parent) {
        return false, contract;
      }
      ok := true;
      if request.Some? {
        var parentId: Option<DelegationId> := None;
        if exists d | d in contracts :: d in delegations && delegations[d].child == parent {
          var d :| d in contracts && d in delegations && delegations[d].child == parent;
          parentId := Some(d);
        } else if explicit.None? {
          return false, contract;
        }
        var ceiling := if parentId.Some?
          then
            var s := contracts[parentId.value].scope;
            Ceiling(s.tools, s.authority, Some(s.budget))
          else explicit.value.(budget := None);
        var grant := Granting(parentId, ceiling, request.value);
        assert CeilingOver(View(), parent, explicit, parentId, ceiling);
        assert forall id, c | CeilingOver(View(), parent, explicit, id, c) :: id == parentId && c == ceiling;
        if !grant.Granted? {
          return false, contract;
        }
        var c := Contract(grant.scope, required, summaryRequired, Created, false, None);
        contract := Some(c);
        contracts := contracts[id := c];
      }
      tasks := tasks[child := Task(TaskPending, "delegated", false)];
      delegations := delegations[id := Row(parent, child, Requested, None)];
    }

    // -------------------------------------------------------------- execution

    /** Records the end of an execution in all three tables, or in none. */
    method FinishExecution(d: DelegationId, owner: Owner, e: Ending, outcome: Outcome, updateChild: bool,
        now: int, sight: Sight)
      returns (ok: bool)
      requires Linked(View()) && d in contracts && outcome.status == StatusAfter(e)
      modifies this`contracts, this`delegations, this`tasks, leases
      ensures ok <==> Finishable(old(View()), d, owner, e, updateChild, now, sight)
      ensures View() == if ok then Finished(old(View()), d, e, outcome, updateChild) else old(View())
    {
      if !HoldsUnexpired(leases.rows, LeaseOf(d), owner, now) {
        return false;
      }
      if contracts[d].state !in {Scheduled, Running, CancellationRequested} || delegations[d].state != Requested {
        return false;
      }
      var child := delegations[d].child;
      var childState := TaskAfter(outcome.status);
      if updateChild {
        if Terminal(tasks[child].state) {
          if tasks[child].state != childState {
            return false;
          }
        } else {
          if !Unfenced(leases.rows, child, Some(owner), now, sight) {
            return false;
          }
          tasks := tasks[child := tasks[child].(state := childState, phase := PhaseAfter(e))];
        }
      }
      contracts := contracts[d := contracts[d].(state := ContractAfter(e))];
      delegations := delegations[d := delegations[d].(state := RowAfter(outcome.status), outcome := Some(outcome))];
      leases.rows := leases.rows - {LeaseOf(d)};
      ok := true;
    }

    /** Records the failure of a run whose process is gone, unless this one dies as well. */
    method FailLostRun(d: DelegationId, owner: Owner, dies: bool, now: int, sight: Sight)
      requires Linked(View()) && d in contracts
      modifies this`contracts, this`delegations, this`tasks, leases
      ensures View() ==
        if !dies && Finishable(old(View()), d, owner, EndFailed, true, now, sight)
        then Finished(old(View()), d, EndFailed, Outcome(StatusFailed, false, []), true)
        else old(View())
    {
      if !dies {
        var _ := FinishExecution(d, owner, EndFailed, Outcome(StatusFailed, false, []), true, now, sight);
      }
    }

    /** Schedules a run, or fails the contract whose previous run was lost: that one is
        never run again.  `dies` lets the process end before it records the failure. */
    method StartDelegation(d: DelegationId, owner: Owner, atomic: bool, submits: bool, dies: bool, now: int, sight: Sight)
      returns (r: StartResult)
      requires Linked(View()) && owner.token !in runs
      modifies this, leases
      ensures r in {Stale, Submitted, SubmissionFailed} <==> Startable(old(View()), d, owner, atomic, sight)
      ensures r in {Stale, Submitted, SubmissionFailed} <==>
        && d in old(contracts) && old(contracts)[d].state in {Created, Scheduled, Running}
        && !(atomic && old(contracts)[d].scope.budget.iterations != 1)
        && (LeaseOf(d) in old(leases.rows) ==>
              old(leases.rows)[LeaseOf(d)].owner == owner || Reclaimable(old(leases.rows)[LeaseOf(d)], sight))
      ensures r == Stale ==>
        && old(contracts)[d].state == Running
        && View() == LostRun(old(View()), d, owner, dies, now, sight)
      ensures r in {Submitted, SubmissionFailed} ==>
        && old(contracts)[d].state in {Created, Scheduled}
        && View() == Scheduling(old(View()), d, owner, now).(runs :=
             if submits then old(runs)[owner.token := Execution(d, owner, Preparing, false)] else old(runs))
      ensures r in {Submitted, SubmissionFailed} ==>
        && contracts == old(contracts)[d := old(contracts)[d].(state := Scheduled)]
        && leases.rows == old(leases.rows)[LeaseOf(d) := Lease(owner, now + 30, [])]
      ensures r !in {Stale, Submitted, SubmissionFailed} ==> View() == old(View())
    {
      if d !in contracts {
        return UnknownContract;
      }
      if atomic && contracts[d].scope.budget.iterations != 1 {
        return NotAtomic;
      }
      if contracts[d].state !in {Created, Scheduled, Running} {
        return NotStartable;
      }
      var claimed := leases.ClaimInTransaction(LeaseOf(d), owner, now, 30, None, sight);
      if !claimed {
        return LiveExecutor;
      }
      assert View() == Claimed(old(View()), d, owner, now);
      if contracts[d].state == Running {
        FailLostRun(d, owner, dies, now, sight);
        return Stale;
      }
      contracts := contracts[d := contracts[d].(state := Scheduled)];
      if !submits {
        return SubmissionFailed;
      }
      runs := runs[owner.token := Execution(d, owner, Preparing, false)];
      r := Submitted;
    }

    /** The run claims the child task for itself; a conflict ends it. */
    method ClaimChild(token: string, now: int, seconds: int, sight: Sight) returns (claimed: bool)
      requires Linked(View()) && token in runs && runs[token].delegation in contracts
      modifies this`runs, leases
      ensures
        var owner, child := old(runs)[token].owner, delegations[old(runs)[token].delegation].child;
        && (claimed <==> Claimable(old(leases.rows), Key(TaskExecution, child), owner, Some(tasks[child].phase), sight))
        && leases.rows == if claimed then old(leases.rows)[Key(TaskExecution, child) := Lease(owner, Expiry(now, seconds), [])]
                          else old(leases.rows)
      ensures runs == if claimed then old(runs)[token := old(runs)[token].(stage := Owning)] else old(runs) - {token}
    {
      var run := runs[token];
      var child := delegations[run.delegation].child;
      claimed := leases.ClaimInTransaction(
        Key(TaskExecution, child), run.owner, now, seconds, Some(tasks[child].phase), sight);
      runs := if claimed then runs[token := run.(stage := Owning)] else runs - {token};
    }

    /** The transition to `running`, under the run's own unexpired lease. */
    method BeginRun(token: string, now: int) returns (ok: bool)
      requires token in runs
      modifies this`runs, this`contracts
      ensures ok <==>
        && var run := old(runs)[token];
        && run.stage == Owning && !run.cancelled
        && run.delegation in old(contracts) && old(contracts)[run.delegation].state == Scheduled
        && HoldsUnexpired(leases.rows, LeaseOf(run.delegation), run.owner, now)
      ensures View() == if ok then Beginning(old(View()), token) else old(View()).(runs := old(runs) - {token})
      ensures ok ==>
        var d := old(runs)[token].delegation;
        && contracts == old(contracts)[d := old(contracts)[d].(state := Running, started := true)]
        && runs == old(runs)[token := old(runs)[token].(stage := Begun)]
    {
      var run := runs[token];
      ok := run.stage == Owning && !run.cancelled && run.delegation in contracts
        && contracts[run.delegation].state == Scheduled
        && HoldsUnexpired(leases.rows, LeaseOf(run.delegation), run.owner, now);
      if ok {
        contracts := contracts[run.delegation := contracts[run.delegation].(state := Running, started := true)];
        runs := runs[token := run.(stage := Begun)];
      } else {
        runs := runs - {token};
      }
    }

    method WriteTask(task: TaskId, selected: Option<Owner>, state: Option<TaskState>, phase: Option<string>, now: int, sight: Sight)
      returns (ok: bool)
      modifies this`tasks
      ensures ok <==> MayWrite(leases.rows, old(tasks), task, selected, state, phase, now, sight)
      ensures tasks == if ok then old(tasks)[task := Written(old(tasks)[task], state, phase)] else old(tasks)
    {
      ok := MayWrite(leases.rows, tasks, task, selected, state, phase, now, sight);
      if ok {
        tasks := tasks[task := Written(tasks[task], state, phase)];
      }
    }

    /** Marks the child running; a refusal ends the run before its executor is called. */
    method StartChild(token: string, now: int, sight: Sight) returns (ok: bool)
      requires Linked(View()) && token in runs && runs[token].stage == Begun && runs[token].delegation in contracts
      modifies this`runs, this`tasks
      ensures
        var child := delegations[old(runs)[token].delegation].child;
        && (ok <==> MayWrite(leases.rows, old(tasks), child, Some(old(runs)[token].owner),
                             Some(TaskRunning), Some("delegated-running"), now, sight))
        && tasks == if ok then old(tasks)[child := Written(old(tasks)[child], Some(TaskRunning), Some("delegated-running"))]
                    else old(tasks)
      ensures runs == if ok then old(runs)[token := old(runs)[token].(stage := Working)] else old(runs) - {token}
    {
      var run := runs[token];
      ok := WriteTask(delegations[run.delegation].child, Some(run.owner), Some(TaskRunning), Some("delegated-running"), now, sight);
      runs := if ok then runs[token := run.(stage := Working)] else runs - {token};
    }

    /** Calls the executor, unless the run was cancelled by then. */
    method InvokeExecutor(token: string)
      requires token in runs && runs[token].stage == Working
      modifies this`runs, this`invoked
      ensures View() == old(View()).(
        runs := old(runs)[token := old(runs)[token].(stage := Returned)],
        invoked := if old(runs)[token].cancelled then old(invoked) else old(invoked) + multiset{old(runs)[token].delegation})
    {
      var run := runs[token];
      if !run.cancelled {
        invoked := invoked + multiset{run.delegation};
      }
      runs := runs[token := run.(stage := Returned)];
    }

    /** How a returned run is recorded: a missing summary fails it. */
    method DeliverResult(token: string, timedOut: bool, outcome: Outcome, now: int, sight: Sight)
      returns (ghost e: Ending, ghost recorded: Outcome, ok: bool)
      requires Linked(View()) && token in runs && runs[token].stage == Returned && runs[token].delegation in contracts
      modifies this, leases
      ensures
        var run, d := old(runs)[token], old(runs)[token].delegation;
        && e == EndingOf(timedOut, run.cancelled, old(contracts)[d].summaryRequired && outcome.blank)
        && recorded == outcome.(status := StatusAfter(e))
        && (ok <==> Finishable(old(View()), d, run.owner, e, true, now, sight))
        && View() == if ok then Finished(old(View()), d, e, recorded, true) else old(View())
      ensures ok ==>
        var run, d := old(runs)[token], old(runs)[token].delegation;
        var contract, row, child := contracts[d].state, delegations[d].state, tasks[old(delegations)[d].child].state;
        && delegations[d].outcome == Some(recorded) && recorded == outcome.(status := recorded.status)
        && if timedOut then contract == TimedOut && row == RowFailed && child == TaskFailed && recorded.status == StatusFailed
           else if run.cancelled then
             contract == Cancelled && row == RowCancelled && child == TaskCancelled && recorded.status == StatusCancelled
           else if old(contracts)[d].summaryRequired && outcome.blank then
             contract == Failed && row == RowFailed && child == TaskFailed && recorded.status == StatusFailed
           else contract == Completed && row == RowCompleted && child == TaskCompleted && recorded.status == Success
      ensures runs == old(runs)
    {
      var run := runs[token];
      var d := run.delegation;
      var ending :=
        if timedOut then EndTimedOut
        else if run.cancelled then EndCancelled
        else if contracts[d].summaryRequired && outcome.blank then EndFailed
        else EndCompleted;
      e, recorded := ending, outcome.(status := StatusAfter(ending));
      ok := FinishExecution(d, run.owner, ending, outcome.(status := StatusAfter(ending)), true, now, sight);
    }

    // -------------------------------------------------------------- cancellation, completion, judgement

    method RequestCancellation(d: DelegationId) returns (ok: bool)
      modifies this`contracts
      ensures ok <==> d in old(contracts) && old(contracts)[d].state in {Created, Scheduled, Running}
      ensures View() == if ok then CancelRequested(old(View()), d) else old(View())
      ensures ok ==> contracts == old(contracts)[d := old(contracts)[d].(state := CancellationRequested)]
    {
      ok := d in contracts && contracts[d].state in {Created, Scheduled, Running};
      if ok {
        contracts := contracts[d := contracts[d].(state := CancellationRequested)];
      }
    }

    /** Records a result directly.  It never looks at the contract. */
    method CompleteDelegation(d: DelegationId, outcome: Outcome, selected: Option<Owner>, now: int, sight: Sight)
      returns (ok: bool)
      requires Linked(View())
      modifies this`delegations, this`tasks
      ensures ok <==>
        && d in old(delegations) && old(delegations)[d].state == Requested
        && var child := old(tasks)[old(delegations)[d].child].state;
        && (if Terminal(child) then child == TaskAfter(outcome.status)
            else Unfenced(leases.rows, old(delegations)[d].child, selected, now, sight))
      ensures View() == if ok then Completing(old(View()), d, outcome) else old(View())
      ensures ok ==>
        var row, child := delegations[d], tasks[old(delegations)[d].child];
        && contracts == old(contracts) && row.outcome == Some(outcome)
        && (old(tasks)[old(delegations)[d].child].state in {TaskPending, TaskRunning, TaskPaused} ==>
              child.phase == "delegation-complete")
        && match outcome.status
           case StatusFailed => row.state == RowFailed && child.state == TaskFailed
           case StatusCancelled => row.state == RowCancelled && child.state == TaskCancelled
           case _ => row.state == RowCompleted && child.state == TaskCompleted
    {
      if d !in delegations || delegations[d].state != Requested {
        return false;
      }
      var child := delegations[d].child;
      if Terminal(tasks[child].state) {
        if tasks[child].state != TaskAfter(outcome.status) {
          return false;
        }
      } else {
        if !Unfenced(leases.rows, child, selected, now, sight) {
          return false;
        }
        tasks := tasks[child := tasks[child].(state := TaskAfter(outcome.status), phase := "delegation-complete")];
      }
      delegations := delegations[d := delegations[d].(state := RowAfter(outcome.status), outcome := Some(outcome))];
      ok := true;
    }

    /** Accepts or rejects completed work; acceptance needs the child's own evidence of
        every required type. */
    method JudgeResult(d: DelegationId, accept: bool) returns (ok: bool)
      requires Linked(View()) && (d in contracts && contracts[d].state == Completed ==> delegations[d].outcome.Some?)
      modifies this`contracts
      ensures ok <==> Judgeable(old(View()), d, accept)
      ensures View() == if ok then Judged(old(View()), d, accept) else old(View())
      ensures ok <==>
        && d in old(contracts) && old(contracts)[d].state == Completed
        && var named := delegations[d].outcome.value.evidence;
        && (forall x | x in named :: x in evidence && evidence[x].task == delegations[d].child)
        && (accept ==>
              && (forall kind | kind in old(contracts)[d].required :: exists x | x in named :: x in evidence && evidence[x].kind == kind)
              && !(old(contracts)[d].summaryRequired && delegations[d].outcome.value.blank))
      ensures ok ==>
        && contracts == old(contracts)[d := contracts[d]]
        && contracts[d] == old(contracts)[d].(state := if accept then Accepted else Rejected, accepted := Some(accept))
    {
      if d !in contracts || contracts[d].state != Completed {
        return false;
      }
      var o := delegations[d].outcome.value;
      var kinds: set<string> := {};
      for i := 0 to |o.evidence|
        invariant forall j | 0 <= j < i :: o.evidence[j] in evidence && evidence[o.evidence[j]].task == delegations[d].child
        invariant forall k :: k in kinds <==> exists j | 0 <= j < i :: o.evidence[j] in evidence && evidence[o.evidence[j]].kind == k
      {
        if o.evidence[i] !in evidence || evidence[o.evidence[i]].task != delegations[d].child {
          return false;
        }
        kinds := kinds + {evidence[o.evidence[i]].kind};
      }
      if accept {
        if !(contracts[d].required <= kinds) {
          assert exists k | k in contracts[d].required :: k !in kinds;
          return false;
        }
        if contracts[d].summaryRequired && o.blank {
          return false;
        }
      }
      contracts := contracts[d := contracts[d].(state := if accept then Accepted else Rejected, accepted := Some(accept))];
      ok := true;
    }

    // -------------------------------------------------------------- runs

    /** Any interleaving of all transactions, executor calls and process exits: the three
        records of every delegation agree, authority only narrows, results are written
        once, and no executor is called twice. */
    method Run(steps: seq<Step>) returns (gone: set<Process>)
      requires Valid() && forall i | 0 <= i < |steps| :: WellBehaved(steps[i].event)
      modifies this, leases
      ensures Valid() && Evolves(old(View()), View())
      ensures forall d :: invoked[d] <= 1
    {
      gone := {};
      for n := 0 to |steps|
        invariant Valid() && Evolves(old(View()), View())
      {
        ghost var before := View();
        var e := steps[n].event;
        if e.Exit? {
          gone := gone + {e.process};
        }
        Dispatch(e, steps[n].now, Sight(gone, steps[n].readable));
        EvolvesTransitive(old(View()), before, View());
      }
    }

    method Dispatch(e: Event, now: int, sight: Sight)
      requires Valid() && WellBehaved(e)
      modifies this, leases
      ensures Valid() && Evolves(old(View()), View())
    {
      ConsistentIsLinked(View());
      if e.Delegate? {
        StepDelegate(e);
      } else if e.Start? {
        StepStart(e, now, sight);
      } else if e.ClaimExecution? || e.Begin? {
        StepBegin(e, now, sight);
      } else if e.StartWork? {
        StepWork(e, now, sight);
      } else if e.Invoke? {
        StepInvoke(e);
      } else if e.SignalCancel? || e.EndRun? || e.Exit? {
        StepSignal(e);
      } else if e.Deliver? {
        StepDeliver(e, now, sight);
      } else if e.FinishAs? {
        StepFinish(e, now, sight);
      } else if e.Complete? {
        StepComplete(e, now, sight);
      } else if e.RequestCancel? {
        StepCancel(e);
      } else if e.Judge? {
        StepJudge(e);
      } else if e.ClaimForCancel? || e.RenewLease? || e.DropLease? {
        StepLease(e, now, sight);
      } else {
        StepAround(e, now, sight);
      }
    }

    method StepDelegate(e: Event)
      requires Valid() && Linked(View()) && e.Delegate?
      modifies this
      ensures Valid() && Evolves(old(View()), View())
    {
      ghost var a := View();
      EvolvesReflexive(a);
      if e.id !in delegations && e.child !in tasks {
        ghost var contract;
        var ok;
        ok, contract := CreateDelegation(e.id, e.parent, e.child, e.request, e.explicit, e.required, e.summaryRequired);
        if ok {
          DelegatedKeeps(a, e.id, Row(e.parent, e.child, Requested, None), contract);
        }
      }
    }

    method StepStart(e: Event, now: int, sight: Sight)
      requires Valid() && Linked(View()) && e.Start?
      modifies this, leases
      ensures Valid() && Evolves(old(View()), View())
    {
      ghost var a := View();
      EvolvesReflexive(a);
      if e.owner.token !in runs {
        var r := StartDelegation(e.id, e.owner, e.atomic, e.submits, e.dies, now, sight);
        if r == Stale {
          StaleKeeps(a, e.id, e.owner, e.dies, now, sight);
        } else if r in {Submitted, SubmissionFailed} {
          SchedulingKeeps(a, View(), e.id, e.owner, now);
        }
      }
    }

    method StepBegin(e: Event, now: int, sight: Sight)
      requires Valid() && Linked(View()) && (e.ClaimExecution? || e.Begin?)
      modifies this, leases
      ensures Valid() && Evolves(old(View()), View())
    {
      ghost var a := View();
      EvolvesReflexive(a);
      if e.token in runs && runs[e.token].delegation in contracts {
        if e.Begin? {
          var ok := BeginRun(e.token, now);
          if ok {
            BeginningKeeps(a, e.token);
          } else {
            RunsKeep(a, View());
          }
        } else if runs[e.token].stage == Preparing {
          var _ := ClaimChild(e.token, now, e.seconds, sight);
          RunsKeep(a, View());
        }
      }
    }

    method StepWork(e: Event, now: int, sight: Sight)
      requires Valid() && Linked(View()) && e.StartWork?
      modifies this, leases
      ensures Valid() && Evolves(old(View()), View())
    {
      ghost var a := View();
      EvolvesReflexive(a);
      if e.token in runs && runs[e.token].delegation in contracts && runs[e.token].stage == Begun {
        var _ := StartChild(e.token, now, sight);
        StartingKeeps(a, View(), e.token);
      }
    }

    method StepInvoke(e: Event)
      requires Valid() && e.Invoke?
      modifies this
      ensures Valid() && Evolves(old(View()), View())
    {
      ghost var a := View();
      EvolvesReflexive(a);
      if e.token in runs && runs[e.token].stage == Working {
        InvokeExecutor(e.token);
        if a.runs[e.token].cancelled {
          RunsKeep(a, View());
        } else {
          InvokingKeeps(a, View(), e.token);
        }
      }
    }

    /** Cancel signals, ends of runs, and process deaths that take their runs along. */
    method StepSignal(e: Event)
      requires Valid() && Linked(View()) && (e.SignalCancel? || e.EndRun? || e.Exit?)
      modifies this`runs
      ensures Valid() && Evolves(old(View()), View())
      ensures e.Exit? ==> forall t | t in runs :: runs[t].owner.process != e.process
    {
      ghost var a := View();
      EvolvesReflexive(a);
      if e.SignalCancel? {
        if e.token in runs {
          runs := runs[e.token := runs[e.token].(cancelled := true)];
        }
      } else if e.EndRun? {
        runs := runs - {e.token};
      } else {
        runs := map t | t in runs && runs[t].owner.process != e.process :: runs[t];
      }
      RunsKeep(a, View());
    }

    method StepDeliver(e: Event, now: int, sight: Sight)
      requires Valid() && Linked(View()) && e.Deliver?
      modifies this, leases
      ensures Valid() && Evolves(old(View()), View())
    {
      ghost var a := View();
      EvolvesReflexive(a);
      if e.token in runs && runs[e.token].stage == Returned && runs[e.token].delegation in contracts {
        ghost var ending, recorded;
        var ok;
        ending, recorded, ok := DeliverResult(e.token, e.timedOut, e.outcome, now, sight);
        if ok {
          FinishedKeeps(a, a.runs[e.token].delegation, a.runs[e.token].owner, ending, recorded, true, now, sight);
        }
      }
    }

    method StepFinish(e: Event, now: int, sight: Sight)
      requires Valid() && Linked(View()) && WellBehaved(e) && e.FinishAs?
      modifies this, leases
      ensures Valid() && Evolves(old(View()), View())
    {
      ghost var a := View();
      EvolvesReflexive(a);
      if e.id in contracts {
        var outcome := e.outcome.(status := StatusAfter(e.ending));
        var ok := FinishExecution(e.id, e.owner, e.ending, outcome, e.updateChild, now, sight);
        if ok {
          FinishedKeeps(a, e.id, e.owner, e.ending, outcome, e.updateChild, now, sight);
        }
      }
    }

    method StepComplete(e: Event, now: int, sight: Sight)
      requires Valid() && Linked(View()) && e.Complete?
      modifies this, leases
      ensures Valid() && Evolves(old(View()), View())
    {
      ghost var a := View();
      EvolvesReflexive(a);
      var ok := CompleteDelegation(e.id, e.outcome, e.selected, now, sight);
      if ok {
        CompletingKeeps(a, e.id, e.outcome);
      }
    }

    method StepCancel(e: Event)
      requires Valid() && e.RequestCancel?
      modifies this`contracts
      ensures Valid() && Evolves(old(View()), View())
    {
      ghost var a := View();
      EvolvesReflexive(a);
      var ok := RequestCancellation(e.id);
      if ok {
        RequestedKeeps(a, e.id);
      }
    }

    method StepJudge(e: Event)
      requires Valid() && Linked(View()) && e.Judge?
      modifies this`contracts
      ensures Valid() && Evolves(old(View()), View())
    {
      ghost var a := View();
      EvolvesReflexive(a);
      assert e.id in a.contracts ==> Agrees(a, e.id) && Settled(a, e.id);
      var ok := JudgeResult(e.id, e.accept);
      if ok {
        JudgedKeeps(a, e.id, e.accept);
      }
    }

    method StepLease(e: Event, now: int, sight: Sight)
      requires Valid() && (e.ClaimForCancel? || e.RenewLease? || e.DropLease?)
      modifies leases
      ensures Valid() && Evolves(old(View()), View())
    {
      ghost var a := View();
      EvolvesReflexive(a);
      if e.ClaimForCancel? {
        var _ := leases.ClaimInTransaction(LeaseOf(e.id), e.owner, now, 30, None, sight);
      } else if e.RenewLease? {
        var _ := leases.HeartbeatLease(e.key, e.owner, now, e.seconds);
      } else {
        var _ := leases.ReleaseLease(e.key, e.owner, sight);
      }
      RunsKeep(a, View());
    }

    method StepAround(e: Event, now: int, sight: Sight)
      requires Valid() && (e.CreateTask? || e.RecordEvidence? || e.UpdateTask? || e.FailTask? || e.RecoverTask?)
      modifies this`tasks, this`evidence
      ensures Valid() && Evolves(old(View()), View())
    {
      ghost var a := View();
      EvolvesReflexive(a);
      match e {
        case CreateTask(task) =>
          if task !in tasks {
            tasks := tasks[task := Task(TaskPending, "created", false)];
          }
        case RecordEvidence(id, task, kind) =>
          if id !in evidence {
            evidence := evidence[id := Evidence(task, kind)];
          }
        case UpdateTask(task, selected, state, phase) =>
          var _ := WriteTask(task, selected, state, phase, now, sight);
        case FailTask(task, phase) =>
          if task in tasks && !Terminal(tasks[task].state) {
            tasks := tasks[task := Task(TaskFailed, phase, true)];
          }
        case RecoverTask(task, phase) =>
          if MayRecover(leases.rows, tasks, task, sight) {
            tasks := tasks[task := tasks[task].(state := TaskPending, phase := phase)];
          }
      }
      SurroundingsKeep(a, View());
    }
  }
}
