/**
 The three records of a delegation - contract, delegation row and child task - the
 executor runs that drive them, and what every transaction keeps.
 */
module DelegationLifecycle {
  import opened Wrappers
  import opened Ownership
  import opened Tasks
  import opened DelegationAuthority

  datatype ContractState =
    | Created | Scheduled | Running | CancellationRequested
    | Completed | Failed | Cancelled | TimedOut | Accepted | Rejected

  predicate Open(s: ContractState) {
    s in {Created, Scheduled, Running, CancellationRequested}
  }

  /** `started` says that `started_at` is set. */
  datatype Contract = Contract(
    scope: Scope, required: set<string>, summaryRequired: bool,
    state: ContractState, started: bool, accepted: Option<bool>)

  datatype RowState = Requested | RowCompleted | RowFailed | RowCancelled

  datatype Status = Success | Partial | StatusFailed | StatusCancelled

  /** `blank` says that the summary is empty once stripped. */
  datatype Outcome = Outcome(status: Status, blank: bool, evidence: seq<string>)

  datatype Row = Row(parent: TaskId, child: TaskId, state: RowState, outcome: Option<Outcome>)

  datatype Evidence = Evidence(task: TaskId, kind: string)

  /** One `start` call on its way from scheduling to the executor and back. */
  datatype Stage = Preparing | Owning | Begun | Working | Returned

  datatype Execution = Execution(delegation: DelegationId, owner: Owner, stage: Stage, cancelled: bool)

  datatype Book = Book(
    rows: Rows,
    tasks: map<TaskId, Task>,
    delegations: map<DelegationId, Row>,
    contracts: map<DelegationId, Contract>,
    evidence: map<string, Evidence>,
    /** Volatile: the runs in flight, by owner token. */
    runs: map<string, Execution>,
    /** How often each delegation's executor was invoked. */
    invoked: multiset<DelegationId>)

  function LeaseOf(d: DelegationId): Key { Key(OtherResource("delegation"), d) }

  /** How an execution is recorded as over. */
  datatype Ending = EndCompleted | EndCancelled | EndTimedOut | EndFailed

  function ContractAfter(e: Ending): ContractState {
    match e
    case EndCompleted => Completed
    case EndCancelled => Cancelled
    case EndTimedOut => TimedOut
    case EndFailed => Failed
  }

  function PhaseAfter(e: Ending): string {
    match e
    case EndCompleted => "delegation-completed"
    case EndCancelled => "delegation-cancelled"
    case EndTimedOut => "delegation-timed_out"
    case EndFailed => "delegation-failed"
  }

  function StatusAfter(e: Ending): Status {
    match e
    case EndCompleted => Success
    case EndCancelled => StatusCancelled
    case EndTimedOut => StatusFailed
    case EndFailed => StatusFailed
  }

  function RowAfter(s: Status): RowState {
    match s
    case Success => RowCompleted
    case Partial => RowCompleted
    case StatusFailed => RowFailed
    case StatusCancelled => RowCancelled
  }

  function TaskAfter(s: Status): TaskState {
    match s
    case Success => TaskCompleted
    case Partial => TaskCompleted
    case StatusFailed => TaskFailed
    case StatusCancelled => TaskCancelled
  }

  /** The one story each ending tells: in the contract, in the row, and in the child task. */
  predicate Ended(e: Ending, c: ContractState, row: RowState, child: TaskState) {
    match e
    case EndCompleted => c == Completed && row == RowCompleted && child == TaskCompleted
    case EndCancelled => c == Cancelled && row == RowCancelled && child == TaskCancelled
    case EndTimedOut => c == TimedOut && row == RowFailed && child == TaskFailed
    case EndFailed => c == Failed && row == RowFailed && child == TaskFailed
  }

  // ---------------------------------------------------------------- invariants

  /** The foreign keys, and the uniqueness of child tasks. */
  ghost predicate Linked(b: Book) {
    && b.contracts.Keys <= b.delegations.Keys
    && (forall d | d in b.delegations :: b.delegations[d].child in b.tasks)
    && OneParent(b.delegations)
  }

  /** No two delegations have the same child task. */
  ghost predicate OneParent(delegations: map<DelegationId, Row>) {
    forall c, d | c in delegations && d in delegations && delegations[c].child == delegations[d].child :: c == d
  }

  ghost predicate Summarized(c: Contract, row: Row) {
    c.summaryRequired ==> row.outcome.Some? && !row.outcome.value.blank
  }

  /** The accepted result names evidence of every required type, all of it the child's own. */
  ghost predicate Evidenced(b: Book, d: DelegationId)
    requires d in b.contracts && d in b.delegations
  {
    && b.delegations[d].outcome.Some?
    && EvidenceFits(b.evidence, b.delegations[d].outcome.value.evidence, b.delegations[d].child, b.contracts[d].required)
  }

  ghost predicate EvidenceFits(evidence: map<string, Evidence>, ids: seq<string>, child: TaskId, required: set<string>) {
    && (forall i | 0 <= i < |ids| :: ids[i] in evidence && evidence[ids[i]].task == child)
    && (forall kind | kind in required :: exists i | 0 <= i < |ids| :: ids[i] in evidence && evidence[ids[i]].kind == kind)
  }

  /** Contract, delegation row and child task tell one story. */
  ghost predicate Agrees(b: Book, d: DelegationId)
    requires d in b.contracts
  {
    && d in b.delegations && b.delegations[d].child in b.tasks
    && var c, row, child := b.contracts[d], b.delegations[d], b.tasks[b.delegations[d].child].state;
    && (c.state in {Completed, Accepted, Rejected} ==> row.state == RowCompleted && child == TaskCompleted && Summarized(c, row))
    && (c.state == Cancelled ==> row.state == RowCancelled && child == TaskCancelled)
    && (c.state in {Failed, TimedOut} ==> row.state == RowFailed)
    && (c.state in {Created, Scheduled} ==> !c.started)
    && c.accepted == (if c.state == Accepted then Some(true) else if c.state == Rejected then Some(false) else None)
    && (c.state == Accepted ==> Evidenced(b, d))
  }

  ghost predicate Settled(b: Book, d: DelegationId)
    requires d in b.delegations
  {
    match b.delegations[d].outcome
    case None => b.delegations[d].state == Requested
    case Some(o) => b.delegations[d].state == RowAfter(o.status)
  }

  ghost predicate Narrow(b: Book, d: DelegationId)
    requires d in b.contracts
  {
    b.contracts[d].scope.parent.Some? ==>
      && b.contracts[d].scope.parent.value in b.contracts
      && Below(b.contracts[d].scope, b.contracts[b.contracts[d].scope.parent.value].scope)
  }

  ghost predicate Consistent(b: Book) {
    && (forall d | d in b.contracts :: Agrees(b, d) && Narrow(b, d))
    && (forall d | d in b.delegations :: Settled(b, d) && b.delegations[d].child in b.tasks)
    && OneParent(b.delegations)
  }

  lemma ConsistentIsLinked(b: Book)
    requires Consistent(b)
    ensures Linked(b)
  {
    forall d | d in b.contracts ensures d in b.delegations {
      assert Agrees(b, d);
    }
  }

  /** A run past its `running` transition, with the executor call still ahead. */
  predicate About(runs: map<string, Execution>, token: string, d: DelegationId) {
    token in runs && runs[token].delegation == d && runs[token].stage in {Begun, Working}
  }

  /** The executor was invoked, or will be by one run in flight: never both. */
  ghost predicate AtMostOnce(b: Book) {
    && (forall d :: b.invoked[d] <= 1)
    && (forall d | b.invoked[d] > 0 :: d in b.contracts && b.contracts[d].started)
    && (forall t, d | About(b.runs, t, d) :: b.invoked[d] == 0 && d in b.contracts && b.contracts[d].started)
    && (forall t, u, d | About(b.runs, t, d) && About(b.runs, u, d) :: t == u)
  }

  // ---------------------------------------------------------------- progress

  /** No way leads back to `scheduled`, and a terminal contract is only judged. */
  predicate Moves(a: ContractState, b: ContractState) {
    || a == b
    || a == Created
    || (a == Scheduled && b != Created)
    || (a == Running && b !in {Created, Scheduled})
    || (a == CancellationRequested && b !in {Created, Scheduled, Running})
    || (a == Completed && b in {Accepted, Rejected})
  }

  ghost predicate ContractEvolves(a: Book, b: Book, d: DelegationId)
    requires d in a.contracts
  {
    && d in b.contracts && Moves(a.contracts[d].state, b.contracts[d].state)
    && b.contracts[d].scope == a.contracts[d].scope && b.contracts[d].required == a.contracts[d].required
    && b.contracts[d].summaryRequired == a.contracts[d].summaryRequired
    && (a.contracts[d].started ==> b.contracts[d].started)
  }

  /** A result, once written, stays; if it was written past an open contract, the
      contract stays open for good. */
  ghost predicate RowEvolves(a: Book, b: Book, d: DelegationId)
    requires d in a.delegations
  {
    && d in b.delegations
    && b.delegations[d].parent == a.delegations[d].parent && b.delegations[d].child == a.delegations[d].child
    && (a.delegations[d].outcome.Some? ==>
          && b.delegations[d] == a.delegations[d]
          && (d in a.contracts && Open(a.contracts[d].state) ==> d in b.contracts && Open(b.contracts[d].state)))
  }

  ghost predicate TaskEvolves(a: Book, b: Book, t: TaskId)
    requires t in a.tasks
  {
    t in b.tasks && (a.tasks[t].state in {TaskCompleted, TaskCancelled} ==> b.tasks[t].state == a.tasks[t].state)
  }

  /** Once started with no run about to call the executor, a delegation is not replayed. */
  ghost predicate NotReplayed(a: Book, b: Book, d: DelegationId)
    requires d in a.contracts
  {
    a.contracts[d].started && (forall t :: !About(a.runs, t, d)) ==>
      (forall t :: !About(b.runs, t, d)) && b.invoked[d] == a.invoked[d]
  }

  ghost predicate RecordsEvolve(a: Book, b: Book) {
    && (forall d | d in a.contracts :: ContractEvolves(a, b, d))
    && (forall d | d in a.delegations :: RowEvolves(a, b, d))
    && (forall t | t in a.tasks :: TaskEvolves(a, b, t))
    && (forall e | e in a.evidence :: e in b.evidence && b.evidence[e] == a.evidence[e])
  }

  ghost predicate Evolves(a: Book, b: Book) {
    RecordsEvolve(a, b) && forall d | d in a.contracts :: NotReplayed(a, b, d)
  }

  lemma EvolvesReflexive(a: Book)
    ensures Evolves(a, a)
  {
  }

  lemma EvolvesTransitive(a: Book, b: Book, c: Book)
    requires Evolves(a, b) && Evolves(b, c)
    ensures Evolves(a, c)
  {
    forall d | d in a.contracts ensures ContractEvolves(a, c, d) && NotReplayed(a, c, d) {
      assert ContractEvolves(a, b, d) && NotReplayed(a, b, d);
      assert ContractEvolves(b, c, d) && NotReplayed(b, c, d);
    }
    forall d | d in a.delegations ensures RowEvolves(a, c, d) {
      assert RowEvolves(a, b, d) && RowEvolves(b, c, d);
      if d in a.contracts {
        assert ContractEvolves(a, b, d);
      }
    }
    forall t | t in a.tasks ensures TaskEvolves(a, c, t) {
      assert TaskEvolves(a, b, t) && TaskEvolves(b, c, t);
    }
  }

  // ---------------------------------------------------------------- authority of the whole book

  /** Along any chain of contracts the ceiling only narrows. */
  lemma AuthorityNarrows(b: Book, chain: seq<DelegationId>, k: nat, a: Action)
    requires Consistent(b) && 0 < k < |chain|
    requires forall i | 0 <= i < |chain| :: chain[i] in b.contracts
    requires forall i | 0 <= i < |chain| - 1 :: b.contracts[chain[i]].scope.parent == Some(chain[i + 1])
    requires Permits(b.contracts[chain[0]].scope, a)
    ensures Permits(b.contracts[chain[k]].scope, a)
    ensures Within(b.contracts[chain[0]].scope.budget, b.contracts[chain[k]].scope.budget)
  {
    var scopes := map d | d in b.contracts :: b.contracts[d].scope;
    forall d | d in scopes && scopes[d].parent.Some?
      ensures scopes[d].parent.value in scopes && Below(scopes[d], scopes[scopes[d].parent.value])
    {
      assert Narrow(b, d);
    }
    AncestorsPermit(scopes, chain, k);
  }

  // ---------------------------------------------------------------- transactions

  /** The execution may be recorded as over: the caller owns the delegation, nothing was
      recorded before, and the child's own truth does not contradict it. */
  predicate Finishable(b: Book, d: DelegationId, owner: Owner, e: Ending, updateChild: bool, now: int, sight: Sight) {
    && HoldsUnexpired(b.rows, LeaseOf(d), owner, now)
    && d in b.contracts && b.contracts[d].state in {Scheduled, Running, CancellationRequested}
    && d in b.delegations && b.delegations[d].state == Requested
    && (updateChild ==>
          var child := b.delegations[d].child;
          && child in b.tasks
          && (if Terminal(b.tasks[child].state) then b.tasks[child].state == TaskAfter(StatusAfter(e))
              else Unfenced(b.rows, child, Some(owner), now, sight)))
  }

  function ChildWritten(tasks: map<TaskId, Task>, child: TaskId, state: TaskState, phase: string): map<TaskId, Task> {
    if child in tasks && !Terminal(tasks[child].state) then tasks[child := tasks[child].(state := state, phase := phase)]
    else tasks
  }

  function Finished(b: Book, d: DelegationId, e: Ending, outcome: Outcome, updateChild: bool): Book
    requires d in b.contracts && d in b.delegations
  {
    b.(contracts := b.contracts[d := b.contracts[d].(state := ContractAfter(e))],
       delegations := b.delegations[d := b.delegations[d].(state := RowAfter(outcome.status), outcome := Some(outcome))],
       tasks := if updateChild then ChildWritten(b.tasks, b.delegations[d].child, TaskAfter(outcome.status), PhaseAfter(e)) else b.tasks,
       rows := b.rows - {LeaseOf(d)})
  }

  /** When an execution can be recorded as over, in terms of the rows alone. */
  lemma FinishesWhen(b: Book, d: DelegationId, owner: Owner, e: Ending, updateChild: bool, now: int, sight: Sight)
    requires Linked(b)
    ensures Finishable(b, d, owner, e, updateChild, now, sight) <==>
      && LeaseOf(d) in b.rows && b.rows[LeaseOf(d)].owner.token == owner.token && b.rows[LeaseOf(d)].expires > now
      && d in b.contracts && b.contracts[d].state in {Scheduled, Running, CancellationRequested}
      && b.delegations[d].state == Requested
      && (updateChild ==>
            var child := b.tasks[b.delegations[d].child].state;
            if child in {TaskCompleted, TaskFailed, TaskCancelled} then Ended(e, ContractAfter(e), RowAfter(StatusAfter(e)), child)
            else Unfenced(b.rows, b.delegations[d].child, Some(owner), now, sight))
  {
  }

  /** Recording an ending tells its story in all three records, drops the lease and writes
      the ending into the phase of a child that had not ended. */
  lemma FinishedTells(b: Book, d: DelegationId, owner: Owner, e: Ending, outcome: Outcome, updateChild: bool, now: int, sight: Sight)
    requires Linked(b) && Finishable(b, d, owner, e, updateChild, now, sight) && outcome.status == StatusAfter(e)
    ensures
      var a, t := Finished(b, d, e, outcome, updateChild), b.delegations[d].child;
      && Ended(e, a.contracts[d].state, a.delegations[d].state, TaskAfter(outcome.status))
      && (updateChild ==> a.tasks[t].state == TaskAfter(outcome.status))
      && (!updateChild ==> a.tasks == b.tasks)
      && (updateChild && b.tasks[t].state in {TaskPending, TaskRunning, TaskPaused} ==>
            a.tasks[t].phase ==
              match e
              case EndCompleted => "delegation-completed"
              case EndCancelled => "delegation-cancelled"
              case EndTimedOut => "delegation-timed_out"
              case EndFailed => "delegation-failed")
      && a.delegations[d].outcome == Some(outcome) && a.rows == b.rows - {LeaseOf(d)}
      && (forall x | x in b.contracts && x != d :: a.contracts[x] == b.contracts[x])
      && (forall x | x in b.delegations && x != d :: a.delegations[x] == b.delegations[x])
  {
  }

  /** What a transaction does about one delegation, leaving the others alone. */
  ghost predicate Touches(a: Book, b: Book, d: DelegationId) {
    && a.contracts.Keys == b.contracts.Keys && a.delegations.Keys == b.delegations.Keys
    && (forall x | x in a.contracts && x != d :: b.contracts[x] == a.contracts[x])
    && (forall x | x in a.delegations && x != d :: b.delegations[x] == a.delegations[x])
    && (forall t | t in a.tasks :: TaskEvolves(a, b, t))
    && (forall e | e in a.evidence :: e in b.evidence && b.evidence[e] == a.evidence[e])
  }

  lemma OthersAgree(a: Book, b: Book, d: DelegationId, x: DelegationId)
    requires Consistent(a) && Touches(a, b, d) && x != d && x in a.contracts
    ensures Agrees(b, x)
  {
    assert Agrees(a, x) && TaskEvolves(a, b, a.delegations[x].child);
    if a.contracts[x].state == Accepted {
      EvidenceGrows(a.evidence, b.evidence, a.delegations[x].outcome.value.evidence, a.delegations[x].child, a.contracts[x].required);
    }
  }

  lemma OneParentKeeps(a: map<DelegationId, Row>, b: map<DelegationId, Row>)
    requires OneParent(a) && a.Keys == b.Keys && forall d | d in a :: b[d].child == a[d].child
    ensures OneParent(b)
  {
  }

  lemma TouchSettles(a: Book, b: Book, d: DelegationId)
    requires Consistent(a) && Touches(a, b, d)
    requires d in a.delegations ==> RowEvolves(a, b, d) && Settled(b, d)
    ensures forall x | x in b.delegations :: Settled(b, x) && b.delegations[x].child in b.tasks
    ensures OneParent(b.delegations)
  {
    forall x | x in b.delegations ensures Settled(b, x) && b.delegations[x].child in b.tasks {
      assert Settled(a, x) && TaskEvolves(a, b, a.delegations[x].child);
    }
    OneParentKeeps(a.delegations, b.delegations);
  }

  lemma TouchAgrees(a: Book, b: Book, d: DelegationId)
    requires Consistent(a) && Touches(a, b, d)
    requires d in a.contracts ==> ContractEvolves(a, b, d) && Agrees(b, d)
    ensures forall x | x in b.contracts :: Agrees(b, x) && Narrow(b, x)
  {
    forall x | x in b.contracts ensures Agrees(b, x) && Narrow(b, x) {
      assert Narrow(a, x);
      ScopesStay(a, b, x);
      if x != d {
        OthersAgree(a, b, d, x);
      }
    }
  }

  /** Scopes are fixed at creation, so a child stays below its parent. */
  lemma ScopesStay(a: Book, b: Book, x: DelegationId)
    requires x in a.contracts && Narrow(a, x) && a.contracts.Keys == b.contracts.Keys
    requires forall y | y in a.contracts :: b.contracts[y].scope == a.contracts[y].scope
    ensures Narrow(b, x)
  {
  }

  /** A transaction on one delegation need only be checked there. */
  lemma TouchKeeps(a: Book, b: Book, d: DelegationId)
    requires Consistent(a) && Touches(a, b, d)
    requires d in a.delegations ==> RowEvolves(a, b, d) && Settled(b, d)
    requires d in a.contracts ==> ContractEvolves(a, b, d) && Agrees(b, d)
    ensures Consistent(b)
  {
    TouchSettles(a, b, d);
    TouchAgrees(a, b, d);
  }

  /** Such a transaction moves the book forward if it does so there. */
  lemma TouchEvolves(a: Book, b: Book, d: DelegationId)
    requires Consistent(a) && Touches(a, b, d)
    requires d in a.delegations ==> RowEvolves(a, b, d)
    requires d in a.contracts ==> ContractEvolves(a, b, d)
    ensures RecordsEvolve(a, b)
  {
  }

  /** No run comes closer to the executor, and none calls it. */
  lemma QuietKeeps(a: Book, b: Book)
    requires AtMostOnce(a) && b.invoked == a.invoked
    requires forall t, d :: About(b.runs, t, d) ==> About(a.runs, t, d)
    requires forall d | d in a.contracts :: d in b.contracts && (a.contracts[d].started ==> b.contracts[d].started)
    ensures AtMostOnce(b) && forall d | d in a.contracts :: NotReplayed(a, b, d)
  {
  }

  lemma SameRecords(a: Book, b: Book)
    requires Consistent(a) && b == a.(rows := b.rows, runs := b.runs, invoked := b.invoked)
    ensures Consistent(b) && RecordsEvolve(a, b)
  {
    forall x | x in b.contracts ensures Agrees(b, x) && Narrow(b, x) {
      assert Agrees(a, x) && Narrow(a, x);
    }
    forall x | x in b.delegations ensures Settled(b, x) && b.delegations[x].child in b.tasks {
      assert Settled(a, x);
    }
  }

  lemma EvidenceGrows(a: map<string, Evidence>, b: map<string, Evidence>, ids: seq<string>, child: TaskId, required: set<string>)
    requires EvidenceFits(a, ids, child, required)
    requires forall e | e in a :: e in b && b[e] == a[e]
    ensures EvidenceFits(b, ids, child, required)
  {
    forall kind | kind in required ensures exists i | 0 <= i < |ids| :: ids[i] in b && b[ids[i]].kind == kind {
      var i :| 0 <= i < |ids| && ids[i] in a && a[ids[i]].kind == kind;
    }
  }

  lemma FinishedKeeps(a: Book, d: DelegationId, owner: Owner, e: Ending, outcome: Outcome, updateChild: bool, now: int, sight: Sight)
    requires Consistent(a) && AtMostOnce(a) && Finishable(a, d, owner, e, updateChild, now, sight)
    requires outcome.status == StatusAfter(e) && (updateChild || e in {EndTimedOut, EndFailed})
    requires e == EndCompleted ==> !(a.contracts[d].summaryRequired && outcome.blank)
    ensures
      var b := Finished(a, d, e, outcome, updateChild);
      Consistent(b) && AtMostOnce(b) && Evolves(a, b)
  {
    var b := Finished(a, d, e, outcome, updateChild);
    assert Settled(a, d) && Agrees(a, d);
    FinishedThere(a, d, owner, e, outcome, updateChild, now, sight);
    TouchKeeps(a, b, d);
    TouchEvolves(a, b, d);
    QuietKeeps(a, b);
  }

  lemma FinishedThere(a: Book, d: DelegationId, owner: Owner, e: Ending, outcome: Outcome, updateChild: bool, now: int, sight: Sight)
    requires d in a.delegations && Settled(a, d) && d in a.contracts && Agrees(a, d) && Finishable(a, d, owner, e, updateChild, now, sight)
    requires outcome.status == StatusAfter(e) && (updateChild || e in {EndTimedOut, EndFailed})
    requires e == EndCompleted ==> !(a.contracts[d].summaryRequired && outcome.blank)
    ensures
      var b := Finished(a, d, e, outcome, updateChild);
      Touches(a, b, d) && RowEvolves(a, b, d) && Settled(b, d) && ContractEvolves(a, b, d) && Agrees(b, d)
  {
    var b := Finished(a, d, e, outcome, updateChild);
    FinishedAgrees(a, d, owner, e, outcome, updateChild, now, sight);
    ChildEvolves(a, b, a.delegations[d].child, TaskAfter(outcome.status), PhaseAfter(e));
  }

  /** The ending written to all three records is one and the same. */
  lemma FinishedAgrees(a: Book, d: DelegationId, owner: Owner, e: Ending, outcome: Outcome, updateChild: bool, now: int, sight: Sight)
    requires d in a.contracts && Agrees(a, d) && Finishable(a, d, owner, e, updateChild, now, sight)
    requires outcome.status == StatusAfter(e) && (updateChild || e in {EndTimedOut, EndFailed})
    requires e == EndCompleted ==> !(a.contracts[d].summaryRequired && outcome.blank)
    ensures Agrees(Finished(a, d, e, outcome, updateChild), d)
  {
  }

  lemma ChildEvolves(a: Book, b: Book, child: TaskId, state: TaskState, phase: string)
    requires b.tasks == a.tasks || b.tasks == ChildWritten(a.tasks, child, state, phase)
    ensures forall t | t in a.tasks :: TaskEvolves(a, b, t)
  {
  }

  function Completing(a: Book, d: DelegationId, outcome: Outcome): Book
    requires d in a.delegations
  {
    a.(delegations := a.delegations[d := a.delegations[d].(state := RowAfter(outcome.status), outcome := Some(outcome))],
       tasks := ChildWritten(a.tasks, a.delegations[d].child, TaskAfter(outcome.status), "delegation-complete"))
  }

  /** A result can be recorded past an open contract, which it then strands. */
  lemma CompletingKeeps(a: Book, d: DelegationId, outcome: Outcome)
    requires Consistent(a) && AtMostOnce(a) && d in a.delegations && a.delegations[d].state == Requested
    ensures
      var b := Completing(a, d, outcome);
      Consistent(b) && AtMostOnce(b) && Evolves(a, b)
  {
    var b := Completing(a, d, outcome);
    assert Settled(a, d) && (d in a.contracts ==> Agrees(a, d));
    CompletingThere(a, d, outcome);
    TouchKeeps(a, b, d);
    TouchEvolves(a, b, d);
    QuietKeeps(a, b);
  }

  lemma CompletingThere(a: Book, d: DelegationId, outcome: Outcome)
    requires d in a.delegations && a.delegations[d].state == Requested && Settled(a, d)
    requires d in a.contracts ==> Agrees(a, d)
    ensures
      var b := Completing(a, d, outcome);
      && Touches(a, b, d) && RowEvolves(a, b, d) && Settled(b, d)
      && (d in a.contracts ==> ContractEvolves(a, b, d) && Agrees(b, d))
  {
    ChildEvolves(a, Completing(a, d, outcome), a.delegations[d].child, TaskAfter(outcome.status), "delegation-complete");
  }

  /** A step of the contract's state alone, within what `Moves` and the records allow. */
  lemma StateKeeps(a: Book, b: Book, d: DelegationId)
    requires Consistent(a) && AtMostOnce(a) && d in a.contracts
    requires d in b.contracts && b == a.(contracts := a.contracts[d := b.contracts[d]], rows := b.rows)
    requires ContractEvolves(a, b, d) && Agrees(b, d)
    requires d in a.delegations && a.delegations[d].outcome.Some? && Open(a.contracts[d].state) ==> Open(b.contracts[d].state)
    ensures Consistent(b) && AtMostOnce(b) && Evolves(a, b)
  {
    assert Agrees(a, d) && Settled(a, d);
    TouchKeeps(a, b, d);
    TouchEvolves(a, b, d);
    QuietKeeps(a, b);
  }

  lemma SurroundingsAgree(a: Book, b: Book, x: DelegationId)
    requires Consistent(a) && x in a.contracts && b.contracts == a.contracts && b.delegations == a.delegations
    requires TaskEvolves(a, b, a.delegations[x].child)
    requires forall e | e in a.evidence :: e in b.evidence && b.evidence[e] == a.evidence[e]
    ensures Agrees(b, x) && Narrow(b, x)
  {
    assert Agrees(a, x) && Narrow(a, x);
    if a.contracts[x].state == Accepted {
      EvidenceGrows(a.evidence, b.evidence, a.delegations[x].outcome.value.evidence, a.delegations[x].child, a.contracts[x].required);
    }
  }

  lemma SurroundingsConsistent(a: Book, b: Book)
    requires Consistent(a)
    requires b == a.(rows := b.rows, tasks := b.tasks, evidence := b.evidence)
    requires forall t | t in a.tasks :: TaskEvolves(a, b, t)
    requires forall e | e in a.evidence :: e in b.evidence && b.evidence[e] == a.evidence[e]
    ensures Consistent(b)
  {
    forall x | x in b.contracts ensures Agrees(b, x) && Narrow(b, x) {
      assert Agrees(a, x);
      SurroundingsAgree(a, b, x);
    }
    forall x | x in b.delegations ensures Settled(b, x) && b.delegations[x].child in b.tasks {
      assert Settled(a, x) && TaskEvolves(a, b, a.delegations[x].child);
    }
  }

  /** Task, evidence and lease rows change; the delegations and their runs do not. */
  lemma SurroundingsKeep(a: Book, b: Book)
    requires Consistent(a) && AtMostOnce(a)
    requires b == a.(rows := b.rows, tasks := b.tasks, evidence := b.evidence)
    requires forall t | t in a.tasks :: TaskEvolves(a, b, t)
    requires forall e | e in a.evidence :: e in b.evidence && b.evidence[e] == a.evidence[e]
    ensures Consistent(b) && AtMostOnce(b) && Evolves(a, b)
  {
    SurroundingsConsistent(a, b);
    QuietKeeps(a, b);
  }

  /** Runs are added, ended or signalled without coming closer to the executor. */
  lemma RunsKeep(a: Book, b: Book)
    requires Consistent(a) && AtMostOnce(a) && b == a.(rows := b.rows, runs := b.runs)
    requires forall t, d :: About(b.runs, t, d) ==> About(a.runs, t, d)
    ensures Consistent(b) && AtMostOnce(b) && Evolves(a, b)
  {
    SameRecords(a, b);
    QuietKeeps(a, b);
  }

  /** The `running` transition: it needs a scheduled contract, so it is passed once. */
  function Beginning(a: Book, token: string): Book
    requires token in a.runs && a.runs[token].delegation in a.contracts
  {
    var d := a.runs[token].delegation;
    a.(contracts := a.contracts[d := a.contracts[d].(state := Running, started := true)],
       runs := a.runs[token := a.runs[token].(stage := Begun)])
  }

  lemma BeginningKeeps(a: Book, token: string)
    requires Consistent(a) && AtMostOnce(a) && token in a.runs
    requires a.runs[token].delegation in a.contracts && a.contracts[a.runs[token].delegation].state == Scheduled
    ensures
      var b := Beginning(a, token);
      Consistent(b) && AtMostOnce(b) && Evolves(a, b)
  {
    var d := a.runs[token].delegation;
    var b := Beginning(a, token);
    assert Agrees(a, d) && Settled(a, d);
    BeginningThere(a, token);
    TouchKeeps(a, b, d);
    TouchEvolves(a, b, d);
    BeginsOnce(a, b, token, d);
  }

  lemma BeginningThere(a: Book, token: string)
    requires token in a.runs && a.runs[token].delegation in a.contracts
    requires a.contracts[a.runs[token].delegation].state == Scheduled
    requires Agrees(a, a.runs[token].delegation) && Settled(a, a.runs[token].delegation)
    ensures
      var d, b := a.runs[token].delegation, Beginning(a, token);
      Touches(a, b, d) && RowEvolves(a, b, d) && Settled(b, d) && ContractEvolves(a, b, d) && Agrees(b, d)
  {
  }

  /** A contract not started has no run near its executor, so the beginning run is alone. */
  lemma BeginsOnce(a: Book, b: Book, token: string, d: DelegationId)
    requires AtMostOnce(a) && d in a.contracts && !a.contracts[d].started
    requires token in a.runs && a.runs[token].delegation == d && b.invoked == a.invoked
    requires b.runs == a.runs[token := a.runs[token].(stage := Begun)]
    requires b.contracts == a.contracts[d := a.contracts[d].(state := Running, started := true)]
    ensures AtMostOnce(b) && forall x | x in a.contracts :: NotReplayed(a, b, x)
  {
    forall t, x | About(b.runs, t, x) ensures t == token || (x != d && About(a.runs, t, x)) {
      assert t != token ==> About(a.runs, t, x);
    }
  }

  /** The one call of the executor. */
  lemma InvokingKeeps(a: Book, b: Book, token: string)
    requires Consistent(a) && AtMostOnce(a) && token in a.runs && a.runs[token].stage == Working
    requires b == a.(runs := a.runs[token := a.runs[token].(stage := Returned)],
                     invoked := a.invoked + multiset{a.runs[token].delegation})
    ensures Consistent(b) && AtMostOnce(b) && Evolves(a, b)
  {
    SameRecords(a, b);
    InvokesOnce(a, b, token);
  }

  lemma InvokesOnce(a: Book, b: Book, token: string)
    requires AtMostOnce(a) && token in a.runs && a.runs[token].stage == Working && b.contracts == a.contracts
    requires b.runs == a.runs[token := a.runs[token].(stage := Returned)]
    requires b.invoked == a.invoked + multiset{a.runs[token].delegation}
    ensures AtMostOnce(b) && forall d | d in a.contracts :: NotReplayed(a, b, d)
  {
    var d := a.runs[token].delegation;
    assert About(a.runs, token, d);
    forall t, x | About(b.runs, t, x) ensures About(a.runs, t, x) && x != d {
      assert About(a.runs, t, x);
    }
  }

  /** A new delegation, with its contract if it has one. */
  function Delegated(a: Book, d: DelegationId, row: Row, contract: Option<Contract>): Book {
    a.(tasks := a.tasks[row.child := Task(TaskPending, "delegated", false)],
       delegations := a.delegations[d := row],
       contracts := if contract.Some? then a.contracts[d := contract.value] else a.contracts)
  }

  ghost predicate FreshContract(a: Book, c: Contract) {
    && c.state == Created && !c.started && c.accepted == None
    && (c.scope.parent.Some? ==>
          c.scope.parent.value in a.contracts && Below(c.scope, a.contracts[c.scope.parent.value].scope))
  }

  lemma DelegatedKeeps(a: Book, d: DelegationId, row: Row, contract: Option<Contract>)
    requires Consistent(a) && AtMostOnce(a) && Linked(a)
    requires d !in a.delegations && row.child !in a.tasks && row.state == Requested && row.outcome == None
    requires contract.Some? ==> FreshContract(a, contract.value)
    ensures
      var b := Delegated(a, d, row, contract);
      Consistent(b) && AtMostOnce(b) && Evolves(a, b)
  {
    var b := Delegated(a, d, row, contract);
    OldKeep(a, b);
    DelegatedConsistent(a, d, row, contract);
    QuietKeeps(a, b);
  }

  lemma DelegatedConsistent(a: Book, d: DelegationId, row: Row, contract: Option<Contract>)
    requires Consistent(a) && Linked(a)
    requires d !in a.delegations && row.child !in a.tasks && row.state == Requested && row.outcome == None
    requires contract.Some? ==> FreshContract(a, contract.value)
    ensures Consistent(Delegated(a, d, row, contract))
  {
    var b := Delegated(a, d, row, contract);
    OldKeep(a, b);
    NewFits(a, d, row, contract);
    forall x | x in b.contracts ensures Agrees(b, x) && Narrow(b, x) {
    }
    forall x | x in b.delegations ensures Settled(b, x) && b.delegations[x].child in b.tasks {
    }
  }

  lemma NewFits(a: Book, d: DelegationId, row: Row, contract: Option<Contract>)
    requires Linked(a) && d !in a.delegations && row.state == Requested && row.outcome == None
    requires contract.Some? ==> FreshContract(a, contract.value)
    ensures
      var b := Delegated(a, d, row, contract);
      && Settled(b, d) && row.child in b.tasks
      && (contract.Some? ==> Agrees(b, d) && Narrow(b, d))
  {
  }

  /** New entries do not disturb what is there. */
  lemma OldKeep(a: Book, b: Book)
    requires Consistent(a) && a.evidence == b.evidence
    requires forall x | x in a.contracts :: x in b.contracts && b.contracts[x] == a.contracts[x]
    requires forall x | x in a.delegations :: x in b.delegations && b.delegations[x] == a.delegations[x]
    requires forall t | t in a.tasks :: t in b.tasks && b.tasks[t] == a.tasks[t]
    ensures RecordsEvolve(a, b)
    ensures forall x | x in a.contracts :: Agrees(b, x) && Narrow(b, x)
    ensures forall x | x in a.delegations :: Settled(b, x) && b.delegations[x].child in b.tasks
  {
    forall x | x in a.contracts ensures Agrees(b, x) && Narrow(b, x) && ContractEvolves(a, b, x) {
      assert Agrees(a, x) && Narrow(a, x);
    }
    forall x | x in a.delegations ensures Settled(b, x) && b.delegations[x].child in b.tasks && RowEvolves(a, b, x) {
      assert Settled(a, x);
    }
  }
}
