/**
 The durable state of queued controls and their cancellations, the invariant every
 transaction keeps, and the row updates the transactions are made of.
 */
module CancellationState {
  import opened Wrappers
  import opened Ownership
  import opened Tasks

  type ControlId = string

  datatype ControlKind = Cancel | Interrupt | Pause | Approval | Redirect | Resume | Message

  function Priority(kind: ControlKind): nat {
    match kind
    case Cancel => 0
    case Interrupt => 1
    case Pause => 1
    case Approval => 2
    case Redirect => 3
    case Resume => 3
    case Message => 4
  }

  /** Who is served first, whatever the numbers are. */
  lemma UrgentFirst()
    ensures Priority(Cancel) < Priority(Interrupt) == Priority(Pause) < Priority(Approval)
    ensures Priority(Approval) < Priority(Redirect) == Priority(Resume) < Priority(Message)
  {
  }

  datatype ControlState = Pending | Processing | Applied | Failed

  datatype Control = Control(task: TaskId, kind: ControlKind, seqNo: nat, state: ControlState)

  datatype CancelState = Intent | Attempting | Resolved | Ambiguous

  /** `attempts` counts how often the cancellation entered `attempting`. */
  datatype Cancellation = Cancellation(state: CancelState, operation: string, destructive: bool, attempts: nat)

  datatype Db = Db(
    rows: Rows,
    tasks: map<TaskId, Task>,
    controls: map<ControlId, Control>,
    cancellations: map<ControlId, Cancellation>)

  function LeaseKey(c: ControlId): Key { Key(ControlCancellation, c) }

  function FenceKey(t: TaskId): Key { Key(TaskExecutionFence, t) }

  predicate Unreconciled(db: Db, c: ControlId) {
    c in db.cancellations && db.cancellations[c].state in {Intent, Attempting}
  }

  predicate UnreconciledIn(db: Db, t: TaskId, c: ControlId) {
    Unreconciled(db, c) && c in db.controls && db.controls[c].task == t && db.controls[c].state == Pending
  }

  predicate Quiescent(db: Db, t: TaskId) {
    forall c | c in db.cancellations :: !UnreconciledIn(db, t, c)
  }

  /** Recording an ambiguous outcome must not contradict a terminal task. */
  predicate CanFail(task: Task) {
    Terminal(task.state) ==> task == FailedAmbiguously(task)
  }

  predicate TaskCanFail(db: Db, c: ControlId) {
    c in db.controls && db.controls[c].task in db.tasks && CanFail(db.tasks[db.controls[c].task])
  }

  function FailedAmbiguously(task: Task): Task {
    Task(TaskFailed, CANCELLATION_RECOVERY_PHASE, true)
  }

  /** A task that has not ended can fail, and one that failed just so need not again. */
  lemma FailsUnlessEnded(task: Task)
    ensures CanFail(task) <==>
      task.state in {TaskPending, TaskRunning, TaskPaused} || task == Task(TaskFailed, "cancellation-recovery-required", true)
  {
    assert task.state.TaskPending? || task.state.TaskRunning? || task.state.TaskPaused? || Terminal(task.state);
  }

  /** The foreign keys of the three tables. */
  ghost predicate Linked(db: Db) {
    && db.cancellations.Keys <= db.controls.Keys
    && forall c | c in db.controls :: db.controls[c].task in db.tasks
  }

  // ---------------------------------------------------------------- the invariant

  ghost predicate ControlInv(db: Db, c: ControlId)
    requires c in db.controls
  {
    && db.controls[c].task in db.tasks
    && (db.controls[c].kind in {Cancel, Interrupt} <==> c in db.cancellations)
  }

  ghost predicate CancellationInv(db: Db, c: ControlId)
    requires c in db.cancellations
  {
    && c in db.controls
    && (match db.cancellations[c].state
        case Intent => db.cancellations[c].attempts == 0
        case Resolved => db.cancellations[c].attempts <= 1
        case Attempting => db.cancellations[c].attempts == 1
        case Ambiguous => db.cancellations[c].attempts == 1)
    && (Unreconciled(db, c) ==> db.controls[c].state == Pending)
  }

  ghost predicate Fenced(db: Db, t: TaskId) {
    t in db.tasks && ExecutionFenced(db.rows, t, Some(db.tasks[t].phase))
  }

  ghost predicate SameOperation(db: Db, c: ControlId, d: ControlId)
    requires c in db.cancellations && d in db.cancellations
  {
    && c in db.controls && d in db.controls && db.controls[c].task == db.controls[d].task
    && db.cancellations[c].operation == db.cancellations[d].operation != ""
  }

  ghost predicate Consistent(db: Db) {
    && (forall c | c in db.controls :: ControlInv(db, c))
    && (forall c | c in db.cancellations :: CancellationInv(db, c))
    && (forall c :: LeaseKey(c) in db.rows <==> Unreconciled(db, c))
    && (forall c | Unreconciled(db, c) :: Fenced(db, db.controls[c].task))
    && (forall c, d | Unreconciled(db, c) && Unreconciled(db, d) && SameOperation(db, c, d) :: c == d)
    && (forall t | t in db.tasks :: db.tasks[t].phase == CANCELLATION_RECOVERY_PHASE ==> db.tasks[t].state == TaskFailed)
  }

  /** The only ways a cancellation moves. */
  predicate Moves(a: CancelState, b: CancelState) {
    || a == b
    || a == Intent
    || (a == Attempting && b in {Resolved, Ambiguous})
  }

  /** What never changes, or changes one way only, between two moments of a run. */
  ghost predicate Evolves(a: Db, b: Db) {
    && a.tasks.Keys <= b.tasks.Keys
    && (forall c | c in a.controls ::
          && c in b.controls
          && a.controls[c].task == b.controls[c].task && a.controls[c].kind == b.controls[c].kind)
    && (forall c | c in a.cancellations ::
          && c in b.cancellations
          && Moves(a.cancellations[c].state, b.cancellations[c].state)
          && a.cancellations[c].attempts <= b.cancellations[c].attempts
          && a.cancellations[c].operation == b.cancellations[c].operation)
    && (forall t | t in a.tasks :: a.tasks[t].phase == CANCELLATION_RECOVERY_PHASE ==>
          b.tasks[t].phase == CANCELLATION_RECOVERY_PHASE)
  }

  lemma EvolvesTransitive(a: Db, b: Db, c: Db)
    requires Evolves(a, b) && Evolves(b, c)
    ensures Evolves(a, c)
  {
    forall x | x in a.cancellations
      ensures x in c.cancellations && Moves(a.cancellations[x].state, c.cancellations[x].state)
      ensures a.cancellations[x].attempts <= c.cancellations[x].attempts
      ensures a.cancellations[x].operation == c.cancellations[x].operation
    {
      assert x in b.cancellations;
    }
    forall x | x in a.controls
      ensures x in c.controls && a.controls[x].task == c.controls[x].task && a.controls[x].kind == c.controls[x].kind
    {
      assert x in b.controls;
    }
  }

  function At(rows: Rows, k: Key): Option<Lease> {
    if k in rows then Some(rows[k]) else None
  }

  // ---------------------------------------------------------------- row updates

  /** The fence goes when no cancellation of the task is open; with a token, only if
      the fence carries that token. */
  function FenceReleased(db: Db, t: TaskId, token: Option<string>): Db {
    if Quiescent(db, t) && FenceKey(t) in db.rows
      && (token.None? || db.rows[FenceKey(t)].owner.token == token.value)
    then db.(rows := db.rows - {FenceKey(t)})
    else db
  }

  function ResolvedOutcome(db: Db, c: ControlId, token: Option<string>): Db
    requires c in db.cancellations && c in db.controls
  {
    FenceReleased(
      db.(cancellations := db.cancellations[c := db.cancellations[c].(state := Resolved)],
          rows := db.rows - {LeaseKey(c)}),
      db.controls[c].task, token)
  }

  function AmbiguousOutcome(db: Db, c: ControlId): Db
    requires c in db.cancellations && c in db.controls && db.controls[c].task in db.tasks
  {
    var t := db.controls[c].task;
    db.(cancellations := db.cancellations[c := db.cancellations[c].(state := Ambiguous)],
        tasks := db.tasks[t := FailedAmbiguously(db.tasks[t])],
        rows := db.rows - {LeaseKey(c), FenceKey(t)})
  }

  function AttemptBegun(db: Db, c: ControlId, lease: Lease): Db
    requires c in db.cancellations
  {
    var x := db.cancellations[c];
    db.(cancellations := db.cancellations[c := x.(state := Attempting, attempts := x.attempts + 1)],
        rows := db.rows[LeaseKey(c) := lease])
  }

  function ControlMoved(db: Db, c: ControlId, state: ControlState): Db
    requires c in db.controls
  {
    db.(controls := db.controls[c := db.controls[c].(state := state)],
        rows := db.rows - {Key(TaskControl, c)})
  }

  /** A settled cancellation under a token: the fence of its task goes exactly if nothing
      else of the task is open and the fence carries that token; no other fence moves. */
  ghost predicate FenceLifted(a: Db, b: Db, c: ControlId, token: string)
    requires c in a.controls
  {
    var t := a.controls[c].task;
    && (FenceKey(t) !in b.rows <==>
          || FenceKey(t) !in a.rows
          || ((forall d | d != c :: !UnreconciledIn(a, t, d)) && a.rows[FenceKey(t)].owner.token == token))
    && (FenceKey(t) in b.rows ==> b.rows[FenceKey(t)] == a.rows[FenceKey(t)])
    && (forall u | u != t :: At(b.rows, FenceKey(u)) == At(a.rows, FenceKey(u)))
  }

  lemma ResolvingLifts(db: Db, c: ControlId, token: string)
    requires c in db.cancellations && c in db.controls
    ensures FenceLifted(db, ResolvedOutcome(db, c, Some(token)), c, token)
    ensures forall k: Key | k != LeaseKey(c) && k.kind != TaskExecutionFence ::
      At(ResolvedOutcome(db, c, Some(token)).rows, k) == At(db.rows, k)
  {
    var t := db.controls[c].task;
    var mid := db.(cancellations := db.cancellations[c := db.cancellations[c].(state := Resolved)],
                   rows := db.rows - {LeaseKey(c)});
    forall d ensures UnreconciledIn(mid, t, d) <==> d != c && UnreconciledIn(db, t, d) {
    }
    assert Quiescent(mid, t) <==> forall d | d != c :: !UnreconciledIn(db, t, d) by {
      if Quiescent(mid, t) {
        forall d | d != c ensures !UnreconciledIn(db, t, d) {
          assert d in mid.cancellations ==> !UnreconciledIn(mid, t, d);
        }
      }
    }
  }

  /** A transaction that moves one open cancellation on and fails tasks at most by an
      ambiguous outcome. */
  ghost predicate Rewritten(a: Db, b: Db, c: ControlId) {
    && a.controls == b.controls && a.tasks.Keys == b.tasks.Keys
    && Unreconciled(a, c) && b.cancellations.Keys == a.cancellations.Keys
    && (forall d | d in a.cancellations && d != c :: b.cancellations[d] == a.cancellations[d])
    && b.cancellations[c].operation == a.cancellations[c].operation
    && Moves(a.cancellations[c].state, b.cancellations[c].state)
    && a.cancellations[c].attempts <= b.cancellations[c].attempts
    && (forall t | t in a.tasks :: b.tasks[t] == a.tasks[t] || b.tasks[t] == FailedAmbiguously(a.tasks[t]))
  }

  lemma RewrittenEvolves(a: Db, b: Db, c: ControlId)
    requires Rewritten(a, b, c)
    ensures Evolves(a, b)
    ensures forall d | Unreconciled(b, d) :: Unreconciled(a, d)
  {
  }

  /** Such a transaction keeps the invariant if the leases and fences still fit. */
  lemma CancellationStep(a: Db, b: Db, c: ControlId)
    requires Consistent(a) && Rewritten(a, b, c) && CancellationInv(b, c)
    requires forall d :: LeaseKey(d) in b.rows <==> Unreconciled(b, d)
    requires forall d | Unreconciled(b, d) :: Fenced(b, b.controls[d].task)
    ensures Consistent(b) && Evolves(a, b)
  {
    RewrittenEvolves(a, b, c);
    forall d | d in b.cancellations ensures CancellationInv(b, d) {
      assert CancellationInv(a, d);
    }
    forall d | d in b.controls ensures ControlInv(b, d) {
      assert ControlInv(a, d);
    }
    forall d, e | Unreconciled(b, d) && Unreconciled(b, e) && SameOperation(b, d, e) ensures d == e {
      assert Unreconciled(a, d) && Unreconciled(a, e) && SameOperation(a, d, e);
    }
  }

  lemma ResolvedKeeps(db: Db, c: ControlId, token: Option<string>)
    requires Consistent(db) && Unreconciled(db, c)
    ensures
      var b := ResolvedOutcome(db, c, token);
      Consistent(b) && Evolves(db, b)
  {
    assert CancellationInv(db, c) && ControlInv(db, c);
    var t := db.controls[c].task;
    var mid := db.(cancellations := db.cancellations[c := db.cancellations[c].(state := Resolved)],
                   rows := db.rows - {LeaseKey(c)});
    var b := ResolvedOutcome(db, c, token);
    forall d | Unreconciled(b, d) ensures Fenced(b, b.controls[d].task) {
      assert Unreconciled(db, d) && CancellationInv(db, d) && Fenced(db, db.controls[d].task);
      if b.controls[d].task == t {
        assert UnreconciledIn(mid, t, d);
      }
    }
    CancellationStep(db, b, c);
  }

  /** Even when other cancellations of the task are open: they lose the fence, but the
      recovery phase takes its place for good. */
  lemma AmbiguousKeeps(db: Db, c: ControlId)
    requires Consistent(db) && c in db.cancellations && db.cancellations[c].state == Attempting
    ensures CancellationInv(db, c) && ControlInv(db, c)
    ensures
      var b := AmbiguousOutcome(db, c);
      Consistent(b) && Evolves(db, b)
  {
    assert CancellationInv(db, c) && ControlInv(db, c);
    var b := AmbiguousOutcome(db, c);
    forall d | Unreconciled(b, d) ensures Fenced(b, b.controls[d].task) {
      assert Unreconciled(db, d) && Fenced(db, db.controls[d].task);
    }
    CancellationStep(db, b, c);
  }

  lemma AttemptKeeps(db: Db, c: ControlId, lease: Lease)
    requires Consistent(db) && c in db.cancellations && db.cancellations[c].state == Intent
    ensures
      var b := AttemptBegun(db, c, lease);
      Consistent(b) && Evolves(db, b)
  {
    assert CancellationInv(db, c) && ControlInv(db, c);
    var b := AttemptBegun(db, c, lease);
    forall d | Unreconciled(b, d) ensures Fenced(b, b.controls[d].task) {
      assert Unreconciled(db, d) && Fenced(db, db.controls[d].task);
    }
    CancellationStep(db, b, c);
  }

  /** Transactions that leave cancellations, and the leases that belong to them, alone. */
  lemma BenignStep(a: Db, b: Db)
    requires Consistent(a) && b.cancellations == a.cancellations
    requires b.controls.Keys == a.controls.Keys
    requires forall c | c in a.controls ::
      && b.controls[c].task == a.controls[c].task && b.controls[c].kind == a.controls[c].kind
      && (Unreconciled(a, c) ==> b.controls[c] == a.controls[c])
    requires forall c :: LeaseKey(c) in a.rows <==> LeaseKey(c) in b.rows
    requires forall t :: FenceKey(t) in a.rows <==> FenceKey(t) in b.rows
    requires a.tasks.Keys <= b.tasks.Keys
    requires forall t | t in b.tasks :: b.tasks[t].phase == CANCELLATION_RECOVERY_PHASE ==> b.tasks[t].state == TaskFailed
    requires forall t | t in a.tasks ::
      a.tasks[t].phase == CANCELLATION_RECOVERY_PHASE ==> b.tasks[t].phase == CANCELLATION_RECOVERY_PHASE
    ensures Consistent(b) && Evolves(a, b)
  {
    forall c | c in b.cancellations ensures CancellationInv(b, c) {
      assert CancellationInv(a, c);
    }
    forall c | c in b.controls ensures ControlInv(b, c) {
      assert ControlInv(a, c);
    }
    forall c | Unreconciled(b, c) ensures Fenced(b, b.controls[c].task) {
      assert Unreconciled(a, c) && CancellationInv(a, c) && Fenced(a, a.controls[c].task);
      assert FenceKey(a.controls[c].task) in a.rows ==> FenceKey(a.controls[c].task) in b.rows;
    }
    forall c, d | Unreconciled(b, c) && Unreconciled(b, d) && SameOperation(b, c, d) ensures c == d {
      assert Unreconciled(a, c) && Unreconciled(a, d) && SameOperation(a, c, d);
    }
  }

  // ---------------------------------------------------------------- enqueueing

  /** What accompanies an interrupt or cancel: already settled (`ready`), or an intent. */
  datatype CancelRequest = CancelRequest(ready: bool, operation: string, destructive: bool, owner: Option<Owner>, seconds: int)

  predicate AlreadyRequested(db: Db, t: TaskId, operation: string) {
    exists c | c in db.cancellations ::
      && c in db.controls && db.controls[c].task == t && db.controls[c].state in {Pending, Processing}
      && db.cancellations[c].operation == operation
  }

  /** A second request for an operation that is already being cancelled is settled at once. */
  predicate BecomesIntent(db: Db, t: TaskId, r: CancelRequest) {
    !r.ready && !(r.operation != "" && AlreadyRequested(db, t, r.operation))
  }

  /** The lease and the fence a new intent needs can both be had. */
  predicate Ownable(rows: Rows, c: ControlId, t: TaskId, owner: Option<Owner>, sight: Sight) {
    && owner.Some?
    && Claimable(rows, LeaseKey(c), owner.value, None, sight)
    && (FenceKey(t) in rows ==> rows[FenceKey(t)].owner.token == owner.value.token)
    && Claimable(rows, FenceKey(t), owner.value, None, sight)
  }

  /** Both are there to be had unless somebody who is not proved dead has the lease, or the
      fence is up under another token or by somebody who is not proved dead. */
  lemma OwnedTogether(rows: Rows, c: ControlId, t: TaskId, owner: Owner, sight: Sight)
    ensures Ownable(rows, c, t, Some(owner), sight) <==>
      && (LeaseKey(c) in rows && rows[LeaseKey(c)].owner != owner ==> Reclaimable(rows[LeaseKey(c)], sight))
      && (FenceKey(t) in rows && rows[FenceKey(t)].owner != owner ==>
            rows[FenceKey(t)].owner.token == owner.token && Reclaimable(rows[FenceKey(t)], sight))
    ensures !Ownable(rows, c, t, None, sight)
  {
  }

  predicate Enqueueable(db: Db, c: ControlId, t: TaskId, kind: ControlKind, request: Option<CancelRequest>, sight: Sight) {
    && t in db.tasks
    && (kind in {Cancel, Interrupt} <==> request.Some?)
    && (request.Some? && BecomesIntent(db, t, request.value) ==> Ownable(db.rows, c, t, request.value.owner, sight))
  }

  /** `MAX(seq) + 1` over the controls of the task, 1 if it has none. */
  ghost predicate IsNextSeqNo(controls: map<ControlId, Control>, t: TaskId, n: nat) {
    && (forall c | c in controls && controls[c].task == t :: controls[c].seqNo < n)
    && (n == 1 || exists c | c in controls && controls[c].task == t :: controls[c].seqNo == n - 1)
  }

  function Enqueued(db: Db, c: ControlId, control: Control, request: Option<CancelRequest>, expires: int): Db {
    var t := control.task;
    if request.None? then
      db.(controls := db.controls[c := control])
    else
      var r := request.value;
      var intent := BecomesIntent(db, t, r);
      db.(controls := db.controls[c := control],
          cancellations := db.cancellations[c :=
            Cancellation(if intent then Intent else Resolved, r.operation, r.destructive, 0)],
          rows := if intent && r.owner.Some? then
              db.rows[LeaseKey(c) := Lease(r.owner.value, expires, [])][FenceKey(t) := Lease(r.owner.value, expires, [])]
            else db.rows)
  }

  /** A transaction that adds one control, with or without its cancellation. */
  ghost predicate Added(a: Db, b: Db, c: ControlId) {
    && c !in a.controls && c !in a.cancellations && c in b.controls && b.tasks == a.tasks
    && b.controls == a.controls[c := b.controls[c]]
    && b.cancellations == if c in b.cancellations then a.cancellations[c := b.cancellations[c]] else a.cancellations
  }

  lemma AddedEvolves(a: Db, b: Db, c: ControlId)
    requires Added(a, b, c)
    ensures Evolves(a, b)
    ensures forall d :: Unreconciled(b, d) && d != c <==> Unreconciled(a, d)
  {
  }

  lemma AddedKeeps(a: Db, b: Db, c: ControlId)
    requires Consistent(a) && Added(a, b, c) && ControlInv(b, c)
    requires c in b.cancellations ==> CancellationInv(b, c)
    requires forall d | d != c :: LeaseKey(d) in b.rows <==> LeaseKey(d) in a.rows
    requires LeaseKey(c) in b.rows <==> Unreconciled(b, c)
    requires forall t :: FenceKey(t) in a.rows ==> FenceKey(t) in b.rows
    requires Unreconciled(b, c) ==> Fenced(b, b.controls[c].task)
    requires Unreconciled(b, c) ==> forall d | Unreconciled(a, d) :: !SameOperation(b, c, d) && !SameOperation(b, d, c)
    ensures Consistent(b)
  {
    AddedEvolves(a, b, c);
    forall d | d in b.cancellations ensures CancellationInv(b, d) {
      assert d != c ==> CancellationInv(a, d);
    }
    forall d | d in b.controls ensures ControlInv(b, d) {
      assert d != c ==> ControlInv(a, d);
    }
    forall d | Unreconciled(b, d) ensures Fenced(b, b.controls[d].task) {
      if d != c {
        assert CancellationInv(a, d) && Fenced(a, a.controls[d].task);
        assert FenceKey(a.controls[d].task) in a.rows ==> FenceKey(a.controls[d].task) in b.rows;
      }
    }
    forall d, e | Unreconciled(b, d) && Unreconciled(b, e) && SameOperation(b, d, e) ensures d == e {
      assert d != c && e != c ==> SameOperation(a, d, e);
    }
  }

  lemma EnqueuedKeeps(db: Db, c: ControlId, control: Control, request: Option<CancelRequest>, expires: int, sight: Sight)
    requires Consistent(db) && c !in db.controls && control.state == Pending
    requires Enqueueable(db, c, control.task, control.kind, request, sight)
    ensures
      var b := Enqueued(db, c, control, request, expires);
      Consistent(b) && Evolves(db, b)
  {
    var b := Enqueued(db, c, control, request, expires);
    assert c in db.cancellations ==> CancellationInv(db, c);
    assert LeaseKey(c) in db.rows <==> Unreconciled(db, c);
    if request.Some? && BecomesIntent(db, control.task, request.value) {
      forall d | Unreconciled(db, d) ensures !SameOperation(b, c, d) && !SameOperation(b, d, c) {
        assert CancellationInv(db, d);
      }
    }
    AddedEvolves(db, b, c);
    AddedKeeps(db, b, c);
  }

  // ---------------------------------------------------------------- recovery

  datatype Verdict = Skip | MarkResolved | MarkAmbiguous

  /** What recovery does about one open cancellation; its own lease decides. */
  function RecoveryVerdict(db: Db, c: ControlId, owner: Owner, now: int, sight: Sight): Verdict
    requires c in db.cancellations
  {
    var intent := db.cancellations[c].state == Intent;
    if LeaseKey(c) in db.rows && OwnerAlive(db.rows[LeaseKey(c)].owner.process, sight) then
      if db.rows[LeaseKey(c)].expires > now || intent then Skip else MarkAmbiguous
    else if !Claimable(db.rows, LeaseKey(c), owner, None, sight) then Skip
    else if intent then MarkResolved
    else MarkAmbiguous
  }

  /** What becomes of an open cancellation whose lease is there, by what is known of the
      process that holds it. */
  lemma VerdictByLease(db: Db, c: ControlId, owner: Owner, now: int, sight: Sight)
    requires c in db.cancellations && LeaseKey(c) in db.rows
    ensures
      var lease, intent := db.rows[LeaseKey(c)], db.cancellations[c].state == Intent;
      var alive := lease.owner.process.start != "" && lease.owner.process in sight.readable - sight.gone;
      var free := lease.owner == owner || Reclaimable(lease, sight);
      && (RecoveryVerdict(db, c, owner, now, sight) == Skip <==> if alive then intent || lease.expires > now else !free)
      && (RecoveryVerdict(db, c, owner, now, sight) == MarkResolved <==> intent && !alive && free)
      && (RecoveryVerdict(db, c, owner, now, sight) == MarkAmbiguous <==>
            !intent && if alive then lease.expires <= now else free)
  {
  }

  /** Where recovery of task `t` leaves a cancellation. */
  function RecoveredTo(db: Db, t: TaskId, c: ControlId, owner: Owner, now: int, sight: Sight): Cancellation
    requires c in db.cancellations
  {
    var x := db.cancellations[c];
    if !UnreconciledIn(db, t, c) then x
    else
      match RecoveryVerdict(db, c, owner, now, sight)
      case Skip => x
      case MarkResolved => x.(state := Resolved)
      case MarkAmbiguous => x.(state := Ambiguous)
  }

  lemma SameVerdict(a: Db, b: Db, c: ControlId, owner: Owner, now: int, sight: Sight)
    requires c in a.cancellations && c in b.cancellations && a.cancellations[c] == b.cancellations[c]
    requires At(a.rows, LeaseKey(c)) == At(b.rows, LeaseKey(c))
    ensures RecoveryVerdict(a, c, owner, now, sight) == RecoveryVerdict(b, c, owner, now, sight)
  {
    assert LeaseKey(c) in a.rows <==> At(a.rows, LeaseKey(c)).Some?;
    assert LeaseKey(c) in b.rows <==> At(b.rows, LeaseKey(c)).Some?;
  }

  /** Recovering one row disturbs no other open row. */
  lemma RowFrame(a: Db, b: Db, t: TaskId, c: ControlId, owner: Owner, now: int, sight: Sight)
    requires Linked(a) && UnreconciledIn(a, t, c)
    requires RowRecovered(a, b, c, owner, now, sight)
    ensures b.controls == a.controls && b.cancellations.Keys == a.cancellations.Keys && b.tasks.Keys == a.tasks.Keys
    ensures b.cancellations[c] == RecoveredTo(a, t, c, owner, now, sight)
    ensures forall d | d in a.cancellations && d != c ::
      b.cancellations[d] == a.cancellations[d] && At(b.rows, LeaseKey(d)) == At(a.rows, LeaseKey(d))
    ensures CanFail(b.tasks[t]) <==> CanFail(a.tasks[t])
  {
  }

  ghost predicate RowRecovered(a: Db, b: Db, c: ControlId, owner: Owner, now: int, sight: Sight)
    requires Linked(a) && c in a.cancellations
  {
    match RecoveryVerdict(a, c, owner, now, sight)
    case Skip => b == a
    case MarkResolved => b == ResolvedOutcome(a, c, None)
    case MarkAmbiguous => TaskCanFail(a, c) && b == AmbiguousOutcome(a, c)
  }

  lemma RowKeeps(a: Db, b: Db, c: ControlId, owner: Owner, now: int, sight: Sight)
    requires Consistent(a) && Linked(a) && Unreconciled(a, c)
    requires RowRecovered(a, b, c, owner, now, sight)
    ensures Consistent(b) && Evolves(a, b)
  {
    match RecoveryVerdict(a, c, owner, now, sight)
    case Skip =>
    case MarkResolved => ResolvedKeeps(a, c, None);
    case MarkAmbiguous => AmbiguousKeeps(a, c);
  }

  /** How far a recovery pass over task `t` has come: `open` is still to be visited. */
  ghost predicate Recovering(start: Db, db: Db, t: TaskId, open: set<ControlId>, owner: Owner, now: int, sight: Sight) {
    && start.controls == db.controls && start.tasks.Keys == db.tasks.Keys
    && open <= start.cancellations.Keys == db.cancellations.Keys
    && (forall c | c in open ::
          && UnreconciledIn(start, t, c)
          && db.cancellations[c] == start.cancellations[c]
          && At(db.rows, LeaseKey(c)) == At(start.rows, LeaseKey(c)))
    && (forall c | c in start.cancellations && c !in open ::
          && db.cancellations[c] == RecoveredTo(start, t, c, owner, now, sight)
          && (UnreconciledIn(start, t, c) && RecoveryVerdict(start, c, owner, now, sight) == MarkAmbiguous ==>
                TaskCanFail(start, c)))
    && (t in start.tasks ==> (CanFail(db.tasks[t]) <==> CanFail(start.tasks[t])))
  }

  lemma RecoveringStart(db: Db, t: TaskId, open: set<ControlId>, owner: Owner, now: int, sight: Sight)
    requires Linked(db) && open <= db.cancellations.Keys
    requires forall c | c in db.cancellations :: c in open <==> UnreconciledIn(db, t, c)
    ensures Recovering(db, db, t, open, owner, now, sight)
  {
  }

  lemma RecoveringStuck(start: Db, a: Db, t: TaskId, open: set<ControlId>, c: ControlId, owner: Owner, now: int, sight: Sight)
    requires Linked(start) && Linked(a) && Recovering(start, a, t, open, owner, now, sight) && c in open
    requires RecoveryVerdict(a, c, owner, now, sight) == MarkAmbiguous && !TaskCanFail(a, c)
    ensures !Recoverable(start, t, owner, now, sight)
  {
    SameVerdict(start, a, c, owner, now, sight);
  }

  /** Recovery of the task succeeds: no outcome is lost on a task that ended otherwise. */
  ghost predicate Recoverable(db: Db, t: TaskId, owner: Owner, now: int, sight: Sight) {
    forall c | c in db.cancellations && UnreconciledIn(db, t, c) ::
      RecoveryVerdict(db, c, owner, now, sight) == MarkAmbiguous ==> TaskCanFail(db, c)
  }

  /** A task completed while its attempt was open, and then the attempt's owner died. */
  function CompletedTooEarly(t: TaskId, c: ControlId, dead: Owner, expires: int): Db {
    Db(map[LeaseKey(c) := Lease(dead, expires, []), FenceKey(t) := Lease(dead, expires, [])],
       map[t := Task(TaskCompleted, "done", false)],
       map[c := Control(t, Interrupt, 1, Pending)],
       map[c := Cancellation(Attempting, "", false, 1)])
  }

  /** Recovery of that task fails as a whole, whoever attempts it and whenever. */
  lemma RecoveryCanFail(t: TaskId, c: ControlId, dead: Owner, expires: int, owner: Owner, now: int, sight: Sight)
    requires dead.process.start != "" && dead.process in sight.gone && dead.process in sight.readable
    ensures Consistent(CompletedTooEarly(t, c, dead, expires))
    ensures !Recoverable(CompletedTooEarly(t, c, dead, expires), t, owner, now, sight)
  {
    var db := CompletedTooEarly(t, c, dead, expires);
    assert Unreconciled(db, c) && UnreconciledIn(db, t, c);
    assert RecoveryVerdict(db, c, owner, now, sight) == MarkAmbiguous;
    assert !TaskCanFail(db, c);
  }

  /** Everything recovery does to the cancellations. */
  ghost predicate Recovered(a: Db, b: Db, t: TaskId, owner: Owner, now: int, sight: Sight) {
    && a.controls == b.controls && b.cancellations.Keys == a.cancellations.Keys
    && forall c | c in a.cancellations :: b.cancellations[c] == RecoveredTo(a, t, c, owner, now, sight)
  }

  // The rows a recovery pass changes besides the cancellations themselves.

  predicate Open(db: Db, t: TaskId, c: ControlId) {
    c in db.cancellations && UnreconciledIn(db, t, c)
  }

  predicate Given(db: Db, t: TaskId, c: ControlId, verdict: Verdict, owner: Owner, now: int, sight: Sight) {
    Open(db, t, c) && RecoveryVerdict(db, c, owner, now, sight) == verdict
  }

  /** Some outcome was lost, among the cancellations already visited. */
  predicate LostOutcome(db: Db, t: TaskId, open: set<ControlId>, owner: Owner, now: int, sight: Sight) {
    exists c | c in db.cancellations :: c !in open && Given(db, t, c, MarkAmbiguous, owner, now, sight)
  }

  /** Every cancellation was settled, and one of them by resolving it. */
  predicate AllSettled(db: Db, t: TaskId, owner: Owner, now: int, sight: Sight) {
    && (exists c | c in db.cancellations :: Given(db, t, c, MarkResolved, owner, now, sight))
    && (forall c | c in db.cancellations :: !Given(db, t, c, Skip, owner, now, sight))
  }

  /** The fence goes with a lost outcome, or once nothing is open any more. */
  predicate FenceGone(db: Db, t: TaskId, open: set<ControlId>, owner: Owner, now: int, sight: Sight) {
    LostOutcome(db, t, open, owner, now, sight) || (open == {} && AllSettled(db, t, owner, now, sight))
  }

  predicate LeaseGone(db: Db, t: TaskId, open: set<ControlId>, c: ControlId, owner: Owner, now: int, sight: Sight) {
    Open(db, t, c) && c !in open && RecoveryVerdict(db, c, owner, now, sight) != Skip
  }

  /** Leases of settled cancellations and the fence go, the task fails with a lost
      outcome, and nothing else changes. */
  ghost predicate RowsRecovered(start: Db, db: Db, t: TaskId, open: set<ControlId>, owner: Owner, now: int, sight: Sight) {
    && (forall c :: At(db.rows, LeaseKey(c)) ==
          (if LeaseGone(start, t, open, c, owner, now, sight) then None else At(start.rows, LeaseKey(c))))
    && (forall u :: At(db.rows, FenceKey(u)) ==
          (if u == t && FenceGone(start, t, open, owner, now, sight) then None else At(start.rows, FenceKey(u))))
    && (forall k: Key | k.kind != ControlCancellation && k.kind != TaskExecutionFence :: At(db.rows, k) == At(start.rows, k))
    && start.tasks.Keys == db.tasks.Keys
    && (forall u | u in start.tasks :: db.tasks[u] ==
          if u == t && LostOutcome(start, t, open, owner, now, sight) then FailedAmbiguously(start.tasks[u]) else start.tasks[u])
  }

  lemma RowsStart(db: Db, t: TaskId, open: set<ControlId>, owner: Owner, now: int, sight: Sight)
    requires forall c :: c in open <==> Open(db, t, c)
    ensures RowsRecovered(db, db, t, open, owner, now, sight)
  {
    assert forall c, v | Given(db, t, c, v, owner, now, sight) :: c in open;
  }

  /** What is open after the visited ones were settled: the rest, and those skipped. */
  lemma StillOpen(start: Db, a: Db, t: TaskId, open: set<ControlId>, d: ControlId, owner: Owner, now: int, sight: Sight)
    requires Linked(start) && Recovering(start, a, t, open, owner, now, sight)
    ensures Open(a, t, d) <==> d in open || Given(start, t, d, Skip, owner, now, sight)
  {
  }

  lemma VisitedOne(start: Db, t: TaskId, open: set<ControlId>, c: ControlId, owner: Owner, now: int, sight: Sight)
    requires c in open && Open(start, t, c)
    ensures LostOutcome(start, t, open - {c}, owner, now, sight) <==>
      LostOutcome(start, t, open, owner, now, sight) || Given(start, t, c, MarkAmbiguous, owner, now, sight)
    ensures forall d :: LeaseGone(start, t, open - {c}, d, owner, now, sight) <==>
      LeaseGone(start, t, open, d, owner, now, sight) || (d == c && !Given(start, t, c, Skip, owner, now, sight))
  {
    if d :| d in start.cancellations && d !in open && Given(start, t, d, MarkAmbiguous, owner, now, sight) {
      assert d !in open - {c};
    }
    if d :| d in start.cancellations && d !in open - {c} && Given(start, t, d, MarkAmbiguous, owner, now, sight) {
      assert d == c || d !in open;
    }
  }

  lemma RowsStep(start: Db, a: Db, b: Db, t: TaskId, open: set<ControlId>, c: ControlId, owner: Owner, now: int, sight: Sight)
    requires Linked(start) && Linked(a) && Recovering(start, a, t, open, owner, now, sight) && c in open
    requires RowsRecovered(start, a, t, open, owner, now, sight)
    requires RowRecovered(a, b, c, owner, now, sight)
    ensures RowsRecovered(start, b, t, open - {c}, owner, now, sight)
  {
    SameVerdict(start, a, c, owner, now, sight);
    var verdict := RecoveryVerdict(a, c, owner, now, sight);
    assert Given(start, t, c, verdict, owner, now, sight);
    if verdict == MarkAmbiguous {
      RowsStepLost(start, a, t, open, c, owner, now, sight);
    } else if verdict == MarkResolved {
      ResolvedFence(start, a, t, open, c, owner, now, sight);
      RowsStepResolved(start, a, t, open, c, owner, now, sight);
    } else {
      RowsStepSkipped(start, a, t, open, c, owner, now, sight);
    }
  }

  lemma RowsStepSkipped(start: Db, a: Db, t: TaskId, open: set<ControlId>, c: ControlId, owner: Owner, now: int, sight: Sight)
    requires c in open && Given(start, t, c, Skip, owner, now, sight)
    requires RowsRecovered(start, a, t, open, owner, now, sight)
    ensures RowsRecovered(start, a, t, open - {c}, owner, now, sight)
  {
    VisitedOne(start, t, open, c, owner, now, sight);
  }

  lemma RowsStepLost(start: Db, a: Db, t: TaskId, open: set<ControlId>, c: ControlId, owner: Owner, now: int, sight: Sight)
    requires Linked(a) && c in open && Given(start, t, c, MarkAmbiguous, owner, now, sight)
    requires c in a.cancellations && a.controls == start.controls
    requires RowsRecovered(start, a, t, open, owner, now, sight)
    ensures RowsRecovered(start, AmbiguousOutcome(a, c), t, open - {c}, owner, now, sight)
  {
    VisitedOne(start, t, open, c, owner, now, sight);
  }

  lemma RowsStepResolved(start: Db, a: Db, t: TaskId, open: set<ControlId>, c: ControlId, owner: Owner, now: int, sight: Sight)
    requires c in open && c in a.cancellations && c in a.controls && a.controls[c].task == t
    requires Given(start, t, c, MarkResolved, owner, now, sight)
    requires
      var mid := a.(cancellations := a.cancellations[c := a.cancellations[c].(state := Resolved)], rows := a.rows - {LeaseKey(c)});
      Quiescent(mid, t) <==> open - {c} == {} && AllSettled(start, t, owner, now, sight)
    requires RowsRecovered(start, a, t, open, owner, now, sight)
    ensures RowsRecovered(start, ResolvedOutcome(a, c, None), t, open - {c}, owner, now, sight)
  {
    VisitedOne(start, t, open, c, owner, now, sight);
  }

  /** Resolving one releases the fence exactly when it was the last to be settled. */
  lemma ResolvedFence(start: Db, a: Db, t: TaskId, open: set<ControlId>, c: ControlId, owner: Owner, now: int, sight: Sight)
    requires Linked(start) && Linked(a) && Recovering(start, a, t, open, owner, now, sight) && c in open
    requires Given(start, t, c, MarkResolved, owner, now, sight)
    ensures
      var mid := a.(cancellations := a.cancellations[c := a.cancellations[c].(state := Resolved)], rows := a.rows - {LeaseKey(c)});
      Quiescent(mid, t) <==> open - {c} == {} && AllSettled(start, t, owner, now, sight)
  {
    var mid := a.(cancellations := a.cancellations[c := a.cancellations[c].(state := Resolved)], rows := a.rows - {LeaseKey(c)});
    forall d ensures Open(mid, t, d) <==> d != c && (d in open || Given(start, t, d, Skip, owner, now, sight)) {
      StillOpen(start, a, t, open, d, owner, now, sight);
    }
    if Quiescent(mid, t) {
      forall d ensures d !in open - {c} && !Given(start, t, d, Skip, owner, now, sight) {
        assert !Open(mid, t, d);
      }
      assert open - {c} == {};
    } else {
      var d :| d in mid.cancellations && UnreconciledIn(mid, t, d);
      assert Open(mid, t, d);
      assert d in open - {c} || Given(start, t, d, Skip, owner, now, sight);
    }
  }

  /** The cancellations recovery settles. */
  function Settled(db: Db, t: TaskId, some: set<ControlId>, owner: Owner, now: int, sight: Sight): set<ControlId> {
    set c | c in some && Open(db, t, c) && RecoveryVerdict(db, c, owner, now, sight) != Skip
  }

  /** The count so far and what is still to be counted make up the whole. */
  predicate Counting(db: Db, t: TaskId, open: set<ControlId>, recovered: nat, owner: Owner, now: int, sight: Sight) {
    recovered + |Settled(db, t, open, owner, now, sight)| == |Settled(db, t, db.cancellations.Keys, owner, now, sight)|
  }

  lemma SettledStep(db: Db, t: TaskId, open: set<ControlId>, c: ControlId, owner: Owner, now: int, sight: Sight)
    requires c in open && Open(db, t, c)
    ensures |Settled(db, t, open, owner, now, sight)| ==
      |Settled(db, t, open - {c}, owner, now, sight)| + (if RecoveryVerdict(db, c, owner, now, sight) == Skip then 0 else 1)
  {
    var rest := Settled(db, t, open, owner, now, sight) - {c};
    assert Settled(db, t, open - {c}, owner, now, sight) == rest;
  }

  lemma AllSettledAreOpen(db: Db, t: TaskId, open: set<ControlId>, owner: Owner, now: int, sight: Sight)
    requires forall c :: c in open <==> Open(db, t, c)
    ensures Settled(db, t, open, owner, now, sight) == Settled(db, t, db.cancellations.Keys, owner, now, sight)
  {
  }

  /** A recovery pass that has kept the invariant so far. */
  ghost predicate UnderWay(start: Db, db: Db, t: TaskId, open: set<ControlId>, owner: Owner, now: int, sight: Sight) {
    && Linked(start) && Consistent(db)
    && Recovering(start, db, t, open, owner, now, sight)
    && RowsRecovered(start, db, t, open, owner, now, sight)
  }

  lemma RecoveringDone(start: Db, db: Db, t: TaskId, owner: Owner, now: int, sight: Sight)
    requires Recovering(start, db, t, {}, owner, now, sight)
    ensures Recoverable(start, t, owner, now, sight) && Recovered(start, db, t, owner, now, sight)
  {
  }

  lemma RecoveredEvolves(start: Db, db: Db, t: TaskId, owner: Owner, now: int, sight: Sight)
    requires Recovered(start, db, t, owner, now, sight)
    requires RowsRecovered(start, db, t, {}, owner, now, sight)
    ensures Evolves(start, db)
  {
  }

  lemma RecoveringStep(start: Db, a: Db, b: Db, t: TaskId, open: set<ControlId>, c: ControlId, owner: Owner, now: int, sight: Sight)
    requires Linked(start) && Linked(a) && Recovering(start, a, t, open, owner, now, sight) && c in open
    requires RowRecovered(a, b, c, owner, now, sight)
    ensures Recovering(start, b, t, open - {c}, owner, now, sight)
  {
    SameVerdict(start, a, c, owner, now, sight);
    RowFrame(a, b, t, c, owner, now, sight);
  }

  /** One visited row keeps a recovery pass under way. */
  lemma RecoveredOne(start: Db, a: Db, b: Db, t: TaskId, open: set<ControlId>, c: ControlId, owner: Owner, now: int, sight: Sight)
    requires UnderWay(start, a, t, open, owner, now, sight) && c in open && Unreconciled(a, c)
    requires Linked(a) && RowRecovered(a, b, c, owner, now, sight)
    ensures UnderWay(start, b, t, open - {c}, owner, now, sight)
  {
    RowKeeps(a, b, c, owner, now, sight);
    RecoveringStep(start, a, b, t, open, c, owner, now, sight);
    RowsStep(start, a, b, t, open, c, owner, now, sight);
  }

  /** No execution claim on a task with an open cancellation succeeds, whoever asks. */
  lemma OpenCancellationBlocksExecution(db: Db, c: ControlId, owner: Owner, sight: Sight)
    requires Consistent(db) && Unreconciled(db, c)
    ensures
      var t := db.controls[c].task;
      !Claimable(db.rows, Key(TaskExecution, t), owner, Some(db.tasks[t].phase), sight)
  {
    assert CancellationInv(db, c) && ControlInv(db, c);
    assert Fenced(db, db.controls[c].task);
  }

  lemma ConsistentIsLinked(db: Db)
    requires Consistent(db)
    ensures Linked(db)
  {
    forall c | c in db.cancellations ensures c in db.controls {
      assert CancellationInv(db, c);
    }
    forall c | c in db.controls ensures db.controls[c].task in db.tasks {
      assert ControlInv(db, c);
    }
  }

  // ---------------------------------------------------------------- callbacks

  /** A launched worker will call at most once, and owes its launch to an attempt. */
  ghost predicate CallsWithin(calls: multiset<ControlId>, launched: map<ControlId, Process>,
                              cancellations: map<ControlId, Cancellation>) {
    forall c ::
      calls[c] + (if c in launched then 1 else 0) <= (if c in cancellations then cancellations[c].attempts else 0)
  }

  /** The cancellation callback of any control runs at most once, and only after its
      attempt began. */
  lemma CallbackAtMostOnce(db: Db, calls: multiset<ControlId>, launched: map<ControlId, Process>, c: ControlId)
    requires Consistent(db) && CallsWithin(calls, launched, db.cancellations)
    ensures calls[c] <= 1
    ensures calls[c] == 1 ==> c !in launched && c in db.cancellations && db.cancellations[c].attempts == 1
    ensures c in db.cancellations && db.cancellations[c].state == Intent ==> calls[c] == 0
  {
    assert c in db.cancellations ==> CancellationInv(db, c);
    assert calls[c] + (if c in launched then 1 else 0)
        <= (if c in db.cancellations then db.cancellations[c].attempts else 0);
  }

  /** A new attempt has room for exactly one worker. */
  lemma LaunchWithin(db: Db, calls: multiset<ControlId>, launched: map<ControlId, Process>, c: ControlId,
                     lease: Lease, worker: Process)
    requires Consistent(db) && CallsWithin(calls, launched, db.cancellations)
    requires c in db.cancellations && db.cancellations[c].state == Intent
    ensures CallsWithin(calls, launched[c := worker], AttemptBegun(db, c, lease).cancellations)
  {
    assert CancellationInv(db, c);
    assert calls[c] + (if c in launched then 1 else 0) <= db.cancellations[c].attempts;
    var after := AttemptBegun(db, c, lease).cancellations;
    forall d ensures calls[d] + (if d in launched[c := worker] then 1 else 0)
        <= (if d in after then after[d].attempts else 0) {
      assert calls[d] + (if d in launched then 1 else 0)
          <= (if d in db.cancellations then db.cancellations[d].attempts else 0);
    }
  }

  /** Attempts never decrease, so the bound survives every transaction. */
  lemma EvolvesWithin(a: Db, b: Db, calls: multiset<ControlId>, launched: map<ControlId, Process>)
    requires Evolves(a, b) && CallsWithin(calls, launched, a.cancellations)
    ensures CallsWithin(calls, launched, b.cancellations)
  {
    forall c ensures calls[c] + (if c in launched then 1 else 0)
        <= (if c in b.cancellations then b.cancellations[c].attempts else 0) {
      assert calls[c] + (if c in launched then 1 else 0)
          <= (if c in a.cancellations then a.cancellations[c].attempts else 0);
    }
  }
}
