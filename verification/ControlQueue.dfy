/**
 The control queue: enqueueing, attempting, reconciling and recovering
 cancellations over durable tables shared by processes that may die.

 Every method is one transaction.  When it reports failure the source raised, and
 all tables are as they were before.
 */
module ControlQueueModel {
  import opened Wrappers
  import opened Ownership
  import opened Tasks
  import opened CancellationState

  /** Pending controls are taken by priority, then by sequence number. */
  predicate Before(a: Control, b: Control) {
    Priority(a.kind) < Priority(b.kind) || (Priority(a.kind) == Priority(b.kind) && a.seqNo <= b.seqNo)
  }

  datatype Event =
    | CreateTask(task: TaskId)
    | Enqueue(id: ControlId, task: TaskId, kind: ControlKind, request: Option<CancelRequest>)
    | Begin(id: ControlId, owner: Owner, seconds: int)
    | InvokeCallback(id: ControlId)
    | ResolveUnattempted(id: ControlId, owner: Owner)
    | Reconcile(id: ControlId, owner: Owner, ambiguous: bool)
    | Abandon(id: ControlId, owner: Owner)
    | RecoverCancellations(task: TaskId, owner: Owner, seconds: int)
    | ClaimNext(task: TaskId, owner: Owner, seconds: int)
    | Finish(id: ControlId, owner: Owner, success: bool)
    | RecoverProcessing(task: TaskId, owner: Owner, seconds: int)
    | ClaimExecution(task: TaskId, owner: Owner, seconds: int)
    | HeartbeatLease(key: Key, owner: Owner, seconds: int)
    | ReleaseLease(key: Key, owner: Owner)
    | UpdateTask(task: TaskId, selected: Option<Owner>, state: Option<TaskState>, phase: Option<string>)
    | RecoverTask(task: TaskId, newPhase: string)
    | Exit(process: Process)

  /** Each event happens at some time and sees some of the process table. */
  datatype Step = Step(event: Event, now: int, readable: set<Process>)

  /** What the callers in the source are known to pass. */
  predicate WellBehaved(e: Event) {
    match e
    case UpdateTask(_, _, state, phase) => phase == Some(CANCELLATION_RECOVERY_PHASE) ==> state == Some(TaskFailed)
    case RecoverTask(_, phase) => phase != CANCELLATION_RECOVERY_PHASE
    case ReleaseLease(key, _) => key.kind != ControlCancellation && key.kind != TaskExecutionFence
    case _ => true
  }

  ghost predicate IsFirstPending(controls: map<ControlId, Control>, t: TaskId, c: ControlId) {
    && c in controls && controls[c].task == t && controls[c].state == Pending
    && forall d | d in controls && controls[d].task == t && controls[d].state == Pending :: Before(controls[c], controls[d])
  }

  /** A control may be processed once its cancellation, if it has one, is settled. */
  predicate Takeable(db: Db, c: ControlId) {
    && c in db.controls
    && (if c in db.cancellations then db.cancellations[c].state in {Resolved, Ambiguous}
        else db.controls[c].kind !in {Interrupt, Cancel})
  }

  /** In every consistent state only an open cancellation holds its control back. */
  lemma TakenOnceSettled(db: Db, c: ControlId)
    requires Consistent(db)
    ensures Takeable(db, c) <==> c in db.controls && !Unreconciled(db, c)
  {
    if c in db.controls {
      assert ControlInv(db, c);
    }
  }

  /** While a cancel is pending, nothing but a cancel comes first; messages come last. */
  lemma CancelsComeFirst(controls: map<ControlId, Control>, t: TaskId, c: ControlId, d: ControlId)
    requires IsFirstPending(controls, t, c)
    requires d in controls && controls[d].task == t && controls[d].state == Pending
    ensures controls[d].kind == Cancel ==> controls[c].kind == Cancel && controls[c].seqNo <= controls[d].seqNo
    ensures controls[d].kind in {Interrupt, Pause} ==> controls[c].kind in {Cancel, Interrupt, Pause}
    ensures controls[c].kind == Message ==> controls[d].kind == Message && controls[c].seqNo <= controls[d].seqNo
  {
    assert Before(controls[c], controls[d]);
    UrgentFirst();
  }

  predicate PutBack(db: Db, t: TaskId, c: ControlId, owner: Owner, sight: Sight) {
    && c in db.controls && db.controls[c].task == t && db.controls[c].state == Processing
    && Claimable(db.rows, Key(TaskControl, c), owner, None, sight)
  }

  /** A control is put back if it was being processed and nobody who may be alive still
      leases it. */
  lemma PutBackByLease(db: Db, t: TaskId, c: ControlId, owner: Owner, sight: Sight)
    requires c in db.controls && db.controls[c].task == t
    ensures
      var key := Key(TaskControl, c);
      PutBack(db, t, c, owner, sight) <==>
        && db.controls[c].state == Processing
        && (key in db.rows ==> db.rows[key].owner == owner || Reclaimable(db.rows[key], sight))
  {
  }

  /** Every recoverable control of the task outside `rest` is pending again and unleased. */
  ghost predicate PutBackDone(a: Db, b: Db, t: TaskId, rest: set<ControlId>, owner: Owner, sight: Sight) {
    && b == a.(controls := b.controls, rows := b.rows) && b.controls.Keys == a.controls.Keys
    && (forall c | c in a.controls ::
          b.controls[c] == (if c !in rest && PutBack(a, t, c, owner, sight) then a.controls[c].(state := Pending) else a.controls[c]))
    && (forall k: Key ::
          At(b.rows, k) == (if k.kind == TaskControl && k.name !in rest && PutBack(a, t, k.name, owner, sight) then None else At(a.rows, k)))
  }

  lemma PutBackStep(start: Db, a: Db, b: Db, t: TaskId, rest: set<ControlId>, c: ControlId, owner: Owner, sight: Sight)
    requires PutBackDone(start, a, t, rest, owner, sight) && c in rest && c in a.controls
    requires a.controls[c].task == t && a.controls[c].state == Processing
    requires b == if Claimable(a.rows, Key(TaskControl, c), owner, None, sight) then ControlMoved(a, c, Pending) else a
    ensures PutBackDone(start, b, t, rest - {c}, owner, sight)
  {
    var key := Key(TaskControl, c);
    assert At(a.rows, key) == At(start.rows, key);
    assert key in a.rows <==> At(a.rows, key).Some?;
    assert key in start.rows <==> At(start.rows, key).Some?;
  }

  function PutBackAmong(db: Db, t: TaskId, some: set<ControlId>, owner: Owner, sight: Sight): set<ControlId> {
    set c | c in some && PutBack(db, t, c, owner, sight)
  }

  /** The count so far and what is still to be counted make up the whole. */
  predicate PutBackCounting(db: Db, t: TaskId, rest: set<ControlId>, recovered: nat, owner: Owner, sight: Sight) {
    recovered + |PutBackAmong(db, t, rest, owner, sight)| == |PutBackAmong(db, t, db.controls.Keys, owner, sight)|
  }

  ghost predicate InProcess(controls: map<ControlId, Control>, t: TaskId, some: set<ControlId>) {
    some <= controls.Keys && forall c | c in some :: controls[c].task == t && controls[c].state == Processing
  }

  lemma PutBackStart(db: Db, t: TaskId, rest: set<ControlId>, owner: Owner, sight: Sight)
    requires forall c :: c in rest <==> c in db.controls && db.controls[c].task == t && db.controls[c].state == Processing
    ensures PutBackDone(db, db, t, rest, owner, sight)
    ensures PutBackAmong(db, t, rest, owner, sight) == PutBackAmong(db, t, db.controls.Keys, owner, sight)
  {
  }

  lemma PutBackCounts(start: Db, a: Db, t: TaskId, rest: set<ControlId>, c: ControlId, owner: Owner, sight: Sight)
    requires PutBackDone(start, a, t, rest, owner, sight) && c in rest && c in a.controls
    requires a.controls[c].task == t && a.controls[c].state == Processing
    ensures |PutBackAmong(start, t, rest, owner, sight)| ==
      |PutBackAmong(start, t, rest - {c}, owner, sight)| + (if Claimable(a.rows, Key(TaskControl, c), owner, None, sight) then 1 else 0)
  {
    var key := Key(TaskControl, c);
    assert At(a.rows, key) == At(start.rows, key);
    assert key in a.rows <==> At(a.rows, key).Some?;
    assert key in start.rows <==> At(start.rows, key).Some?;
    assert PutBackAmong(start, t, rest - {c}, owner, sight) == PutBackAmong(start, t, rest, owner, sight) - {c};
  }

  lemma ProcessingKeeps(a: Db, b: Db)
    requires Consistent(a) && b == a.(controls := b.controls, rows := b.rows) && b.controls.Keys == a.controls.Keys
    requires forall c | c in a.controls :: (
      && b.controls[c] == a.controls[c].(state := b.controls[c].state)
      && (b.controls[c] != a.controls[c] ==> Takeable(a, c) || a.controls[c].state == Processing))
    requires forall k: Key | k.kind != TaskControl :: k in a.rows <==> k in b.rows
    ensures Consistent(b) && Evolves(a, b)
  {
    forall c | Unreconciled(a, c) ensures c in a.controls && b.controls[c] == a.controls[c] {
      assert CancellationInv(a, c);
    }
    BenignStep(a, b);
  }

  lemma RowsKeep(a: Db, b: Db)
    requires Consistent(a) && b == a.(rows := b.rows)
    requires forall k: Key | k.kind in {ControlCancellation, TaskExecutionFence} :: k in a.rows <==> k in b.rows
    ensures Consistent(b) && Evolves(a, b)
  {
    BenignStep(a, b);
  }

  lemma TasksKeep(a: Db, b: Db)
    requires Consistent(a) && b == a.(tasks := b.tasks) && a.tasks.Keys <= b.tasks.Keys
    requires forall t | t in b.tasks :: b.tasks[t].phase == CANCELLATION_RECOVERY_PHASE ==> b.tasks[t].state == TaskFailed
    requires forall t | t in a.tasks ::
      a.tasks[t].phase == CANCELLATION_RECOVERY_PHASE ==> b.tasks[t].phase == CANCELLATION_RECOVERY_PHASE
    ensures Consistent(b) && Evolves(a, b)
  {
    BenignStep(a, b);
  }

  class ControlQueue {
    const leases: LeaseTable
    var tasks: map<TaskId, Task>
    var controls: map<ControlId, Control>
    var cancellations: map<ControlId, Cancellation>
    /** Volatile: callback workers that were launched and have not yet called. */
    var launched: map<ControlId, Process>
    /** How often each cancellation callback was invoked. */
    var calls: multiset<ControlId>

    ghost function View(): Db
      reads this, leases
    {
      Db(leases.rows, tasks, controls, cancellations)
    }

    ghost predicate Valid()
      reads this, leases
    {
      Consistent(View()) && CallsWithin(calls, launched, cancellations)
    }

    constructor ()
      ensures Valid() && fresh(leases)
      ensures View() == Db(map[], map[], map[], map[]) && launched == map[] && calls == multiset{}
    {
      leases := new LeaseTable();
      tasks, controls, cancellations, launched, calls := map[], map[], map[], map[], multiset{};
    }

    /** A pending control whose cancellation is in the given state. */
    predicate PendingIn(id: ControlId, state: CancelState)
      reads this
    {
      && id in controls && controls[id].state == Pending
      && id in cancellations && cancellations[id].state == state
    }

    // -------------------------------------------------------------- enqueue

    method NextSeqNo(task: TaskId) returns (n: nat)
      ensures IsNextSeqNo(controls, task, n)
    {
      n := 1;
      var rest := controls.Keys;
      while rest != {}
        invariant rest <= controls.Keys && n >= 1
        invariant forall c | c in controls && c !in rest && controls[c].task == task :: controls[c].seqNo < n
        invariant n == 1 || exists c | c in controls && controls[c].task == task :: controls[c].seqNo == n - 1
        decreases |rest|
      {
        var c :| c in rest;
        rest := rest - {c};
        if controls[c].task == task && controls[c].seqNo >= n {
          n := controls[c].seqNo + 1;
        }
      }
    }

    method EnqueueControl(id: ControlId, task: TaskId, kind: ControlKind, request: Option<CancelRequest>,
        now: int, sight: Sight)
      returns (ok: bool, n: nat)
      requires Linked(View()) && id !in controls
      modifies this, leases
      ensures ok <==> Enqueueable(old(View()), id, task, kind, request, sight)
      ensures !ok ==> View() == old(View())
      ensures ok ==>
        && IsNextSeqNo(old(controls), task, n)
        && View() == Enqueued(old(View()), id, Control(task, kind, n, Pending), request,
             Expiry(now, if request.Some? then request.value.seconds else 0))
      ensures ok ==> controls == old(controls)[id := Control(task, kind, n, Pending)] && tasks == old(tasks)
      ensures ok && request.Some? ==>
        && id in cancellations && cancellations == old(cancellations)[id := cancellations[id]]
        && cancellations[id] == Cancellation(cancellations[id].state, request.value.operation, request.value.destructive, 0)
        && cancellations[id].state in {Intent, Resolved}
        && (cancellations[id].state == Intent <==>
              !request.value.ready && (request.value.operation == "" || forall c | c in old(cancellations) && c in old(controls) ::
                old(controls)[c].task == task && old(controls)[c].state in {Pending, Processing} ==>
                  old(cancellations)[c].operation != request.value.operation))
      ensures launched == old(launched) && calls == old(calls)
    {
      n := 0;
      if task !in tasks || (kind in {Cancel, Interrupt} <==> request.None?) {
        return false, n;
      }
      n := NextSeqNo(task);
      ok := true;
      if request.None? {
        controls := controls[id := Control(task, kind, n, Pending)];
      } else {
        var r := request.value;
        var intent := !r.ready;
        if intent && r.operation != "" && AlreadyRequested(Db(map[], tasks, controls, cancellations), task, r.operation) {
          intent := false;
        }
        assert intent == BecomesIntent(old(View()), task, r);
        if intent {
          ok := OwnIntent(id, task, r, now, sight);
          if !ok {
            return;
          }
        }
        controls := controls[id := Control(task, kind, n, Pending)];
        cancellations := cancellations[id :=
          Cancellation(if intent then Intent else Resolved, r.operation, r.destructive, 0)];
      }
    }

    /** Leases a new intent to its owner and raises the execution fence, or neither. */
    method OwnIntent(id: ControlId, task: TaskId, r: CancelRequest, now: int, sight: Sight) returns (ok: bool)
      modifies leases
      ensures ok <==> Ownable(old(leases.rows), id, task, r.owner, sight)
      ensures !ok ==> leases.rows == old(leases.rows)
      ensures ok ==>
        var lease := Lease(r.owner.value, Expiry(now, r.seconds), []);
        leases.rows == old(leases.rows)[LeaseKey(id) := lease][FenceKey(task) := lease]
    {
      if r.owner.None? {
        return false;
      }
      var owner := r.owner.value;
      var saved := leases.rows;
      ok := leases.ClaimInTransaction(LeaseKey(id), owner, now, r.seconds, None, sight);
      if ok && FenceKey(task) in leases.rows && leases.rows[FenceKey(task)].owner.token != owner.token {
        ok := false;
      }
      if ok {
        ok := leases.ClaimInTransaction(FenceKey(task), owner, now, r.seconds, None, sight);
      }
      if !ok {
        leases.rows := saved;
      }
    }

    // -------------------------------------------------------------- attempts

    /** Moves an intent to `attempting`; the caller then launches the one worker. */
    method BeginCancellation(id: ControlId, owner: Owner, now: int, seconds: int, sight: Sight)
      returns (ok: bool)
      requires Linked(View())
      modifies this, leases
      ensures ok <==>
        && old(PendingIn(id, Intent)) && !old(cancellations)[id].destructive
        && Claimable(old(leases.rows), LeaseKey(id), owner, None, sight)
      ensures !ok ==> View() == old(View()) && launched == old(launched)
      ensures ok ==>
        && View() == AttemptBegun(old(View()), id, Lease(owner, Expiry(now, seconds), []))
        && launched == old(launched)[id := owner.process]
        && cancellations[id].state == Attempting && cancellations[id].attempts == old(cancellations)[id].attempts + 1
        && leases.rows == old(leases.rows)[LeaseKey(id) := Lease(owner, Expiry(now, seconds), [])]
      ensures calls == old(calls)
    {
      if id !in controls || id !in cancellations {
        return false;
      }
      if controls[id].state != Pending || cancellations[id].state != Intent {
        return false;
      }
      if cancellations[id].destructive {
        return false;
      }
      var claimed := leases.ClaimInTransaction(LeaseKey(id), owner, now, seconds, None, sight);
      if !claimed {
        return false;
      }
      var x := cancellations[id];
      cancellations := cancellations[id := x.(state := Attempting, attempts := x.attempts + 1)];
      launched := launched[id := owner.process];
      ok := true;
    }

    /** A launched worker calls back once and is then done calling. */
    method CallBack(id: ControlId) returns (called: bool)
      requires Valid()
      modifies this
      ensures Valid() && View() == old(View())
      ensures called <==> id in old(launched)
      ensures calls == if called then old(calls) + multiset{id} else old(calls)
      ensures launched == old(launched) - {id}
      ensures called ==> id in cancellations && calls[id] == cancellations[id].attempts == 1
    {
      called := id in launched;
      if called {
        CallbackAtMostOnce(View(), calls, launched, id);
        assert calls[id] + 1 <= (if id in cancellations then cancellations[id].attempts else 0);
        calls := calls + multiset{id};
      }
      launched := launched - {id};
    }

    method ReleaseFence(task: TaskId, token: Option<string>)
      modifies leases
      ensures View() == FenceReleased(old(View()), task, token)
      ensures FenceKey(task) !in leases.rows <==>
        || FenceKey(task) !in old(leases.rows)
        || (&& (token.None? || old(leases.rows)[FenceKey(task)].owner.token == token.value)
            && forall c :: !UnreconciledIn(old(View()), task, c))
      ensures forall k | k != FenceKey(task) :: At(leases.rows, k) == At(old(leases.rows), k)
    {
      var pending := exists c | c in cancellations ::
        && cancellations[c].state in {Intent, Attempting}
        && c in controls && controls[c].task == task && controls[c].state == Pending;
      assert pending <==> !Quiescent(View(), task);
      if !pending && FenceKey(task) in leases.rows {
        if token.None? || leases.rows[FenceKey(task)].owner.token == token.value {
          leases.rows := leases.rows - {FenceKey(task)};
        }
      }
    }

    method ResolveUnattemptedCancellation(id: ControlId, owner: Owner, now: int) returns (ok: bool)
      requires Linked(View())
      modifies this, leases
      ensures ok <==> old(PendingIn(id, Intent)) && HoldsUnexpired(old(leases.rows), LeaseKey(id), owner, now)
      ensures !ok ==> View() == old(View())
      ensures ok ==> View() == ResolvedOutcome(old(View()), id, Some(owner.token))
      ensures ok ==> FenceLifted(old(View()), View(), id, owner.token) && LeaseKey(id) !in leases.rows
      ensures ok ==> cancellations == old(cancellations)[id := old(cancellations)[id].(state := Resolved)]
      ensures ok ==> controls == old(controls) && tasks == old(tasks)
      ensures launched == old(launched) && calls == old(calls)
    {
      if id !in controls || id !in cancellations {
        return false;
      }
      if controls[id].state != Pending || cancellations[id].state != Intent || !HoldsUnexpired(leases.rows, LeaseKey(id), owner, now) {
        return false;
      }
      cancellations := cancellations[id := cancellations[id].(state := Resolved)];
      leases.rows := leases.rows - {LeaseKey(id)};
      ReleaseFence(controls[id].task, Some(owner.token));
      ResolvingLifts(old(View()), id, owner.token);
      ok := true;
    }

    /** Marks an attempt ambiguous and fails its task for good. */
    method MakeAmbiguous(id: ControlId)
      requires Linked(View()) && id in cancellations
      modifies this, leases
      ensures View() == AmbiguousOutcome(old(View()), id)
      ensures
        var task := old(controls)[id].task;
        && controls == old(controls)
        && cancellations == old(cancellations)[id := old(cancellations)[id].(state := Ambiguous)]
        && tasks == old(tasks)[task := Task(TaskFailed, "cancellation-recovery-required", true)]
        && leases.rows == old(leases.rows) - {LeaseKey(id), FenceKey(task)}
      ensures launched == old(launched) && calls == old(calls)
    {
      var task := controls[id].task;
      cancellations := cancellations[id := cancellations[id].(state := Ambiguous)];
      leases.rows := leases.rows - {LeaseKey(id)};
      tasks := tasks[task := tasks[task].(state := TaskFailed, phase := CANCELLATION_RECOVERY_PHASE, noted := true)];
      leases.rows := leases.rows - {FenceKey(task)};
    }

    method ReconcileCancellation(id: ControlId, owner: Owner, now: int, ambiguous: bool) returns (ok: bool)
      requires Linked(View())
      modifies this, leases
      ensures ok <==>
        && old(PendingIn(id, Attempting)) && HoldsUnexpired(old(leases.rows), LeaseKey(id), owner, now)
        && (ambiguous ==> TaskCanFail(old(View()), id))
      ensures !ok ==> View() == old(View())
      ensures ok && ambiguous ==> View() == AmbiguousOutcome(old(View()), id)
      ensures ok && !ambiguous ==> View() == ResolvedOutcome(old(View()), id, Some(owner.token))
      ensures ok && ambiguous ==> FenceKey(old(controls)[id].task) !in leases.rows
      ensures ok && !ambiguous ==> FenceLifted(old(View()), View(), id, owner.token) && tasks == old(tasks)
      ensures ok ==> LeaseKey(id) !in leases.rows && controls == old(controls)
      ensures ok ==>
        cancellations == old(cancellations)[id := old(cancellations)[id].(state := if ambiguous then Ambiguous else Resolved)]
      ensures launched == old(launched) && calls == old(calls)
    {
      if id !in controls || id !in cancellations {
        return false;
      }
      if controls[id].state != Pending || cancellations[id].state != Attempting || !HoldsUnexpired(leases.rows, LeaseKey(id), owner, now) {
        return false;
      }
      if ambiguous {
        if !CanFail(tasks[controls[id].task]) {
          return false;
        }
        MakeAmbiguous(id);
      } else {
        cancellations := cancellations[id := cancellations[id].(state := Resolved)];
        leases.rows := leases.rows - {LeaseKey(id)};
        ReleaseFence(controls[id].task, Some(owner.token));
        ResolvingLifts(old(View()), id, owner.token);
      }
      ok := true;
    }

    /** Shutdown with the callback still in flight.  Idempotent once ambiguous. */
    method AbandonCancellation(id: ControlId, owner: Owner, sight: Sight) returns (ok: bool)
      requires Linked(View())
      modifies this, leases
      ensures ok <==>
        && id in old(cancellations)
        && (|| old(cancellations)[id].state == Ambiguous
            || (&& old(PendingIn(id, Attempting))
                && Held(old(leases.rows), LeaseKey(id), owner) && OwnerAlive(owner.process, sight)
                && TaskCanFail(old(View()), id)))
      ensures View() ==
        if ok && old(cancellations)[id].state == Attempting then AmbiguousOutcome(old(View()), id) else old(View())
      ensures launched == old(launched) && calls == old(calls)
    {
      if id !in controls || id !in cancellations {
        return false;
      }
      if cancellations[id].state != Ambiguous {
        if controls[id].state != Pending || cancellations[id].state != Attempting
          || LeaseKey(id) !in leases.rows || leases.rows[LeaseKey(id)].owner != owner
          || !OwnerAlive(owner.process, sight) || !CanFail(tasks[controls[id].task]) {
          return false;
        }
        MakeAmbiguous(id);
      }
      ok := true;
    }

    // -------------------------------------------------------------- recovery

    /** What recovery does about one open cancellation.  On failure the caller rolls back. */
    method RecoverRow(id: ControlId, owner: Owner, now: int, seconds: int, sight: Sight) returns (ok: bool, settled: bool)
      requires Linked(View()) && (PendingIn(id, Intent) || PendingIn(id, Attempting))
      modifies this, leases
      ensures
        var verdict := RecoveryVerdict(old(View()), id, owner, now, sight);
        && (ok <==> (verdict == MarkAmbiguous ==> TaskCanFail(old(View()), id)))
        && (settled <==> verdict != Skip)
        && (ok ==> RowRecovered(old(View()), View(), id, owner, now, sight))
      ensures controls == old(controls)
      ensures launched == old(launched) && calls == old(calls)
    {
      var task := controls[id].task;
      ok, settled := true, false;
      if LeaseKey(id) in leases.rows && OwnerAlive(leases.rows[LeaseKey(id)].owner.process, sight) {
        if leases.rows[LeaseKey(id)].expires > now || cancellations[id].state == Intent {
          return;
        }
        settled := true;
        ok := CanFail(tasks[task]);
        if ok {
          MakeAmbiguous(id);
        }
        return;
      }
      settled := leases.ClaimInTransaction(LeaseKey(id), owner, now, seconds, None, sight);
      if !settled {
        return;
      }
      if cancellations[id].state == Intent {
        cancellations := cancellations[id := cancellations[id].(state := Resolved)];
        leases.rows := leases.rows - {LeaseKey(id)};
        ReleaseFence(task, None);
      } else {
        ok := CanFail(tasks[task]);
        if ok {
          MakeAmbiguous(id);
        }
      }
    }

    /** The control of `some` that comes first. */
    method First(some: set<ControlId>) returns (c: ControlId)
      requires some != {} && some <= controls.Keys
      ensures c in some && forall d | d in some :: Before(controls[c], controls[d])
    {
      c :| c in some;
      var rest := some - {c};
      while rest != {}
        invariant c in some && rest <= some
        invariant forall d | d in some && d !in rest :: Before(controls[c], controls[d])
        decreases |rest|
      {
        var d :| d in rest;
        rest := rest - {d};
        if !Before(controls[c], controls[d]) {
          c := d;
        }
      }
    }

    /** The recovery loop, without the rollback. */
    method RecoverRows(task: TaskId, owner: Owner, now: int, seconds: int, sight: Sight) returns (ok: bool, recovered: nat)
      requires Consistent(View())
      modifies this, leases
      ensures ok <==> Recoverable(old(View()), task, owner, now, sight)
      ensures ok ==> UnderWay(old(View()), View(), task, {}, owner, now, sight)
      ensures ok ==> recovered == |Settled(old(View()), task, old(cancellations.Keys), owner, now, sight)|
      ensures controls == old(controls) && launched == old(launched) && calls == old(calls)
    {
      ConsistentIsLinked(View());
      var open := set c | c in cancellations && c in controls && controls[c].task == task
                          && controls[c].state == Pending && cancellations[c].state in {Intent, Attempting};
      RecoveringStart(View(), task, open, owner, now, sight);
      RowsStart(View(), task, open, owner, now, sight);
      AllSettledAreOpen(View(), task, open, owner, now, sight);
      ok, recovered := RecoverOpen(task, open, owner, now, seconds, sight);
    }

    /** Visits the open cancellations until none is left or one cannot be settled. */
    method RecoverOpen(task: TaskId, all: set<ControlId>, owner: Owner, now: int, seconds: int, sight: Sight)
      returns (ok: bool, recovered: nat)
      requires UnderWay(View(), View(), task, all, owner, now, sight)
      requires Counting(View(), task, all, 0, owner, now, sight)
      modifies this, leases
      ensures ok <==> Recoverable(old(View()), task, owner, now, sight)
      ensures ok ==> UnderWay(old(View()), View(), task, {}, owner, now, sight)
      ensures ok ==> Counting(old(View()), task, {}, recovered, owner, now, sight)
      ensures controls == old(controls) && launched == old(launched) && calls == old(calls)
    {
      ghost var before := View();
      var open := all;
      ok, recovered := true, 0;
      while open != {} && ok
        invariant ok ==> UnderWay(before, View(), task, open, owner, now, sight)
        invariant ok ==> Counting(before, task, open, recovered, owner, now, sight)
        invariant !ok ==> !Recoverable(before, task, owner, now, sight)
        invariant controls == before.controls && launched == old(launched) && calls == old(calls)
        decreases |open|
      {
        var c, settled;
        ok, c, settled := RecoverNext(before, task, open, owner, now, seconds, sight);
        open := open - {c};
        if settled {
          recovered := recovered + 1;
        }
      }
      if ok {
        RecoveringDone(before, View(), task, owner, now, sight);
      }
    }

    method RecoverNext(ghost start: Db, task: TaskId, open: set<ControlId>, owner: Owner, now: int, seconds: int, sight: Sight)
      returns (ok: bool, c: ControlId, settled: bool)
      requires UnderWay(start, View(), task, open, owner, now, sight) && open != {}
      modifies this, leases
      ensures c in open && controls == old(controls)
      ensures ok ==> UnderWay(start, View(), task, open - {c}, owner, now, sight)
      ensures |Settled(start, task, open, owner, now, sight)|
        == |Settled(start, task, open - {c}, owner, now, sight)| + (if settled then 1 else 0)
      ensures !ok ==> !Recoverable(start, task, owner, now, sight)
      ensures launched == old(launched) && calls == old(calls)
    {
      c := First(open);
      ghost var mid := View();
      ConsistentIsLinked(mid);
      SameVerdict(start, mid, c, owner, now, sight);
      SettledStep(start, task, open, c, owner, now, sight);
      ok, settled := RecoverRow(c, owner, now, seconds, sight);
      if ok {
        RecoveredOne(start, mid, View(), task, open, c, owner, now, sight);
      } else {
        RecoveringStuck(start, mid, task, open, c, owner, now, sight);
      }
    }

    /** Settles what dead owners left open, one row after the other, and counts it.  It
        never starts an attempt, and it fails as a whole exactly when an outcome is lost on
        a task that already ended some other way. */
    method RecoverCancellationsOf(task: TaskId, owner: Owner, now: int, seconds: int, sight: Sight)
      returns (ok: bool, recovered: nat)
      requires Valid()
      modifies this, leases
      ensures Valid() && Evolves(old(View()), View())
      ensures ok <==> Recoverable(old(View()), task, owner, now, sight)
      ensures !ok ==> View() == old(View()) && recovered == 0
      ensures ok ==> Recovered(old(View()), View(), task, owner, now, sight)
      ensures ok ==> RowsRecovered(old(View()), View(), task, {}, owner, now, sight)
      ensures ok ==> recovered == |Settled(old(View()), task, old(cancellations.Keys), owner, now, sight)|
      ensures launched == old(launched) && calls == old(calls)
    {
      ghost var before := View();
      var savedRows, savedTasks, savedCancellations := leases.rows, tasks, cancellations;
      ok, recovered := RecoverRows(task, owner, now, seconds, sight);
      if ok {
        RecoveringDone(before, View(), task, owner, now, sight);
        RecoveredEvolves(before, View(), task, owner, now, sight);
        EvolvesWithin(before, View(), calls, launched);
      } else {
        recovered := 0;
        leases.rows, tasks, cancellations := savedRows, savedTasks, savedCancellations;
        assert View() == before;
      }
    }

    // -------------------------------------------------------------- processing

    /** Takes the first pending control of the task, unless its cancellation is open. */
    method ClaimNextControl(task: TaskId, owner: Owner, now: int, seconds: int, sight: Sight)
      returns (taken: Option<ControlId>)
      requires Linked(View())
      modifies this, leases
      ensures taken.Some? ==>
        var c := taken.value;
        && IsFirstPending(old(controls), task, c) && Takeable(old(View()), c)
        && Claimable(old(leases.rows), Key(TaskControl, c), owner, None, sight)
        && View() == old(View()).(
             controls := old(controls)[c := old(controls)[c].(state := Processing)],
             rows := old(leases.rows)[Key(TaskControl, c) := Lease(owner, Expiry(now, seconds), [])])
      ensures taken.None? ==> View() == old(View())
      ensures taken.None? ==> !(exists c :: IsFirstPending(old(controls), task, c)) || (exists c ::
        && IsFirstPending(old(controls), task, c)
        && !(Takeable(old(View()), c) && Claimable(old(leases.rows), Key(TaskControl, c), owner, None, sight)))
      ensures launched == old(launched) && calls == old(calls)
    {
      var waiting := set c | c in controls && controls[c].task == task && controls[c].state == Pending;
      if waiting == {} {
        assert forall c | IsFirstPending(controls, task, c) :: c in waiting;
        return None;
      }
      var c := First(waiting);
      assert IsFirstPending(controls, task, c);
      if controls[c].kind in {Interrupt, Cancel} && c !in cancellations {
        return None;
      }
      if c in cancellations && cancellations[c].state !in {Resolved, Ambiguous} {
        return None;
      }
      var claimed := leases.ClaimInTransaction(Key(TaskControl, c), owner, now, seconds, None, sight);
      if !claimed {
        return None;
      }
      controls := controls[c := controls[c].(state := Processing)];
      taken := Some(c);
    }

    method FinishControl(id: ControlId, owner: Owner, now: int, success: bool) returns (ok: bool)
      requires Linked(View())
      modifies this, leases
      ensures ok <==>
        && id in old(controls) && old(controls)[id].state == Processing && Takeable(old(View()), id)
        && HoldsUnexpired(old(leases.rows), Key(TaskControl, id), owner, now)
      ensures View() == if ok then ControlMoved(old(View()), id, if success then Applied else Failed) else old(View())
      ensures ok ==>
        && controls == old(controls)[id := old(controls)[id].(state := if success then Applied else Failed)]
        && leases.rows == old(leases.rows) - {Key(TaskControl, id)}
      ensures launched == old(launched) && calls == old(calls)
    {
      if id !in controls || controls[id].state != Processing {
        return false;
      }
      if controls[id].kind in {Interrupt, Cancel} && id !in cancellations {
        return false;
      }
      if id in cancellations && cancellations[id].state !in {Resolved, Ambiguous} {
        return false;
      }
      var key := Key(TaskControl, id);
      if !HoldsUnexpired(leases.rows, key, owner, now) {
        return false;
      }
      controls := controls[id := controls[id].(state := if success then Applied else Failed)];
      leases.rows := leases.rows - {key};
      ok := true;
    }

    method PutBackOne(c: ControlId, owner: Owner, now: int, seconds: int, sight: Sight) returns (claimed: bool)
      requires c in controls
      modifies this`controls, leases
      ensures claimed <==> Claimable(old(leases.rows), Key(TaskControl, c), owner, None, sight)
      ensures View() == if claimed then ControlMoved(old(View()), c, Pending) else old(View())
    {
      var key := Key(TaskControl, c);
      claimed := leases.ClaimInTransaction(key, owner, now, seconds, None, sight);
      if claimed {
        controls := controls[c := controls[c].(state := Pending)];
        leases.rows := leases.rows - {key};
      }
    }

    method PutBackNext(ghost start: Db, task: TaskId, rest: set<ControlId>, owner: Owner, now: int, seconds: int, sight: Sight)
      returns (c: ControlId, claimed: bool)
      requires rest != {} && InProcess(controls, task, rest)
      requires PutBackDone(start, View(), task, rest, owner, sight)
      modifies this`controls, leases
      ensures c in rest && InProcess(controls, task, rest - {c})
      ensures PutBackDone(start, View(), task, rest - {c}, owner, sight)
      ensures |PutBackAmong(start, task, rest, owner, sight)|
        == |PutBackAmong(start, task, rest - {c}, owner, sight)| + (if claimed then 1 else 0)
    {
      c := First(rest);
      ghost var mid := View();
      claimed := PutBackOne(c, owner, now, seconds, sight);
      PutBackStep(start, mid, View(), task, rest, c, owner, sight);
      PutBackCounts(start, mid, task, rest, c, owner, sight);
    }

    /** Puts back the controls whose lease can be taken over, and counts them; the others
        stay. */
    method RecoverProcessingOf(task: TaskId, owner: Owner, now: int, seconds: int, sight: Sight) returns (recovered: nat)
      requires Linked(View())
      modifies this, leases
      ensures PutBackDone(old(View()), View(), task, {}, owner, sight)
      ensures recovered == |PutBackAmong(old(View()), task, old(controls.Keys), owner, sight)|
      ensures launched == old(launched) && calls == old(calls)
    {
      ghost var before := View();
      var rest := set c | c in controls && controls[c].task == task && controls[c].state == Processing;
      recovered := 0;
      PutBackStart(before, task, rest, owner, sight);
      while rest != {}
        invariant InProcess(controls, task, rest)
        invariant PutBackDone(before, View(), task, rest, owner, sight)
        invariant PutBackCounting(before, task, rest, recovered, owner, sight)
        invariant launched == old(launched) && calls == old(calls)
        decreases |rest|
      {
        var c, claimed := PutBackNext(before, task, rest, owner, now, seconds, sight);
        rest := rest - {c};
        if claimed {
          recovered := recovered + 1;
        }
      }
    }

    // -------------------------------------------------------------- tasks and execution

    method CreateTask(task: TaskId)
      requires task !in tasks
      modifies this
      ensures View() == old(View()).(tasks := old(tasks)[task := Task(TaskPending, "created", false)])
      ensures launched == old(launched) && calls == old(calls)
    {
      tasks := tasks[task := Task(TaskPending, "created", false)];
    }

    method WriteTask(task: TaskId, selected: Option<Owner>, state: Option<TaskState>, phase: Option<string>, now: int, sight: Sight)
      returns (ok: bool)
      modifies this
      ensures ok <==> MayWrite(old(leases.rows), old(tasks), task, selected, state, phase, now, sight)
      ensures View() == if ok then old(View()).(tasks := old(tasks)[task := Written(old(tasks)[task], state, phase)]) else old(View())
      ensures launched == old(launched) && calls == old(calls)
    {
      ok := MayWrite(leases.rows, tasks, task, selected, state, phase, now, sight);
      if ok {
        tasks := tasks[task := Written(tasks[task], state, phase)];
      }
    }

    method RecoverFailedTask(task: TaskId, phase: string, sight: Sight) returns (ok: bool)
      modifies this
      ensures ok <==> MayRecover(old(leases.rows), old(tasks), task, sight)
      ensures View() ==
        if ok then old(View()).(tasks := old(tasks)[task := old(tasks)[task].(state := TaskPending, phase := phase)])
        else old(View())
      ensures launched == old(launched) && calls == old(calls)
    {
      ok := MayRecover(leases.rows, tasks, task, sight);
      if ok {
        tasks := tasks[task := tasks[task].(state := TaskPending, phase := phase)];
      }
    }

    // -------------------------------------------------------------- runs

    /** An execution claim succeeds only on a task with no open cancellation. */
    method ClaimExecutionOf(task: TaskId, owner: Owner, now: int, seconds: int, sight: Sight) returns (claimed: bool)
      requires Valid() && Linked(View())
      modifies leases
      ensures claimed ==> Quiescent(old(View()), task)
      ensures claimed <==>
        && FenceKey(task) !in old(leases.rows)
        && !(task in tasks && tasks[task].phase == "cancellation-recovery-required")
        && (Key(TaskExecution, task) in old(leases.rows) ==>
              || old(leases.rows)[Key(TaskExecution, task)].owner == owner
              || Reclaimable(old(leases.rows)[Key(TaskExecution, task)], sight))
      ensures View() == if claimed then
          old(View()).(rows := old(leases.rows)[Key(TaskExecution, task) := Lease(owner, Expiry(now, seconds), [])])
        else old(View())
    {
      var phase := if task in tasks then Some(tasks[task].phase) else None;
      claimed := leases.ClaimInTransaction(Key(TaskExecution, task), owner, now, seconds, phase, sight);
      if claimed {
        forall c | c in cancellations ensures !UnreconciledIn(old(View()), task, c) {
          if Unreconciled(old(View()), c) {
            OpenCancellationBlocksExecution(old(View()), c, owner, sight);
          }
        }
      }
    }

    /** The end of a process takes its launched workers along. */
    method EndProcess(p: Process)
      requires Valid()
      modifies this
      ensures Valid() && View() == old(View())
      ensures launched.Keys <= old(launched.Keys) && forall c | c in launched :: launched[c] != p
    {
      launched := map c | c in launched && launched[c] != p :: launched[c];
      forall c ensures calls[c] + (if c in launched then 1 else 0)
          <= (if c in cancellations then cancellations[c].attempts else 0) {
        assert calls[c] + (if c in old(launched) then 1 else 0)
            <= (if c in cancellations then cancellations[c].attempts else 0);
      }
    }

    /** Any interleaving of all transactions, callbacks and process exits.  Through it
        all the tables stay consistent, cancellations only move forward, and no callback
        runs twice. */
    method Run(steps: seq<Step>) returns (gone: set<Process>)
      requires Valid() && forall i | 0 <= i < |steps| :: WellBehaved(steps[i].event)
      modifies this, leases
      ensures Valid() && Evolves(old(View()), View())
      ensures forall c :: calls[c] <= 1
    {
      gone := {};
      for n := 0 to |steps|
        invariant Valid() && Evolves(old(View()), View())
      {
        ghost var before := View();
        var e := steps[n].event;
        if e.Exit? {
          gone := gone + {e.process};
          EndProcess(e.process);
        } else {
          Dispatch(e, steps[n].now, Sight(gone, steps[n].readable));
          EvolvesTransitive(old(View()), before, View());
        }
      }
      forall c ensures calls[c] <= 1 {
        CallbackAtMostOnce(View(), calls, launched, c);
      }
    }

    method Dispatch(e: Event, now: int, sight: Sight)
      requires Valid() && !e.Exit? && WellBehaved(e)
      modifies this, leases
      ensures Valid() && Evolves(old(View()), View())
    {
      ConsistentIsLinked(View());
      if e.Enqueue? || e.Begin? || e.InvokeCallback? {
        StepRequest(e, now, sight);
      } else if e.ResolveUnattempted? || e.Reconcile? || e.Abandon? || e.RecoverCancellations? {
        StepOutcome(e, now, sight);
      } else if e.ClaimNext? || e.Finish? || e.RecoverProcessing? {
        StepProcessing(e, now, sight);
      } else {
        StepTask(e, now, sight);
      }
    }

    method StepRequest(e: Event, now: int, sight: Sight)
      requires Valid() && Linked(View()) && (e.Enqueue? || e.Begin? || e.InvokeCallback?)
      modifies this, leases
      ensures Valid() && Evolves(old(View()), View())
    {
      ghost var a := View();
      match e
      case Enqueue(id, task, kind, request) =>
        if id !in controls {
          var ok, n := EnqueueControl(id, task, kind, request, now, sight);
          if ok {
            EnqueuedKeeps(a, id, controls[id], request, Expiry(now, if request.Some? then request.value.seconds else 0), sight);
            EvolvesWithin(a, View(), calls, launched);
          }
        }
      case Begin(id, owner, seconds) =>
        var lease := Lease(owner, Expiry(now, seconds), []);
        var ok := BeginCancellation(id, owner, now, seconds, sight);
        if ok {
          AttemptKeeps(a, id, lease);
          LaunchWithin(a, calls, old(launched), id, lease, owner.process);
        }
      case InvokeCallback(id) =>
        var _ := CallBack(id);
    }

    method StepOutcome(e: Event, now: int, sight: Sight)
      requires Valid() && Linked(View())
      requires e.ResolveUnattempted? || e.Reconcile? || e.Abandon? || e.RecoverCancellations?
      modifies this, leases
      ensures Valid() && Evolves(old(View()), View())
    {
      ghost var a := View();
      match e
      case ResolveUnattempted(id, owner) =>
        var ok := ResolveUnattemptedCancellation(id, owner, now);
        if ok {
          ResolvedKeeps(a, id, Some(owner.token));
          EvolvesWithin(a, View(), calls, launched);
        }
      case Reconcile(id, owner, ambiguous) =>
        var ok := ReconcileCancellation(id, owner, now, ambiguous);
        if ok {
          if ambiguous {
            AmbiguousKeeps(a, id);
          } else {
            ResolvedKeeps(a, id, Some(owner.token));
          }
          EvolvesWithin(a, View(), calls, launched);
        }
      case Abandon(id, owner) =>
        var attempting := id in cancellations && cancellations[id].state == Attempting;
        var ok := AbandonCancellation(id, owner, sight);
        if ok && attempting {
          AmbiguousKeeps(a, id);
          EvolvesWithin(a, View(), calls, launched);
        }
      case RecoverCancellations(task, owner, seconds) =>
        var _, _ := RecoverCancellationsOf(task, owner, now, seconds, sight);
    }

    method StepProcessing(e: Event, now: int, sight: Sight)
      requires Valid() && Linked(View()) && (e.ClaimNext? || e.Finish? || e.RecoverProcessing?)
      modifies this, leases
      ensures Valid() && Evolves(old(View()), View())
    {
      ghost var a := View();
      if e.ClaimNext? {
        var _ := ClaimNextControl(e.task, e.owner, now, e.seconds, sight);
        assert View() == a.(controls := controls, rows := leases.rows);
      } else if e.Finish? {
        var _ := FinishControl(e.id, e.owner, now, e.success);
        assert View() == a.(controls := controls, rows := leases.rows);
      } else {
        var _ := RecoverProcessingOf(e.task, e.owner, now, e.seconds, sight);
        forall k: Key | k.kind != TaskControl ensures k in a.rows <==> k in leases.rows {
          assert At(leases.rows, k) == At(a.rows, k);
        }
      }
      ProcessingKeeps(a, View());
    }

    method StepTask(e: Event, now: int, sight: Sight)
      requires Valid() && Linked(View()) && WellBehaved(e)
      requires e.CreateTask? || e.ClaimExecution? || e.HeartbeatLease? || e.ReleaseLease? || e.UpdateTask? || e.RecoverTask?
      modifies this, leases
      ensures Valid() && Evolves(old(View()), View())
    {
      ghost var a := View();
      if e.ClaimExecution? || e.HeartbeatLease? || e.ReleaseLease? {
        if e.ClaimExecution? {
          var _ := ClaimExecutionOf(e.task, e.owner, now, e.seconds, sight);
        } else if e.HeartbeatLease? {
          var _ := leases.HeartbeatLease(e.key, e.owner, now, e.seconds);
        } else {
          var _ := leases.ReleaseLease(e.key, e.owner, sight);
        }
        RowsKeep(a, View());
      } else {
        if e.CreateTask? {
          if e.task !in tasks {
            CreateTask(e.task);
          }
        } else if e.UpdateTask? {
          var _ := WriteTask(e.task, e.selected, e.state, e.phase, now, sight);
        } else {
          var _ := RecoverFailedTask(e.task, e.newPhase, sight);
        }
        TasksKeep(a, View());
      }
    }
  }

  /** A cancellation of a new task finds nothing in its way. */
  lemma FirstIntent(t: TaskId, c: ControlId, dead: Owner, expires: int, n: nat, sight: Sight)
    ensures
      var db := Db(map[], map[t := Task(TaskPending, "created", false)], map[], map[]);
      var request := Some(CancelRequest(false, "", false, Some(dead), 30));
      var lease := Lease(dead, expires, []);
      && Enqueueable(db, c, t, Interrupt, request, sight)
      && (IsNextSeqNo(db.controls, t, n) ==> n == 1)
      && AttemptBegun(Enqueued(db, c, Control(t, Interrupt, 1, Pending), request, expires), c, lease)
        == CompletedTooEarly(t, c, dead, expires).(tasks := db.tasks)
  {
  }

  /** A task is created and a cancellation of it goes as far as its attempt. */
  method AttemptFirst(t: TaskId, c: ControlId, dead: Owner, now: int) returns (queue: ControlQueue, begun: bool)
    ensures fresh(queue) && fresh(queue.leases) && begun
    ensures queue.View() == CompletedTooEarly(t, c, dead, Expiry(now, 30)).(tasks := map[t := Task(TaskPending, "created", false)])
    ensures queue.launched == map[c := dead.process] && queue.calls == multiset{}
  {
    queue := new ControlQueue();
    var alive := Sight({}, {dead.process});
    queue.CreateTask(t);
    var request := Some(CancelRequest(false, "", false, Some(dead), 30));
    var enqueued, n := queue.EnqueueControl(c, t, Interrupt, request, now, alive);
    FirstIntent(t, c, dead, Expiry(now, 30), n, alive);
    begun := queue.BeginCancellation(c, dead, now, 30, alive);
    begun := enqueued && begun;
  }

  /** Recovery can fail as a whole for good: while an attempt is open its task is marked
      completed, and then the process of the attempt dies.  Whoever recovers is refused. */
  method RecoveryLockedOut(t: TaskId, c: ControlId, dead: Owner, owner: Owner, now: int, later: int, sight: Sight)
    returns (reached: bool, recovered: bool)
    requires dead.process.start != "" && dead.process in sight.gone && dead.process in sight.readable
    ensures reached && !recovered
  {
    var queue, begun := AttemptFirst(t, c, dead, now);
    var written := queue.WriteTask(t, None, Some(TaskCompleted), Some("done"), now, Sight({}, {dead.process}));
    reached := begun && written;
    assert queue.View() == CompletedTooEarly(t, c, dead, Expiry(now, 30));
    RecoveryCanFail(t, c, dead, Expiry(now, 30), owner, later, sight);
    queue.EndProcess(dead.process);
    var settled;
    recovered, settled := queue.RecoverCancellationsOf(t, owner, later, 30, sight);
  }
}
