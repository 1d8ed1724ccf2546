/**
 Approvals and the journal of the actions they permit.  An action is journaled as running
 together with its lease, and a one-call approval is spent in the same transaction.
 */
module ActionJournalModel {
  import opened Wrappers
  import opened Ownership

  type ApprovalId = string
  type ActionId = string

  datatype Scope = Call | TaskScope | SessionScope | Target | Persistent

  datatype ApprovalState = Pending | Approved | Denied | Consumed | Expired

  /** What an action would do, as policy normalised it; equal digests are equal intents. */
  datatype Intent = Intent(authority: string, arguments: string)

  datatype Request = Request(tool: string, target: string, effect: string, intent: Intent,
                             task: Option<string>, session: Option<string>)

  datatype Policy = Allow | Deny | Ask

  datatype Approval = Approval(state: ApprovalState, scope: Scope, request: Request, expires: Option<int>)

  datatype ActionState = Running | Succeeded | Failed | ActionDenied | Cancelled | Unknown

  datatype Action = Action(request: Request, policy: Policy, approval: Option<ApprovalId>, state: ActionState)

  /** An authorised attempt that has not been journaled yet. */
  datatype Attempt = Attempt(request: Request, policy: Policy, approval: Option<ApprovalId>)

  datatype Journal = Journal(
    rows: Rows,
    approvals: map<ApprovalId, Approval>,
    actions: map<ActionId, Action>,
    /** Volatile: attempts between their authorisation and their journal entry. */
    attempts: map<ActionId, Attempt>,
    /** Which approvals were ever granted. */
    granted: set<ApprovalId>)

  function LeaseOf(a: ActionId): Key { Key(OtherResource("action"), a) }

  predicate Past(a: Approval, now: int) {
    a.expires.Some? && a.expires.value <= now
  }

  /** The parts of a match that never change. */
  predicate Fits(a: Approval, r: Request) {
    && a.request.tool == r.tool && a.request.target == r.target && a.request.effect == r.effect
    && (if a.scope == Target then a.request.intent.authority == r.intent.authority else a.request.intent == r.intent)
    && (a.scope == TaskScope ==> a.request.task == r.task)
    && (a.scope == SessionScope ==> a.request.session == r.session)
  }

  predicate Matches(a: Approval, r: Request, now: int) {
    Fits(a, r) && !Past(a, now)
  }

  /** What an approval of each scope is good for, until it is overdue: always one tool, one
      target and one effect; the whole intent unless it is given for the target, and then
      the same authority; the same task or session if it is given for that. */
  lemma MatchesByScope(a: Approval, r: Request, now: int)
    ensures Matches(a, r, now) <==>
      && (match a.expires case None => true case Some(at) => now < at)
      && (a.request.tool, a.request.target, a.request.effect) == (r.tool, r.target, r.effect)
      && match a.scope
         case Target => a.request.intent.authority == r.intent.authority
         case TaskScope => a.request.intent == r.intent && a.request.task == r.task
         case SessionScope => a.request.intent == r.intent && a.request.session == r.session
         case Call => a.request.intent == r.intent
         case Persistent => a.request.intent == r.intent
  {
  }

  predicate Moves(a: ApprovalState, b: ApprovalState) {
    a == b || a == Pending || (a == Approved && b in {Consumed, Expired})
  }

  // ---------------------------------------------------------------- invariants

  /** A permitted action is backed: by policy, or by an approval someone granted for it. */
  ghost predicate Backed(j: Journal, r: Request, policy: Policy, approval: Option<ApprovalId>) {
    match approval
    case None => policy == Allow
    case Some(id) => policy == Ask && id in j.approvals && id in j.granted && Fits(j.approvals[id], r)
  }

  ghost predicate ActionInv(j: Journal, a: ActionId)
    requires a in j.actions
  {
    var x := j.actions[a];
    && (x.state == ActionDenied ==> x.approval == None)
    && (x.state != ActionDenied ==>
          && Backed(j, x.request, x.policy, x.approval)
          && (x.approval.Some? && j.approvals[x.approval.value].scope == Call ==> j.approvals[x.approval.value].state == Consumed))
  }

  ghost predicate Uses(j: Journal, a: ActionId, id: ApprovalId) {
    a in j.actions && j.actions[a].approval == Some(id) && id in j.approvals && j.approvals[id].scope == Call
  }

  ghost predicate Consistent(j: Journal) {
    && (forall a | a in j.actions :: ActionInv(j, a))
    && (forall a | a in j.attempts :: Backed(j, j.attempts[a].request, j.attempts[a].policy, j.attempts[a].approval))
    && (forall id | id in j.approvals && j.approvals[id].state in {Approved, Consumed} :: id in j.granted)
    && (forall a, b, id | Uses(j, a, id) && Uses(j, b, id) :: a == b)
    && (forall a :: LeaseOf(a) in j.rows <==> a in j.actions && j.actions[a].state == Running)
  }

  /** Approvals only move forward, and an action ends once. */
  ghost predicate Evolves(i: Journal, j: Journal) {
    && (forall id | id in i.approvals ::
          && id in j.approvals && Moves(i.approvals[id].state, j.approvals[id].state)
          && j.approvals[id] == i.approvals[id].(state := j.approvals[id].state))
    && (forall a | a in i.actions ::
          && a in j.actions && j.actions[a] == i.actions[a].(state := j.actions[a].state)
          && (i.actions[a].state != Running ==> j.actions[a].state == i.actions[a].state))
    && i.granted <= j.granted
  }

  lemma EvolvesTransitive(i: Journal, j: Journal, k: Journal)
    requires Evolves(i, j) && Evolves(j, k)
    ensures Evolves(i, k)
  {
    forall id | id in i.approvals
      ensures id in k.approvals && Moves(i.approvals[id].state, k.approvals[id].state)
      ensures k.approvals[id] == i.approvals[id].(state := k.approvals[id].state)
    {
      assert id in j.approvals;
    }
    forall a | a in i.actions
      ensures a in k.actions && k.actions[a] == i.actions[a].(state := k.actions[a].state)
      ensures i.actions[a].state != Running ==> k.actions[a].state == i.actions[a].state
    {
      assert a in j.actions;
    }
  }

  // ---------------------------------------------------------------- transactions on values

  function ApprovalMoved(j: Journal, id: ApprovalId, state: ApprovalState): Journal
    requires id in j.approvals
  {
    j.(approvals := j.approvals[id := j.approvals[id].(state := state)],
       granted := if state == Approved then j.granted + {id} else j.granted)
  }

  function Lapsed(approvals: map<ApprovalId, Approval>, now: int): map<ApprovalId, Approval> {
    map id | id in approvals ::
      if approvals[id].state in {Pending, Approved} && Past(approvals[id], now) then approvals[id].(state := Expired) else approvals[id]
  }

  function Spent(approvals: map<ApprovalId, Approval>, approval: Option<ApprovalId>): map<ApprovalId, Approval> {
    if approval.Some? && approval.value in approvals && approvals[approval.value].scope == Call
    then approvals[approval.value := approvals[approval.value].(state := Consumed)]
    else approvals
  }

  /** A one-call approval can still be spent; any other approval need not be looked at. */
  predicate Spendable(approvals: map<ApprovalId, Approval>, approval: Option<ApprovalId>) {
    approval.Some? && approval.value in approvals && approvals[approval.value].scope == Call ==>
      approvals[approval.value].state == Approved
  }

  function Entered(j: Journal, a: ActionId, owner: Owner, now: int): Journal
    requires a in j.attempts
  {
    var t := j.attempts[a];
    j.(approvals := Spent(j.approvals, t.approval),
       actions := j.actions[a := Action(t.request, t.policy, t.approval, Running)],
       attempts := j.attempts - {a},
       rows := j.rows[LeaseOf(a) := Lease(owner, Expiry(now, 86400), [])])
  }

  /** Entering an attempt journals just what was authorised, leases it for a day, and spends
      its approval if that is for one call; it fails only if that one is spent already. */
  lemma EnteredSpends(j: Journal, a: ActionId, owner: Owner, now: int)
    requires a in j.attempts
    ensures
      var t, k := j.attempts[a], Entered(j, a, owner, now);
      && k.actions == j.actions[a := Action(t.request, t.policy, t.approval, Running)]
      && k.rows == j.rows[LeaseOf(a) := Lease(owner, now + 86400, [])]
      && k.attempts == j.attempts - {a} && k.granted == j.granted && k.approvals.Keys == j.approvals.Keys
      && (forall id | id in j.approvals :: k.approvals[id] ==
            if t.approval == Some(id) && j.approvals[id].scope == Call then j.approvals[id].(state := Consumed)
            else j.approvals[id])
      && (!Spendable(j.approvals, t.approval) <==> exists id ::
            && t.approval == Some(id) && id in j.approvals
            && j.approvals[id].scope == Call && j.approvals[id].state != Approved)
  {
  }

  function Ended(j: Journal, a: ActionId, state: ActionState): Journal
    requires a in j.actions
  {
    j.(actions := j.actions[a := j.actions[a].(state := state)], rows := j.rows - {LeaseOf(a)})
  }

  /** Only approvals change, and only forward. */
  lemma ApprovalsKeep(i: Journal, j: Journal)
    requires Consistent(i) && j == i.(approvals := j.approvals, granted := j.granted) && i.granted <= j.granted
    requires forall id | id in i.approvals ::
      && id in j.approvals && Moves(i.approvals[id].state, j.approvals[id].state)
      && j.approvals[id] == i.approvals[id].(state := j.approvals[id].state)
    requires forall id | id in j.approvals && j.approvals[id].state in {Approved, Consumed} :: id in j.granted
    requires forall id | id in j.approvals && id !in i.approvals :: id !in i.granted
    ensures Consistent(j) && Evolves(i, j)
  {
    forall a | a in j.actions ensures ActionInv(j, a) {
      assert ActionInv(i, a);
    }
    forall a | a in j.attempts ensures Backed(j, j.attempts[a].request, j.attempts[a].policy, j.attempts[a].approval) {
      assert Backed(i, i.attempts[a].request, i.attempts[a].policy, i.attempts[a].approval);
    }
    forall a, b, id | Uses(j, a, id) && Uses(j, b, id) ensures a == b {
      assert ActionInv(i, a) && ActionInv(i, b);
      assert Uses(i, a, id) && Uses(i, b, id);
    }
  }

  /** Entering an attempt spends its one-call approval, which no other action has used. */
  lemma EnteredKeeps(j: Journal, a: ActionId, owner: Owner, now: int)
    requires Consistent(j) && a in j.attempts && a !in j.actions && Spendable(j.approvals, j.attempts[a].approval)
    ensures
      var k := Entered(j, a, owner, now);
      Consistent(k) && Evolves(j, k)
  {
    var k := Entered(j, a, owner, now);
    assert Backed(j, j.attempts[a].request, j.attempts[a].policy, j.attempts[a].approval);
    forall b | b in k.actions ensures ActionInv(k, b) {
      assert b != a ==> ActionInv(j, b);
    }
    forall b | b in k.attempts ensures Backed(k, k.attempts[b].request, k.attempts[b].policy, k.attempts[b].approval) {
      assert Backed(j, j.attempts[b].request, j.attempts[b].policy, j.attempts[b].approval);
    }
    forall b, c, id | Uses(k, b, id) && Uses(k, c, id) ensures b == c {
      assert b != a ==> ActionInv(j, b) && Uses(j, b, id);
      assert c != a ==> ActionInv(j, c) && Uses(j, c, id);
    }
  }

  lemma EndedKeeps(j: Journal, a: ActionId, state: ActionState)
    requires Consistent(j) && a in j.actions && j.actions[a].state == Running && state !in {Running, ActionDenied}
    ensures Consistent(Ended(j, a, state)) && Evolves(j, Ended(j, a, state))
  {
    var k := Ended(j, a, state);
    forall b | b in k.actions ensures ActionInv(k, b) {
      assert ActionInv(j, b);
    }
    forall b, c, id | Uses(k, b, id) && Uses(k, c, id) ensures b == c {
      assert Uses(j, b, id) && Uses(j, c, id);
    }
  }

  lemma RefusedKeeps(j: Journal, k: Journal, a: ActionId, r: Request, policy: Policy)
    requires Consistent(j) && a !in j.actions
    requires k == j.(actions := j.actions[a := Action(r, policy, None, ActionDenied)])
    ensures Consistent(k) && Evolves(j, k)
  {
    forall b | b in k.actions ensures ActionInv(k, b) {
      assert b != a ==> ActionInv(j, b);
    }
    forall b, c, id | Uses(k, b, id) && Uses(k, c, id) ensures b == c {
      assert Uses(j, b, id) && Uses(j, c, id);
    }
  }

  lemma AttemptsKeep(j: Journal, k: Journal)
    requires Consistent(j) && k == j.(attempts := k.attempts, rows := k.rows)
    requires forall a | a in k.attempts :: Backed(j, k.attempts[a].request, k.attempts[a].policy, k.attempts[a].approval)
    requires forall a :: LeaseOf(a) in k.rows <==> LeaseOf(a) in j.rows
    ensures Consistent(k) && Evolves(j, k)
  {
    forall a | a in k.actions ensures ActionInv(k, a) {
      assert ActionInv(j, a);
    }
    forall b, c, id | Uses(k, b, id) && Uses(k, c, id) ensures b == c {
      assert Uses(j, b, id) && Uses(j, c, id);
    }
  }

  /** The pass recovery makes: `open` is still to be visited. */
  ghost predicate Recovering(i: Journal, j: Journal, open: set<ActionId>, owner: Owner, sight: Sight) {
    && j == i.(actions := j.actions, rows := j.rows) && j.actions.Keys == i.actions.Keys
    && (forall a | a in i.actions ::
          j.actions[a] == (if a !in open && Lost(i, a, owner, sight) then i.actions[a].(state := Unknown) else i.actions[a]))
    && (forall a | a in open :: a in i.actions && i.actions[a].state == Running
          && LeaseOf(a) in i.rows && LeaseOf(a) in j.rows && j.rows[LeaseOf(a)] == i.rows[LeaseOf(a)])
  }

  /** A running action whose lease can be taken over: its holder is provably gone, or is
      the recoverer itself. */
  predicate Lost(j: Journal, a: ActionId, owner: Owner, sight: Sight) {
    a in j.actions && j.actions[a].state == Running && Claimable(j.rows, LeaseOf(a), owner, None, sight)
  }

  /** In every consistent journal a running action has a lease, and that lease decides. */
  lemma LostByLease(j: Journal, a: ActionId, owner: Owner, sight: Sight)
    requires Consistent(j) && a in j.actions
    ensures Lost(j, a, owner, sight) <==>
      && j.actions[a].state == Running && LeaseOf(a) in j.rows
      && (j.rows[LeaseOf(a)].owner == owner || Reclaimable(j.rows[LeaseOf(a)], sight))
  {
  }

  lemma RecoveringStep(i: Journal, j: Journal, k: Journal, open: set<ActionId>, a: ActionId, owner: Owner, sight: Sight)
    requires Recovering(i, j, open, owner, sight) && a in open
    requires k == if Claimable(j.rows, LeaseOf(a), owner, None, sight) then Ended(j, a, Unknown) else j
    ensures Recovering(i, k, open - {a}, owner, sight)
  {
  }

  function LostIn(j: Journal, some: set<ActionId>, owner: Owner, sight: Sight): set<ActionId> {
    set a | a in some && Lost(j, a, owner, sight)
  }

  lemma LostStep(j: Journal, open: set<ActionId>, a: ActionId, owner: Owner, sight: Sight)
    requires a in open
    ensures |LostIn(j, open, owner, sight)| == |LostIn(j, open - {a}, owner, sight)| + if Lost(j, a, owner, sight) then 1 else 0
  {
    assert LostIn(j, open - {a}, owner, sight) == LostIn(j, open, owner, sight) - {a};
  }

  lemma AllLostRun(j: Journal, open: set<ActionId>, owner: Owner, sight: Sight)
    requires forall a :: a in open <==> a in j.actions && j.actions[a].state == Running
    ensures LostIn(j, open, owner, sight) == LostIn(j, j.actions.Keys, owner, sight)
  {
  }

  datatype Event =
    | ExpireOverdue
    | Propose(id: ApprovalId, scope: Scope, request: Request, expires: Option<int>)
    | Decide(id: ApprovalId, approve: bool, task: Option<string>, session: Option<string>)
    | Consume(id: ApprovalId, request: Request)
    | Authorize(action: ActionId, request: Request, policy: Policy, approval: Option<ApprovalId>)
    | Enter(action: ActionId, owner: Owner)
    | Abort(action: ActionId)
    | Finish(action: ActionId, state: ActionState, token: string, caller: Process)
    | Recover(owner: Owner)

  datatype Step = Step(event: Event, now: int, sight: Sight)

  class ActionJournal {
    const leases: LeaseTable
    var approvals: map<ApprovalId, Approval>
    var actions: map<ActionId, Action>
    var attempts: map<ActionId, Attempt>
    var granted: set<ApprovalId>

    ghost function View(): Journal
      reads this, leases
    {
      Journal(leases.rows, approvals, actions, attempts, granted)
    }

    ghost predicate Valid()
      reads this, leases
    {
      Consistent(View())
    }

    constructor ()
      ensures Valid() && fresh(leases)
    {
      leases := new LeaseTable();
      approvals, actions, attempts, granted := map[], map[], map[], {};
    }

    /** Reading approvals first lets the overdue ones expire. */
    method Expire(now: int)
      requires Valid()
      modifies this`approvals
      ensures Valid() && Evolves(old(View()), View()) && approvals == Lapsed(old(approvals), now)
      ensures approvals.Keys == old(approvals.Keys) && forall id | id in approvals ::
        var x := old(approvals)[id];
        approvals[id] == match (x.state, x.expires)
          case (Pending, Some(at)) => if at <= now then x.(state := Expired) else x
          case (Approved, Some(at)) => if at <= now then x.(state := Expired) else x
          case _ => x
    {
      ghost var before := View();
      approvals := Lapsed(approvals, now);
      ApprovalsKeep(before, View());
    }

    /** Only a pending approval is decided, and only by its own task and session, where
        the caller names them. */
    method DecideApproval(id: ApprovalId, approve: bool, task: Option<string>, session: Option<string>) returns (ok: bool)
      requires Valid()
      modifies this`approvals, this`granted
      ensures Valid() && Evolves(old(View()), View())
      ensures ok <==>
        && id in old(approvals) && old(approvals)[id].state == Pending
        && (task.Some? ==> old(approvals)[id].request.task == task)
        && (session.Some? ==> old(approvals)[id].request.session == session)
      ensures View() == if ok then ApprovalMoved(old(View()), id, if approve then Approved else Denied) else old(View())
      ensures ok ==>
        && approvals == old(approvals)[id := old(approvals)[id].(state := if approve then Approved else Denied)]
        && granted == if approve then old(granted) + {id} else old(granted)
    {
      ghost var before := View();
      ok := id in approvals && approvals[id].state == Pending
        && (task.Some? ==> approvals[id].request.task == task)
        && (session.Some? ==> approvals[id].request.session == session);
      if ok {
        approvals := approvals[id := approvals[id].(state := if approve then Approved else Denied)];
        if approve {
          granted := granted + {id};
        }
        ApprovalsKeep(before, View());
      }
    }

    /** An approval that matches spends itself at once if it is for one call. */
    method ConsumeApproval(id: ApprovalId, r: Request, now: int) returns (ok: bool)
      requires Valid()
      modifies this`approvals
      ensures Valid() && Evolves(old(View()), View())
      ensures ok <==> id in old(approvals) && old(approvals)[id].state == Approved && Matches(old(approvals)[id], r, now)
      ensures approvals == if ok then Spent(old(approvals), Some(id)) else old(approvals)
      ensures ok ==> approvals[id].state == (if old(approvals)[id].scope == Call then Consumed else Approved)
      ensures ok ==> approvals == old(approvals)[id := old(approvals)[id].(state := approvals[id].state)]
    {
      ghost var before := View();
      ok := id in approvals && approvals[id].state == Approved && Matches(approvals[id], r, now);
      if ok {
        approvals := Spent(approvals, Some(id));
        ApprovalsKeep(before, View());
      }
    }

    /** The check before an action: allowed, refused and journaled as denied, or backed by
        a granted approval that still matches. */
    method AuthorizeAction(a: ActionId, r: Request, policy: Policy, approval: Option<ApprovalId>, now: int) returns (ok: bool)
      requires Valid() && a !in actions
      modifies this`actions, this`attempts
      ensures Valid() && Evolves(old(View()), View())
      ensures ok <==>
        || policy == Allow
        || (&& policy == Ask && approval.Some? && approval.value in approvals
            && approvals[approval.value].state == Approved && Matches(approvals[approval.value], r, now))
      ensures ok ==>
        && attempts == old(attempts)[a := Attempt(r, policy, if policy == Allow then None else approval)]
        && actions == old(actions)
      ensures !ok ==> actions == old(actions)[a := Action(r, policy, None, ActionDenied)] && attempts == old(attempts)
    {
      ghost var before := View();
      ok := || policy == Allow
            || (&& policy == Ask && approval.Some? && approval.value in approvals
                && approvals[approval.value].state == Approved && Matches(approvals[approval.value], r, now));
      if ok {
        attempts := attempts[a := Attempt(r, policy, if policy == Allow then None else approval)];
        AttemptsKeep(before, View());
      } else {
        actions := actions[a := Action(r, policy, None, ActionDenied)];
        RefusedKeeps(before, View(), a, r, policy);
      }
    }

    /** Journals an authorised attempt as running.  Its approval may have been spent by
        another attempt since; its lease can always be had. */
    method EnterAction(a: ActionId, owner: Owner, now: int, sight: Sight) returns (ok: bool)
      requires Valid() && a in attempts && a !in actions
      modifies this, leases
      ensures Valid() && Evolves(old(View()), View())
      ensures ok <==> Spendable(old(approvals), old(attempts)[a].approval)
      ensures View() == if ok then Entered(old(View()), a, owner, now) else old(View())
    {
      ghost var before := View();
      var t := attempts[a];
      ok := Spendable(approvals, t.approval);
      if ok {
        assert LeaseOf(a) !in leases.rows;
        approvals := Spent(approvals, t.approval);
        actions := actions[a := Action(t.request, t.policy, t.approval, Running)];
        var claimed := leases.ClaimInTransaction(LeaseOf(a), owner, now, 86400, None, sight);
        assert claimed;
        attempts := attempts - {a};
        EnteredKeeps(before, a, owner, now);
      }
    }

    /** Only the process that holds the action's unexpired lease may end it. */
    method FinishAction(a: ActionId, state: ActionState, token: string, caller: Process, now: int, sight: Sight)
      returns (ok: bool)
      requires Valid()
      modifies this`actions, leases
      ensures Valid() && Evolves(old(View()), View())
      ensures ok <==>
        && state !in {Running, ActionDenied}
        && a in old(actions) && old(actions)[a].state == Running && token != ""
        && LeaseOf(a) in old(leases.rows)
        && old(leases.rows)[LeaseOf(a)].owner == Owner(token, caller)
        && old(leases.rows)[LeaseOf(a)].expires > now && OwnerAlive(caller, sight)
      ensures View() == if ok then Ended(old(View()), a, state) else old(View())
      ensures ok ==>
        && actions == old(actions)[a := old(actions)[a].(state := state)]
        && leases.rows == old(leases.rows) - {LeaseOf(a)} && approvals == old(approvals)
    {
      ghost var before := View();
      if state in {Running, ActionDenied} || a !in actions || actions[a].state != Running {
        return false;
      }
      var key := LeaseOf(a);
      if token == "" || key !in leases.rows || leases.rows[key].owner.token != token || leases.rows[key].expires <= now
        || leases.rows[key].owner.process != caller || !OwnerAlive(leases.rows[key].owner.process, sight) {
        return false;
      }
      actions := actions[a := actions[a].(state := state)];
      leases.rows := leases.rows - {key};
      EndedKeeps(before, a, state);
      ok := true;
    }

    method RecoverOne(a: ActionId, owner: Owner, now: int, sight: Sight) returns (lost: bool)
      requires Valid() && a in actions && actions[a].state == Running
      modifies this`actions, leases
      ensures Valid() && Evolves(old(View()), View())
      ensures lost <==> Claimable(old(leases.rows), LeaseOf(a), owner, None, sight)
      ensures View() == if lost then Ended(old(View()), a, Unknown) else old(View())
    {
      ghost var before := View();
      lost := leases.ClaimInTransaction(LeaseOf(a), owner, now, 30, None, sight);
      if lost {
        actions := actions[a := actions[a].(state := Unknown)];
        leases.rows := leases.rows - {LeaseOf(a)};
        assert View() == Ended(before, a, Unknown);
        EndedKeeps(before, a, Unknown);
      }
    }

    method RecoverNext(ghost start: Journal, ghost open: set<ActionId>, a: ActionId, owner: Owner, now: int, sight: Sight)
      returns (lost: bool)
      requires Valid() && a in open && Evolves(start, View()) && Recovering(start, View(), open, owner, sight)
      modifies this`actions, leases
      ensures Valid() && Evolves(start, View()) && Recovering(start, View(), open - {a}, owner, sight)
      ensures lost <==> Lost(start, a, owner, sight)
    {
      ghost var mid := View();
      lost := RecoverOne(a, owner, now, sight);
      RecoveringStep(start, mid, View(), open, a, owner, sight);
      EvolvesTransitive(start, mid, View());
    }

    /** Marks exactly the running actions whose lease can be taken over as unknown, and
        counts them. */
    method RecoverInterrupted(owner: Owner, now: int, sight: Sight) returns (recovered: nat)
      requires Valid()
      modifies this`actions, leases
      ensures Valid() && Evolves(old(View()), View()) && Recovering(old(View()), View(), {}, owner, sight)
      ensures recovered == |LostIn(old(View()), old(actions.Keys), owner, sight)|
    {
      ghost var before := View();
      recovered := 0;
      var open := set a | a in actions && actions[a].state == Running;
      AllLostRun(before, open, owner, sight);
      while open != {}
        invariant Valid() && Evolves(before, View()) && Recovering(before, View(), open, owner, sight)
        invariant recovered + |LostIn(before, open, owner, sight)| == |LostIn(before, before.actions.Keys, owner, sight)|
        decreases |open|
      {
        var a :| a in open;
        var lost := RecoverNext(before, open, a, owner, now, sight);
        LostStep(before, open, a, owner, sight);
        open := open - {a};
        if lost {
          recovered := recovered + 1;
        }
      }
    }

    /** Any interleaving: a one-call approval backs at most one action, approvals never
        move back, actions end once, and a lease is held exactly by the running ones. */
    method Run(steps: seq<Step>)
      requires Valid()
      modifies this, leases
      ensures Valid() && Evolves(old(View()), View())
    {
      for n := 0 to |steps|
        invariant Valid() && Evolves(old(View()), View())
      {
        ghost var before := View();
        Dispatch(steps[n].event, steps[n].now, steps[n].sight);
        EvolvesTransitive(old(View()), before, View());
      }
    }

    method Dispatch(e: Event, now: int, sight: Sight)
      requires Valid()
      modifies this, leases
      ensures Valid() && Evolves(old(View()), View())
    {
      if e.ExpireOverdue? || e.Decide? || e.Consume? || e.Authorize? {
        Expire(now);
        ghost var mid := View();
        Judge(e, now);
        EvolvesTransitive(old(View()), mid, View());
      } else {
        Act(e, now, sight);
      }
    }

    /** What follows the reading of an approval. */
    method Judge(e: Event, now: int)
      requires Valid() && (e.ExpireOverdue? || e.Decide? || e.Consume? || e.Authorize?)
      modifies this
      ensures Valid() && Evolves(old(View()), View())
    {
      match e
      case ExpireOverdue =>
      case Decide(id, approve, task, session) =>
        var _ := DecideApproval(id, approve, task, session);
      case Consume(id, request) =>
        var _ := ConsumeApproval(id, request, now);
      case Authorize(a, request, policy, approval) =>
        if a !in actions {
          var _ := AuthorizeAction(a, request, policy, approval, now);
        }
    }

    method Act(e: Event, now: int, sight: Sight)
      requires Valid() && (e.Propose? || e.Enter? || e.Abort? || e.Finish? || e.Recover?)
      modifies this, leases
      ensures Valid() && Evolves(old(View()), View())
    {
      ghost var before := View();
      match e
      case Propose(id, scope, request, expires) =>
        if id !in approvals && id !in granted {
          approvals := approvals[id := Approval(Pending, scope, request, expires)];
          ApprovalsKeep(before, View());
        }
      case Enter(a, owner) =>
        if a in attempts && a !in actions {
          var _ := EnterAction(a, owner, now, sight);
        }
      case Abort(a) =>
        attempts := attempts - {a};
        AttemptsKeep(before, View());
      case Finish(a, state, token, caller) =>
        var _ := FinishAction(a, state, token, caller, now, sight);
      case Recover(owner) =>
        var _ := RecoverInterrupted(owner, now, sight);
    }
  }
}
