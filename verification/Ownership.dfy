/**
 Durable leases: who may take over a resource, and from whom.

 A lease is never handed over because it expired; only proof that the holder's
 process, and every process fenced onto the lease, is gone makes it reclaimable.
 */
module Ownership {
  import opened Wrappers
  import opened PathNames

  const CANCELLATION_RECOVERY_PHASE := "cancellation-recovery-required"

  /** A process is identified by its pid and its start time; an unknown start is "". */
  datatype Process = Process(pid: int, start: string)

  datatype Owner = Owner(token: string, process: Process)

  /** Fence entries are read back from metadata and need not be well formed. */
  datatype FenceEntry = Known(process: Process) | Malformed

  datatype Lease = Lease(owner: Owner, expires: int, fenced: seq<FenceEntry>)

  datatype Kind =
    | TaskExecution | TaskExecutionFence | ControlCancellation
    | TaskControl | Workspace | OtherResource(name: string)

  datatype Key = Key(kind: Kind, name: string)

  type Rows = map<Key, Lease>

  /** What can be learnt about processes at one moment: which are gone, and which
      can be examined at all.  A process that cannot be examined is neither. */
  datatype Sight = Sight(gone: set<Process>, readable: set<Process>)

  predicate OwnerAlive(p: Process, sight: Sight) {
    p.start != "" && p in sight.readable && p !in sight.gone
  }

  predicate OwnerGone(p: Process, sight: Sight) {
    p.start != "" && p in sight.readable && p in sight.gone
  }

  predicate FenceProcessesAlive(lease: Lease, sight: Sight) {
    exists i | 0 <= i < |lease.fenced| ::
      lease.fenced[i].Malformed? || !OwnerGone(lease.fenced[i].process, sight)
  }

  predicate Reclaimable(lease: Lease, sight: Sight) {
    OwnerGone(lease.owner.process, sight) && !FenceProcessesAlive(lease, sight)
  }

  function Expiry(now: int, seconds: int): (r: int)
    ensures r > now
  {
    now + if seconds < 1 then 1 else seconds
  }

  /** Whether a task refuses any execution claim, its holder's included. */
  predicate ExecutionFenced(rows: Rows, task: string, phase: Option<string>) {
    Key(TaskExecutionFence, task) in rows || phase == Some(CANCELLATION_RECOVERY_PHASE)
  }

  predicate Claimable(rows: Rows, key: Key, owner: Owner, phase: Option<string>, sight: Sight) {
    && (key.kind == TaskExecution ==> !ExecutionFenced(rows, key.name, phase))
    && (key in rows ==> rows[key].owner == owner || Reclaimable(rows[key], sight))
  }

  /** The test a transaction makes on its own lease: the token, and no expiry so far. */
  predicate HoldsUnexpired(rows: Rows, key: Key, owner: Owner, now: int) {
    key in rows && rows[key].owner.token == owner.token && rows[key].expires > now
  }

  /** Only proof counts: the holder, and every process fenced onto its lease, must have a
      known start, must have been examined, and must have been found gone. */
  lemma ReclaimedByProof(lease: Lease, sight: Sight)
    ensures Reclaimable(lease, sight) <==>
      && lease.owner.process.start != "" && lease.owner.process in sight.readable * sight.gone
      && (forall e | e in lease.fenced :: e.Known? && e.process.start != "" && e.process in sight.readable * sight.gone)
  {
    if !FenceProcessesAlive(lease, sight) {
      forall e | e in lease.fenced ensures e.Known? && OwnerGone(e.process, sight) {
        var i :| 0 <= i < |lease.fenced| && lease.fenced[i] == e;
      }
    } else {
      var i :| 0 <= i < |lease.fenced| && (lease.fenced[i].Malformed? || !OwnerGone(lease.fenced[i].process, sight));
      assert lease.fenced[i] in lease.fenced;
    }
  }

  /** A fence holds its lease unless each of its processes is proved gone. */
  lemma FencedByProof(lease: Lease, sight: Sight)
    ensures !FenceProcessesAlive(lease, sight) <==> forall e | e in lease.fenced ::
      e.Known? && e.process.start != "" && e.process in sight.readable * sight.gone
  {
    ReclaimedByProof(lease.(owner := Owner("", Process(2, "x"))), Sight(sight.gone + {Process(2, "x")}, sight.readable + {Process(2, "x")}));
  }

  /** What stands in the way of a claim: a lease of somebody else not proved dead and, for
      an execution, the fence or the recovery phase of the task.  Never the expiry. */
  lemma ClaimedDespiteExpiry(rows: Rows, key: Key, owner: Owner, phase: Option<string>, sight: Sight)
    ensures Claimable(rows, key, owner, phase, sight) <==>
      && (key in rows && rows[key].owner != owner ==> Reclaimable(rows[key], sight))
      && !(key.kind == TaskExecution && Key(TaskExecutionFence, key.name) in rows)
      && !(key.kind == TaskExecution && phase == Some("cancellation-recovery-required"))
  {
  }

  /** A lease taken now is held under its token for the time asked for, and for a second at
      least. */
  lemma ClaimHolds(rows: Rows, key: Key, owner: Owner, caller: Owner, now: int, seconds: int, later: int)
    ensures HoldsUnexpired(rows[key := Lease(owner, Expiry(now, seconds), [])], key, caller, later) <==>
      caller.token == owner.token && (later < now + 1 || later < now + seconds)
    ensures key !in rows ==> !HoldsUnexpired(rows, key, caller, later)
  {
  }

  /** The fence list after dropping `remove` and appending what of `add` is new. */
  function Retained(fenced: seq<FenceEntry>, remove: set<Process>): (r: seq<FenceEntry>)
    ensures forall e :: e in r <==> e in fenced && (e.Known? ==> e.process !in remove)
  {
    if fenced == [] then []
    else
      var rest := Retained(fenced[..|fenced| - 1], remove);
      var last := fenced[|fenced| - 1];
      if last.Known? && last.process in remove then rest else rest + [last]
  }

  function Additions(retained: seq<FenceEntry>, add: seq<Process>): (r: seq<FenceEntry>)
    ensures forall e :: e in r <==> e.Known? && e.process in add && e !in retained
  {
    if add == [] then []
    else
      var rest := Additions(retained, add[..|add| - 1]);
      var last := Known(add[|add| - 1]);
      if last in retained then rest else rest + [last]
  }

  /** Dropping goes entry by entry, so order and repetition of the kept entries stay. */
  lemma {:induction false} RetainedConcat(a: seq<FenceEntry>, b: seq<FenceEntry>, remove: set<Process>)
    ensures Retained(a + b, remove) == Retained(a, remove) + Retained(b, remove)
  {
    if b == [] {
      assert a + b == a;
    } else {
      assert (a + b)[..|a + b| - 1] == a + b[..|b| - 1];
      RetainedConcat(a, b[..|b| - 1], remove);
    }
  }

  /** New processes are appended one by one, each judged against the old fence alone. */
  lemma {:induction false} AdditionsConcat(retained: seq<FenceEntry>, a: seq<Process>, b: seq<Process>)
    ensures Additions(retained, a + b) == Additions(retained, a) + Additions(retained, b)
  {
    if b == [] {
      assert a + b == a;
    } else {
      assert (a + b)[..|a + b| - 1] == a + b[..|b| - 1];
      AdditionsConcat(retained, a, b[..|b| - 1]);
    }
  }

  predicate StableIdentity(p: Process) {
    p.pid > 1 && p.start != ""
  }

  predicate StableIdentities(ps: seq<Process>) {
    forall i | 0 <= i < |ps| :: StableIdentity(ps[i])
  }

  datatype FenceOutcome = Updated | NotOwner | Unstable

  // ---------------------------------------------------------------- workspaces

  predicate BlocksWorkspace(rows: Rows, k: Key, path: string, owner: Owner) {
    k in rows && k.kind == Workspace && Overlaps(path, k.name) && rows[k].owner != owner
  }

  predicate WorkspaceClaimable(rows: Rows, path: string, owner: Owner, sight: Sight) {
    forall k | k in rows :: BlocksWorkspace(rows, k, path, owner) ==> Reclaimable(rows[k], sight)
  }

  function WorkspaceTaken(rows: Rows, path: string, lease: Lease): Rows {
    (map k | k in rows && !BlocksWorkspace(rows, k, path, lease.owner) :: rows[k])[Key(Workspace, path) := lease]
  }

  /** The workspace rows as a query returns them: each once, in whatever order. */
  ghost predicate ListsWorkspaces(order: seq<Key>, rows: Rows) {
    && (forall i, j | 0 <= i < j < |order| :: order[i] != order[j])
    && (forall k :: k in order <==> k in rows && k.kind == Workspace)
  }

  predicate LiveBlocker(rows: Rows, k: Key, path: string, owner: Owner, sight: Sight) {
    BlocksWorkspace(rows, k, path, owner) && !Reclaimable(rows[k], sight)
  }

  /** The position of the first live blocker, or the end. */
  function FirstLive(rows: Rows, order: seq<Key>, path: string, owner: Owner, sight: Sight): (n: nat)
    ensures n <= |order| && (n < |order| ==> LiveBlocker(rows, order[n], path, owner, sight))
    ensures forall i | 0 <= i < n :: !LiveBlocker(rows, order[i], path, owner, sight)
  {
    if order == [] || LiveBlocker(rows, order[0], path, owner, sight) then 0
    else 1 + FirstLive(rows, order[1..], path, owner, sight)
  }

  /** The rows without the dead blockers among some keys. */
  function Cleared(rows: Rows, some: seq<Key>, path: string, owner: Owner, sight: Sight): Rows {
    map k | k in rows && !(k in some && BlocksWorkspace(rows, k, path, owner) && Reclaimable(rows[k], sight)) :: rows[k]
  }

  /** The rows after a refusal: the dead blockers met before the first live one are gone. */
  function Refused(rows: Rows, order: seq<Key>, path: string, owner: Owner, sight: Sight): Rows {
    Cleared(rows, order[..FirstLive(rows, order, path, owner, sight)], path, owner, sight)
  }

  lemma ClearedStep(rows: Rows, some: seq<Key>, k: Key, path: string, owner: Owner, sight: Sight)
    requires k in rows && k !in some
    ensures k in Cleared(rows, some, path, owner, sight)
    ensures Cleared(rows, some + [k], path, owner, sight) ==
      if BlocksWorkspace(rows, k, path, owner) && Reclaimable(rows[k], sight)
      then Cleared(rows, some, path, owner, sight) - {k}
      else Cleared(rows, some, path, owner, sight)
  {
  }

  lemma AllCleared(rows: Rows, order: seq<Key>, path: string, lease: Lease, sight: Sight)
    requires ListsWorkspaces(order, rows)
    requires forall j | 0 <= j < |order| :: !LiveBlocker(rows, order[j], path, lease.owner, sight)
    ensures WorkspaceClaimable(rows, path, lease.owner, sight)
    ensures Cleared(rows, order, path, lease.owner, sight)[Key(Workspace, path) := lease] == WorkspaceTaken(rows, path, lease)
    ensures Claimable(Cleared(rows, order, path, lease.owner, sight), Key(Workspace, path), lease.owner, None, sight)
  {
    forall k | k in rows && BlocksWorkspace(rows, k, path, lease.owner) ensures Reclaimable(rows[k], sight) {
      assert k in order;
      var j :| 0 <= j < |order| && order[j] == k;
      assert !LiveBlocker(rows, order[j], path, lease.owner, sight);
    }
  }

  /** A refusal is without effect exactly if the first blocker the query lists is live. */
  lemma RefusalKeepsAll(rows: Rows, order: seq<Key>, path: string, owner: Owner, sight: Sight)
    requires ListsWorkspaces(order, rows) && !WorkspaceClaimable(rows, path, owner, sight)
    ensures Refused(rows, order, path, owner, sight) == rows <==> exists i | 0 <= i < |order| ::
      && LiveBlocker(rows, order[i], path, owner, sight)
      && forall j | 0 <= j < i :: !BlocksWorkspace(rows, order[j], path, owner)
  {
    var n := FirstLive(rows, order, path, owner, sight);
    var live: Key :| live in rows && BlocksWorkspace(rows, live, path, owner) && !Reclaimable(rows[live], sight);
    assert live in rows && live.kind == Workspace;
    assert live in order;
    var m :| 0 <= m < |order| && order[m] == live;
    assert n <= m;
    if forall j | 0 <= j < n :: !BlocksWorkspace(rows, order[j], path, owner) {
      assert Refused(rows, order, path, owner, sight) == rows;
    } else {
      var j :| 0 <= j < n && BlocksWorkspace(rows, order[j], path, owner);
      assert order[j] in order[..n];
      assert order[j] !in Refused(rows, order, path, owner, sight);
    }
  }

  /** Overlapping workspaces always belong to one owner identity. */
  ghost predicate WorkspacesExclusive(rows: Rows) {
    forall a, b | a in rows && b in rows && a.kind == Workspace && b.kind == Workspace ::
      Overlaps(a.name, b.name) ==> rows[a].owner == rows[b].owner
  }

  /** Two owners never hold the same directory, nor one inside the other. */
  lemma DistinctOwnersDistinctTrees(rows: Rows, a: seq<string>, b: seq<string>)
    requires WorkspacesExclusive(rows) && Resolved(a) && Resolved(b)
    requires Key(Workspace, Render(a)) in rows && Key(Workspace, Render(b)) in rows
    requires rows[Key(Workspace, Render(a))].owner != rows[Key(Workspace, Render(b))].owner
    ensures !(a <= b) && !(b <= a)
  {
    OverlapIsAncestry(a, b);
  }

  // ---------------------------------------------------------------- runs

  datatype Event =
    | Claim(key: Key, owner: Owner, now: int, seconds: int, phase: Option<string>)
    | ClaimWorkspace(path: string, owner: Owner, now: int, seconds: int)
    | Heartbeat(key: Key, owner: Owner, now: int, seconds: int)
    | AddFence(key: Key, owner: Owner, processes: seq<Process>)
    | RemoveFence(key: Key, owner: Owner, processes: seq<Process>)
    | Release(key: Key, owner: Owner)
    | Exit(process: Process)

  datatype Step = Step(event: Event, readable: set<Process>)

  predicate Held(rows: Rows, key: Key, owner: Owner) {
    key in rows && rows[key].owner == owner
  }

  predicate FencedBy(rows: Rows, key: Key, p: Process) {
    key in rows && Known(p) in rows[key].fenced
  }

  /** The event by which a holder gives its lease up. */
  predicate GivesUp(e: Event, key: Key, owner: Owner) {
    e == Release(key, owner)
  }

  /** The events by which a holder itself drops a process from its fence. */
  predicate Unfences(e: Event, key: Key, owner: Owner, p: Process) {
    || (e.RemoveFence? && e.key == key && e.owner == owner && p in e.processes)
    || (e.Claim? && e.key == key && e.owner == owner)
    || (e.ClaimWorkspace? && Key(Workspace, e.path) == key && e.owner == owner)
  }

  /** What one event may do to a holder whose process, or fenced process, is not gone. */
  ghost predicate Honours(a: Rows, b: Rows, e: Event, gone: set<Process>) {
    && (forall k, o | Held(a, k, o) && o.process !in gone && !GivesUp(e, k, o) :: Held(b, k, o))
    && (forall k, o, p | Held(a, k, o) && FencedBy(a, k, p) && p !in gone && !Unfences(e, k, o, p) ::
          Held(b, k, o) && FencedBy(b, k, p))
  }

  ghost predicate KeptThroughout(steps: seq<Step>, k: Key, o: Owner) {
    forall i | 0 <= i < |steps| :: !GivesUp(steps[i].event, k, o)
  }

  ghost predicate FencedThroughout(steps: seq<Step>, k: Key, o: Owner, p: Process) {
    forall i | 0 <= i < |steps| :: !Unfences(steps[i].event, k, o, p)
  }

  /** Over a whole run: a holder that is not gone and does not release still holds, and
      so does one onto whose lease a live process is fenced, gone or not. */
  ghost predicate HonoursRun(a: Rows, b: Rows, steps: seq<Step>, gone: set<Process>) {
    && (forall k, o | Held(a, k, o) && o.process !in gone && KeptThroughout(steps, k, o) :: Held(b, k, o))
    && (forall k, o, p | Held(a, k, o) && FencedBy(a, k, p) && p !in gone && FencedThroughout(steps, k, o, p) ::
          Held(b, k, o) && FencedBy(b, k, p))
  }

  lemma HonoursExtend(a: Rows, b: Rows, c: Rows, steps: seq<Step>, step: Step, gone: set<Process>, later: set<Process>)
    requires HonoursRun(a, b, steps, gone) && Honours(b, c, step.event, later) && gone <= later
    ensures HonoursRun(a, c, steps + [step], later)
  {
    var all := steps + [step];
    forall k, o | Held(a, k, o) && o.process !in later && KeptThroughout(all, k, o) ensures Held(c, k, o) {
      assert forall i | 0 <= i < |steps| :: all[i] == steps[i];
      assert !GivesUp(all[|steps|].event, k, o);
      assert KeptThroughout(steps, k, o);
    }
    forall k, o, p | Held(a, k, o) && FencedBy(a, k, p) && p !in later && FencedThroughout(all, k, o, p)
      ensures Held(c, k, o) && FencedBy(c, k, p)
    {
      assert forall i | 0 <= i < |steps| :: all[i] == steps[i];
      assert !Unfences(all[|steps|].event, k, o, p);
      assert FencedThroughout(steps, k, o, p);
    }
  }

  lemma ClaimHonours(a: Rows, key: Key, owner: Owner, expires: int, phase: Option<string>, sight: Sight, e: Event)
    requires Claimable(a, key, owner, phase, sight) ==> e.Claim? && e.key == key && e.owner == owner
    requires WorkspacesExclusive(a) && key.kind != Workspace
    ensures Claimable(a, key, owner, phase, sight) ==>
      var b := a[key := Lease(owner, expires, [])];
      WorkspacesExclusive(b) && Honours(a, b, e, sight.gone)
  {
  }

  lemma WorkspaceHonours(a: Rows, b: Rows, path: string, lease: Lease, claimed: bool, sight: Sight, e: Event)
    requires WorkspacesExclusive(a) && lease.fenced == []
    requires e.ClaimWorkspace? && e.path == path && e.owner == lease.owner
    requires claimed ==> WorkspaceClaimable(a, path, lease.owner, sight) && b == WorkspaceTaken(a, path, lease)
    requires !claimed ==>
      && b.Keys <= a.Keys && (forall k | k in b :: b[k] == a[k])
      && (forall k | k in a && k !in b :: BlocksWorkspace(a, k, path, lease.owner) && Reclaimable(a[k], sight))
    ensures WorkspacesExclusive(b) && Honours(a, b, e, sight.gone)
  {
    forall k | k in a && (k !in b || b[k] != a[k])
      ensures (k == Key(Workspace, path) && a[k].owner == lease.owner) || Reclaimable(a[k], sight)
    {
    }
    forall k, p | FencedBy(a, k, p) && Reclaimable(a[k], sight) ensures p in sight.gone {
      var i :| 0 <= i < |a[k].fenced| && a[k].fenced[i] == Known(p);
    }
  }

  lemma HeldHonours(a: Rows, key: Key, owner: Owner, lease: Lease, gone: set<Process>, e: Event)
    requires Held(a, key, owner) && lease.owner == owner && WorkspacesExclusive(a)
    requires forall p | FencedBy(a, key, p) && !Unfences(e, key, owner, p) :: Known(p) in lease.fenced
    ensures WorkspacesExclusive(a[key := lease]) && Honours(a, a[key := lease], e, gone)
  {
  }

  class LeaseTable {
    var rows: Rows

    constructor ()
      ensures rows == map[]
    {
      rows := map[];
    }

    /** Takes a lease inside the caller's transaction.  Expiry plays no part. */
    method ClaimInTransaction(key: Key, owner: Owner, now: int, seconds: int, phase: Option<string>, sight: Sight)
      returns (claimed: bool)
      modifies this
      ensures claimed <==> Claimable(old(rows), key, owner, phase, sight)
      ensures rows == if claimed then old(rows)[key := Lease(owner, Expiry(now, seconds), [])] else old(rows)
    {
      if key.kind == TaskExecution {
        var fence := Key(TaskExecutionFence, key.name) in rows;
        if fence || phase == Some(CANCELLATION_RECOVERY_PHASE) {
          return false;
        }
      }
      if key in rows && rows[key].owner != owner && !Reclaimable(rows[key], sight) {
        return false;
      }
      rows := rows[key := Lease(owner, Expiry(now, seconds), [])];
      claimed := true;
    }

    /** The workspace rows, in an order of the database's choosing. */
    method QueryWorkspaces() returns (order: seq<Key>)
      ensures ListsWorkspaces(order, rows)
    {
      order := [];
      var pending := set k | k in rows && k.kind == Workspace;
      while pending != {}
        invariant forall k :: k in pending || k in order <==> k in rows && k.kind == Workspace
        invariant forall k | k in pending :: k !in order
        invariant forall i, j | 0 <= i < j < |order| :: order[i] != order[j]
        decreases |pending|
      {
        var k :| k in pending;
        pending := pending - {k};
        order := order + [k];
      }
    }

    /** Clears dead overlapping leases row by row.  A refusal still commits the deletions
        made before the live lease was met. */
    method ClaimWorkspaceLease(order: seq<Key>, path: string, owner: Owner, now: int, seconds: int, sight: Sight)
      returns (claimed: bool)
      requires ListsWorkspaces(order, rows)
      modifies this
      ensures claimed <==> WorkspaceClaimable(old(rows), path, owner, sight)
      ensures claimed ==> rows == WorkspaceTaken(old(rows), path, Lease(owner, Expiry(now, seconds), []))
      ensures claimed ==> forall k | k != Key(Workspace, path) ::
        && (k in rows <==> k in old(rows) && !(k.kind == Workspace && Overlaps(path, k.name) && old(rows)[k].owner != owner))
        && (k in rows ==> rows[k] == old(rows)[k])
      ensures !claimed ==> rows == Refused(old(rows), order, path, owner, sight)
    {
      ghost var before := rows;
      for i := 0 to |order|
        invariant rows == Cleared(before, order[..i], path, owner, sight)
        invariant forall j | 0 <= j < i :: !LiveBlocker(before, order[j], path, owner, sight)
      {
        var other := order[i];
        assert other in order && other !in order[..i];
        assert order[..i + 1] == order[..i] + [other];
        ClearedStep(before, order[..i], other, path, owner, sight);
        if Overlaps(path, other.name) && rows[other].owner != owner {
          if !Reclaimable(rows[other], sight) {
            assert FirstLive(before, order, path, owner, sight) == i;
            return false;
          }
          rows := rows - {other};
        }
      }
      assert order[..|order|] == order;
      AllCleared(before, order, path, Lease(owner, Expiry(now, seconds), []), sight);
      claimed := ClaimInTransaction(Key(Workspace, path), owner, now, seconds, None, sight);
    }

    method HeartbeatLease(key: Key, owner: Owner, now: int, seconds: int) returns (renewed: bool)
      modifies this
      ensures renewed <==> key in old(rows) && old(rows)[key].owner == owner
      ensures rows == if renewed then old(rows)[key := old(rows)[key].(expires := Expiry(now, seconds))] else old(rows)
    {
      renewed := key in rows && rows[key].owner == owner;
      if renewed {
        rows := rows[key := rows[key].(expires := Expiry(now, seconds))];
      }
    }

    method UpdateFence(key: Key, owner: Owner, add: seq<Process>, remove: seq<Process>)
      returns (outcome: FenceOutcome)
      modifies this
      ensures outcome == (
        if !StableIdentities(add) || !StableIdentities(remove) then Unstable
        else if !Held(old(rows), key, owner) then NotOwner else Updated)
      ensures outcome == Unstable <==> exists p | p in add || p in remove :: p.pid <= 1 || p.start == ""
      ensures outcome == Updated ==> key in old(rows) && old(rows)[key].owner == owner
      ensures outcome == NotOwner ==> key !in old(rows) || old(rows)[key].owner != owner
      ensures outcome != Updated ==> rows == old(rows)
      ensures outcome == Updated ==>
        var retained := Retained(old(rows)[key].fenced, set p | p in remove);
        rows == old(rows)[key := old(rows)[key].(fenced := retained + Additions(retained, add))]
    {
      if !StableIdentities(add) || !StableIdentities(remove) {
        return Unstable;
      }
      if key !in rows || rows[key].owner != owner {
        return NotOwner;
      }
      var fenced := rows[key].fenced;
      var removals := set p | p in remove;
      var retained: seq<FenceEntry> := [];
      for i := 0 to |fenced|
        invariant retained == Retained(fenced[..i], removals)
      {
        assert fenced[..i + 1][..i] == fenced[..i];
        if fenced[i].Malformed? || fenced[i].process !in removals {
          retained := retained + [fenced[i]];
        }
      }
      assert fenced[..|fenced|] == fenced;
      var appended: seq<FenceEntry> := [];
      for i := 0 to |add|
        invariant appended == Additions(retained, add[..i])
      {
        assert add[..i + 1][..i] == add[..i];
        if Known(add[i]) !in retained {
          appended := appended + [Known(add[i])];
        }
      }
      assert add[..|add|] == add;
      rows := rows[key := rows[key].(fenced := retained + appended)];
      outcome := Updated;
    }

    method ReleaseLease(key: Key, owner: Owner, sight: Sight) returns (released: bool)
      modifies this
      ensures released <==>
        && key in old(rows) && old(rows)[key].owner == owner && !FenceProcessesAlive(old(rows)[key], sight)
      ensures rows == if released then old(rows) - {key} else old(rows)
    {
      if key !in rows || rows[key].owner != owner || FenceProcessesAlive(rows[key], sight) {
        return false;
      }
      rows := rows - {key};
      released := true;
    }

    /** Any interleaving of lease operations and process exits. */
    method Run(steps: seq<Step>) returns (gone: set<Process>)
      requires WorkspacesExclusive(rows)
      requires forall i | 0 <= i < |steps| && steps[i].event.Claim? :: steps[i].event.key.kind != Workspace
      modifies this
      ensures WorkspacesExclusive(rows)
      ensures HonoursRun(old(rows), rows, steps, gone)
      ensures gone == set i | 0 <= i < |steps| && steps[i].event.Exit? :: steps[i].event.process
    {
      gone := {};
      for n := 0 to |steps|
        invariant WorkspacesExclusive(rows)
        invariant HonoursRun(old(rows), rows, steps[..n], gone)
        invariant gone == set i | 0 <= i < n && steps[i].event.Exit? :: steps[i].event.process
      {
        ghost var before, earlier := rows, gone;
        if steps[n].event.Exit? {
          gone := gone + {steps[n].event.process};
        } else {
          Dispatch(steps[n].event, Sight(gone, steps[n].readable));
        }
        HonoursExtend(old(rows), before, rows, steps[..n], steps[n], earlier, gone);
        assert steps[..n] + [steps[n]] == steps[..n + 1];
      }
      assert steps[..|steps|] == steps;
    }

    method Dispatch(e: Event, sight: Sight)
      requires !e.Exit? && WorkspacesExclusive(rows) && (e.Claim? ==> e.key.kind != Workspace)
      modifies this
      ensures WorkspacesExclusive(rows) && Honours(old(rows), rows, e, sight.gone)
    {
      if e.Claim? {
        ClaimHonours(rows, e.key, e.owner, Expiry(e.now, e.seconds), e.phase, sight, e);
        var _ := ClaimInTransaction(e.key, e.owner, e.now, e.seconds, e.phase, sight);
      } else if e.ClaimWorkspace? {
        ghost var before := rows;
        var order := QueryWorkspaces();
        var claimed := ClaimWorkspaceLease(order, e.path, e.owner, e.now, e.seconds, sight);
        WorkspaceHonours(before, rows, e.path, Lease(e.owner, Expiry(e.now, e.seconds), []), claimed, sight, e);
      } else {
        Hold(e, sight);
      }
    }

    /** The events that never move a lease from one owner to another. */
    method Hold(e: Event, sight: Sight)
      requires WorkspacesExclusive(rows) && (e.Heartbeat? || e.AddFence? || e.RemoveFence? || e.Release?)
      modifies this
      ensures WorkspacesExclusive(rows) && Honours(old(rows), rows, e, sight.gone)
      ensures forall k | k in rows :: k in old(rows) && rows[k].owner == old(rows)[k].owner
    {
      ghost var before := rows;
      if e.Release? {
        var _ := ReleaseLease(e.key, e.owner, sight);
      } else {
        if e.Heartbeat? {
          var _ := HeartbeatLease(e.key, e.owner, e.now, e.seconds);
        } else if e.AddFence? {
          var _ := UpdateFence(e.key, e.owner, e.processes, []);
        } else {
          var _ := UpdateFence(e.key, e.owner, [], e.processes);
        }
        if rows != before {
          HeldHonours(before, e.key, e.owner, rows[e.key], sight.gone, e);
        }
      }
    }
  }

  /** The first of two blockers is dead and the second is not: the first is lost. */
  lemma DeadThenLive(rows: Rows, a: Key, b: Key, path: string, owner: Owner, sight: Sight)
    requires rows.Keys == {a, b} && a != b && a.kind == Workspace && b.kind == Workspace
    requires BlocksWorkspace(rows, a, path, owner) && Reclaimable(rows[a], sight)
    requires BlocksWorkspace(rows, b, path, owner) && !Reclaimable(rows[b], sight)
    ensures ListsWorkspaces([a, b], rows) && !WorkspaceClaimable(rows, path, owner, sight)
    ensures Refused(rows, [a, b], path, owner, sight).Keys == {b}
  {
    assert LiveBlocker(rows, b, path, owner, sight) && !LiveBlocker(rows, a, path, owner, sight);
    assert FirstLive(rows, [a, b], path, owner, sight) == 1;
    assert [a, b][..1] == [a];
  }

  /** A refused claim that deletes.  Of two disjoint directories below the claimed one, the
      first listed belongs to a process that has died and the second to a live one. */
  method RefusalDeletes(p: seq<string>, x: seq<string>, y: seq<string>, dead: Owner, live: Owner, owner: Owner, now: int)
    returns (first: bool, second: bool, third: bool, table: LeaseTable)
    requires Resolved(p) && Resolved(x) && Resolved(y)
    requires p <= x && p <= y && !(x <= y) && !(y <= x)
    requires dead.process.start != "" && dead.process != live.process && owner != dead && owner != live
    ensures first && second && !third
    ensures table.rows.Keys == {Key(Workspace, Render(y))}
  {
    var path, a, b := Render(p), Key(Workspace, Render(x)), Key(Workspace, Render(y));
    OverlapIsAncestry(y, x);
    OverlapIsAncestry(p, x);
    OverlapIsAncestry(p, y);
    table := new LeaseTable();
    first := table.ClaimWorkspaceLease([], a.name, dead, now, 30, Sight({}, {dead.process}));
    assert table.rows == map[a := Lease(dead, Expiry(now, 30), [])];
    second := table.ClaimWorkspaceLease([a], b.name, live, now, 30, Sight({}, {dead.process}));
    assert table.rows == map[a := Lease(dead, Expiry(now, 30), []), b := Lease(live, Expiry(now, 30), [])];
    DeadThenLive(table.rows, a, b, path, owner, Sight({dead.process}, {dead.process}));
    third := table.ClaimWorkspaceLease([a, b], path, owner, now, 30, Sight({dead.process}, {dead.process}));
  }
}
