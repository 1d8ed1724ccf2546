/**
 The durable state a restore works on: directory entries, transaction
 directories with their journals, and the recovery marker.

 The central notion is `Promised`: the object that recovery will leave under a
 destination if the machine stops right now.  `Inv` is the condition every
 durable step keeps; together they say that a half-applied restore is always
 recoverable and what it is recovered to.
 */
module RestoreDisk {
  import opened Wrappers

  type Member = string
  type TxnId = nat

  const DB_MEMBER: Member := "state/tars-state.sqlite3"

  datatype Kind = File | Directory

  datatype Identity = Identity(inode: nat, kind: Kind)

  /** A directory whose deletion or copy was cut short is `Torn`. */
  datatype Content = Whole(data: nat) | Torn

  datatype Object = Object(id: Identity, content: Content)

  /** `Live` is a destination name; the other two are the hidden names
      `.<name>.restore-<txn>-new` and `.<name>.restore-<txn>-old` beside it. */
  datatype Name =
    | Live(member: Member)
    | Incoming(txn: TxnId, member: Member)
    | Saved(txn: TxnId, member: Member)

  type Entries = map<Name, Object>

  datatype Status =
    | Validating | Preparing | Prepared | Applying
    | Rebuilding | RollingBack | RolledBack | Committed

  datatype Item = Item(member: Member, original: Option<Identity>, incoming: Option<Identity>) {
    predicate Existed() { original.Some? }
  }

  datatype Journal = Journal(id: TxnId, status: Status, items: seq<Item>)

  /** A transaction directory holds the journal file and the staging tree. */
  datatype TxnDir = TxnDir(journal: Option<Journal>, staging: bool)

  datatype Disk = Disk(
    entries: Entries,
    txns: map<TxnId, TxnDir>,
    marker: Option<TxnId>,
    nextInode: nat,
    nextTxn: TxnId)

  function At(e: Entries, n: Name): Option<Object> {
    if n in e then Some(e[n]) else None
  }

  predicate SameIdentity(value: Option<Object>, expected: Option<Identity>) {
    if value.None? || expected.None? then
      value.None? && expected.None?
    else
      value.value.id == expected.value
  }

  lemma SameIdentityMeans(value: Option<Object>, expected: Option<Identity>)
    ensures SameIdentity(value, expected) <==> expected == match value case None => None case Some(o) => Some(o.id)
  {
  }

  // ---------------------------------------------------------------- durable effects

  function Renamed(e: Entries, source: Name, destination: Name): Entries
    requires source in e
  {
    (e - {source})[destination := e[source]]
  }

  function WithJournal(d: Disk, t: TxnId, j: Journal): Disk
    requires t in d.txns
  {
    d.(txns := d.txns[t := d.txns[t].(journal := Some(j))])
  }

  /** Creating a name always allocates an identity that was never used before. */
  function Created(d: Disk, n: Name, kind: Kind, content: Content): Disk {
    d.(entries := d.entries[n := Object(Identity(d.nextInode, kind), content)],
       nextInode := d.nextInode + 1)
  }

  // ---------------------------------------------------------------- the invariant

  /** The item's destination holds its original object (or nothing, if there was none). */
  ghost predicate Settled(e: Entries, t: TxnId, it: Item) {
    && Saved(t, it.member) !in e
    && SameIdentity(At(e, Live(it.member)), it.original)
    && StagingKnown(e, t, it)
  }

  /** The original was moved aside; the destination is empty or holds the new object. */
  ghost predicate Displaced(e: Entries, t: TxnId, it: Item) {
    && it.original.Some?
    && SameIdentity(At(e, Saved(t, it.member)), it.original)
    && (Live(it.member) in e ==> SameIdentity(At(e, Live(it.member)), it.incoming))
    && StagingKnown(e, t, it)
  }

  /** There was no original and the new object is already in place. */
  ghost predicate Added(e: Entries, t: TxnId, it: Item) {
    && it.original.None?
    && Saved(t, it.member) !in e
    && Incoming(t, it.member) !in e
    && it.incoming.Some?
    && SameIdentity(At(e, Live(it.member)), it.incoming)
  }

  ghost predicate StagingKnown(e: Entries, t: TxnId, it: Item) {
    Incoming(t, it.member) in e && it.incoming.Some? ==>
      e[Incoming(t, it.member)].id == it.incoming.value
  }

  ghost predicate Recoverable(e: Entries, t: TxnId, it: Item) {
    Settled(e, t, it) || Displaced(e, t, it) || Added(e, t, it)
  }

  ghost predicate Published(e: Entries, t: TxnId, it: Item) {
    && it.incoming.Some?
    && SameIdentity(At(e, Live(it.member)), it.incoming)
    && (Saved(t, it.member) in e ==> SameIdentity(At(e, Saved(t, it.member)), it.original))
    && StagingKnown(e, t, it)
  }

  ghost predicate KnownIdentities(it: Item, nextInode: nat) {
    && (it.original.Some? ==> it.original.value.inode < nextInode)
    && (it.incoming.Some? ==> it.incoming.value.inode < nextInode)
    && (it.original.Some? && it.incoming.Some? ==> it.original.value.inode != it.incoming.value.inode)
  }

  ghost predicate HasMember(items: seq<Item>, m: Member) {
    exists i | 0 <= i < |items| :: items[i].member == m
  }

  ghost predicate AddsMember(items: seq<Item>, m: Member) {
    exists i | 0 <= i < |items| :: items[i].member == m && items[i].original.None?
  }

  ghost predicate DistinctMembers(items: seq<Item>) {
    forall i, k | 0 <= i < k < |items| :: items[i].member != items[k].member
  }

  predicate Journaled(d: Disk, t: TxnId) {
    t in d.txns && d.txns[t].journal.Some?
  }

  ghost predicate ItemInv(e: Entries, j: Journal, mustSettle: bool, it: Item) {
    if j.status == Committed then
      Published(e, j.id, it)
    else
      Recoverable(e, j.id, it) && (mustSettle ==> Settled(e, j.id, it))
  }

  /** Without the marker nobody is warned, so nothing may be half applied. */
  ghost predicate MustSettle(d: Disk, j: Journal) {
    d.marker.None? || j.status == RolledBack
  }

  ghost predicate JournalInv(d: Disk, t: TxnId, j: Journal) {
    && j.id == t
    && DistinctMembers(j.items)
    && (j.status == Validating ==> j.items == [])
    && (forall m | Saved(t, m) in d.entries :: HasMember(j.items, m))
    && (forall i | 0 <= i < |j.items| :: KnownIdentities(j.items[i], d.nextInode))
    && (forall i | 0 <= i < |j.items| :: ItemInv(d.entries, j, MustSettle(d, j), j.items[i]))
  }

  ghost predicate Inv(d: Disk) {
    && (forall n | n in d.entries :: d.entries[n].id.inode < d.nextInode)
    && (forall t: TxnId, m | Incoming(t, m) in d.entries :: t < d.nextTxn)
    && (forall t: TxnId, m | Saved(t, m) in d.entries :: Journaled(d, t))
    && (forall t | t in d.txns :: t < d.nextTxn)
    && (forall t, u | t in d.txns && u in d.txns :: t == u)
    && (d.marker.Some? ==> Journaled(d, d.marker.value))
    && (forall t | Journaled(d, t) :: JournalInv(d, t, d.txns[t].journal.value))
  }

  // ---------------------------------------------------------------- what recovery will leave

  ghost function PromisedBy(e: Entries, j: Journal, m: Member): Option<Object> {
    if j.status == Committed then At(e, Live(m))
    else if Saved(j.id, m) in e then At(e, Saved(j.id, m))
    else if AddsMember(j.items, m) then None
    else At(e, Live(m))
  }

  ghost function Promised(d: Disk, m: Member): Option<Object> {
    if exists t :: Journaled(d, t) then
      var t :| Journaled(d, t);
      PromisedBy(d.entries, d.txns[t].journal.value, m)
    else
      At(d.entries, Live(m))
  }

  ghost predicate SamePromise(a: Disk, b: Disk) {
    forall m :: Promised(a, m) == Promised(b, m)
  }

  /** Every destination already shows what recovery would leave there. */
  ghost predicate Uniform(d: Disk) {
    forall m :: At(d.entries, Live(m)) == Promised(d, m)
  }

  /** A transaction directory that lost its journal but not its staging tree. */
  ghost predicate JournalLost(d: Disk) {
    exists t :: t in d.txns && d.txns[t] == TxnDir(None, true)
  }

  lemma PromisedIs(d: Disk, t: TxnId, m: Member)
    requires Inv(d) && Journaled(d, t)
    ensures Promised(d, m) == PromisedBy(d.entries, d.txns[t].journal.value, m)
  {
  }

  /** The marker is the only licence for a mixed state: without it, or once the
      journal says `committed`, every destination is settled. */
  lemma UnmarkedIsUniform(d: Disk)
    requires Inv(d)
    requires d.marker.None? || exists t :: Journaled(d, t) && d.txns[t].journal.value.status == Committed
    ensures Uniform(d)
  {
    forall m ensures At(d.entries, Live(m)) == Promised(d, m) {
      if t :| Journaled(d, t) {
        PromisedIs(d, t, m);
        var j := d.txns[t].journal.value;
        if j.status != Committed {
          if HasMember(j.items, m) {
            var i :| 0 <= i < |j.items| && j.items[i].member == m;
            assert ItemInv(d.entries, j, MustSettle(d, j), j.items[i]);
          }
        }
      }
    }
  }

  lemma SettledIsUniform(d: Disk, t: TxnId)
    requires Inv(d) && Journaled(d, t)
    requires var j := d.txns[t].journal.value;
      j.status != Committed && forall i | 0 <= i < |j.items| :: Settled(d.entries, t, j.items[i])
    ensures Uniform(d)
    ensures forall m :: Saved(t, m) !in d.entries
  {
    var j := d.txns[t].journal.value;
    forall m ensures At(d.entries, Live(m)) == Promised(d, m) && Saved(t, m) !in d.entries {
      PromisedIs(d, t, m);
      if HasMember(j.items, m) {
        var i :| 0 <= i < |j.items| && j.items[i].member == m;
        assert Settled(d.entries, t, j.items[i]);
      }
    }
  }

  // ---------------------------------------------------------------- steps that keep it

  ghost predicate Touches(n: Name, t: TxnId, m: Member) {
    n == Live(m) || n == Incoming(t, m) || n == Saved(t, m)
  }

  ghost predicate AgreeElsewhere(a: Entries, b: Entries, t: TxnId, m: Member) {
    forall n :: !Touches(n, t, m) ==> At(a, n) == At(b, n)
  }

  lemma FrameItem(a: Entries, b: Entries, j: Journal, mustSettle: bool, it: Item, m: Member)
    requires AgreeElsewhere(a, b, j.id, m) && it.member != m
    ensures ItemInv(a, j, mustSettle, it) <==> ItemInv(b, j, mustSettle, it)
    ensures Settled(a, j.id, it) <==> Settled(b, j.id, it)
  {
    var x := it.member;
    assert At(a, Live(x)) == At(b, Live(x));
    assert At(a, Incoming(j.id, x)) == At(b, Incoming(j.id, x));
    assert At(a, Saved(j.id, x)) == At(b, Saved(j.id, x));
  }

  /** A durable step on the names of one item keeps the invariant and the promise
      as soon as it does so for that item. */
  lemma EntriesStep(a: Disk, b: Disk, t: TxnId, i: nat)
    requires Inv(a) && Journaled(a, t)
    requires b == a.(entries := b.entries, nextInode := b.nextInode) && a.nextInode <= b.nextInode
    requires forall n | n in b.entries :: b.entries[n].id.inode < b.nextInode
    requires
      var j := a.txns[t].journal.value;
      && i < |j.items|
      && AgreeElsewhere(a.entries, b.entries, t, j.items[i].member)
      && ItemInv(b.entries, j, MustSettle(a, j), j.items[i])
      && PromisedBy(a.entries, j, j.items[i].member) == PromisedBy(b.entries, j, j.items[i].member)
    ensures Inv(b) && SamePromise(a, b)
  {
    var j := a.txns[t].journal.value;
    var m := j.items[i].member;
    forall u: TxnId, x | Incoming(u, x) in b.entries ensures u < b.nextTxn {
      if !Touches(Incoming(u, x), t, m) {
        assert At(a.entries, Incoming(u, x)) == At(b.entries, Incoming(u, x));
      }
    }
    forall u: TxnId, x | Saved(u, x) in b.entries ensures Journaled(b, u) && HasMember(j.items, x) {
      if !Touches(Saved(u, x), t, m) {
        assert At(a.entries, Saved(u, x)) == At(b.entries, Saved(u, x));
        assert u == t;
      }
    }
    forall k | 0 <= k < |j.items| ensures ItemInv(b.entries, j, MustSettle(b, j), j.items[k]) {
      if k != i {
        FrameItem(a.entries, b.entries, j, MustSettle(a, j), j.items[k], m);
      }
    }
    assert JournalInv(b, t, j);
    EntriesPromise(a, b, t, m);
  }

  lemma EntriesPromise(a: Disk, b: Disk, t: TxnId, m: Member)
    requires Inv(a) && Inv(b) && Journaled(a, t) && b == a.(entries := b.entries, nextInode := b.nextInode)
    requires AgreeElsewhere(a.entries, b.entries, t, m)
    requires PromisedBy(a.entries, a.txns[t].journal.value, m) == PromisedBy(b.entries, a.txns[t].journal.value, m)
    ensures SamePromise(a, b)
  {
    forall x ensures Promised(a, x) == Promised(b, x) {
      PromisedIs(a, t, x);
      PromisedIs(b, t, x);
      assert At(a.entries, Live(x)) == At(b.entries, Live(x)) || x == m;
      assert At(a.entries, Saved(t, x)) == At(b.entries, Saved(t, x)) || x == m;
    }
  }

  /** Rewriting the journal with another uncommitted status keeps the promise. */
  lemma StatusStep(d: Disk, t: TxnId, status: Status)
    requires Inv(d) && Journaled(d, t)
    requires status != Committed && status != Validating && d.txns[t].journal.value.status != Committed
    requires status == RolledBack ==>
      forall i | 0 <= i < |d.txns[t].journal.value.items| :: Settled(d.entries, t, d.txns[t].journal.value.items[i])
    ensures
      var b := WithJournal(d, t, d.txns[t].journal.value.(status := status));
      Inv(b) && SamePromise(d, b)
  {
    var j := d.txns[t].journal.value;
    var j' := j.(status := status);
    var b := WithJournal(d, t, j');
    forall k | 0 <= k < |j.items| ensures ItemInv(b.entries, j', MustSettle(b, j'), j'.items[k]) {
      assert ItemInv(d.entries, j, MustSettle(d, j), j.items[k]);
    }
    assert JournalInv(b, t, j');
    forall m ensures Promised(d, m) == Promised(b, m) {
      PromisedIs(d, t, m);
      PromisedIs(b, t, m);
    }
  }
}
