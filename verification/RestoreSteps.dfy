/**
 What the steps of a restore do to the invariant and the promise of `RestoreDisk`, one
 lemma a step, and the vocabulary in which the procedures are specified.
 */
module RestoreSteps {
  import opened Wrappers
  import opened RestoreDisk

  /** What befalls one durable step.  `FailsAfter` is the late failure: the effect
      is on disk, but the caller sees an exception. */
  datatype Weather = Fine | FailsBefore | FailsAfter | PowerLoss

  datatype Refusal = IdentityChanged | OrphanMarker | MissingJournal

  /** How a procedure ends.  After `Halted` the process is gone. */
  datatype Signal = Done | Raised | Refused(why: Refusal) | Halted

  /** The members of a bundle in destination order, and whether it validates.
      `reindexed` is the database content after the memory index was rebuilt. */
  datatype Part = Part(member: Member, kind: Kind, data: nat)
  datatype Bundle = Bundle(parts: seq<Part>, genuine: bool, reindexed: Option<nat>)

  predicate DistinctParts(parts: seq<Part>) {
    forall i, k | 0 <= i < k < |parts| :: parts[i].member != parts[k].member
  }

  predicate WellFormed(b: Bundle) {
    DistinctParts(b.parts) && (b.genuine ==> exists i | 0 <= i < |b.parts| :: b.parts[i].member == DB_MEMBER)
  }

  /** The data part `i` ends up with: as shipped, or as rebuilt for the database. */
  function FinalData(b: Bundle, i: nat): nat
    requires i < |b.parts| && b.reindexed.Some?
  {
    if b.parts[i].member == DB_MEMBER then b.reindexed.value else b.parts[i].data
  }

  predicate HasPart(b: Bundle, m: Member) {
    exists i | 0 <= i < |b.parts| :: b.parts[i].member == m
  }

  /** Every destination of the bundle is promised an object of the shipped kind with its
      new data, every other destination is promised what it was promised before. */
  ghost predicate Delivered(a: Disk, b: Disk, bundle: Bundle) {
    && bundle.reindexed.Some?
    && (forall i | 0 <= i < |bundle.parts| ::
          var promised := Promised(b, bundle.parts[i].member);
          promised.Some? && promised.value.id.kind == bundle.parts[i].kind && promised.value.content == Whole(FinalData(bundle, i)))
    && (forall m | !HasPart(bundle, m) :: Promised(b, m) == Promised(a, m))
  }

  predicate Calm(weather: seq<Weather>) {
    forall i | 0 <= i < |weather| :: weather[i] == Fine
  }

  function Now(weather: seq<Weather>): Weather {
    if weather == [] then Fine else weather[0]
  }

  function Later(weather: seq<Weather>): seq<Weather> {
    if weather == [] then [] else weather[1..]
  }

  /** Power fails while a freshly opened transaction validates its bundle. */
  predicate CutsValidation(weather: seq<Weather>) {
    && Now(weather) == Fine && Now(Later(weather)) == Fine && Now(Later(Later(weather))) == Fine
    && Now(Later(Later(Later(weather)))) == Fine && Now(Later(Later(Later(Later(weather))))) == PowerLoss
  }

  /** The marker is cleared and one entry of the directory deleted, but not the other. */
  predicate CutsDeletion(weather: seq<Weather>) {
    Now(weather) == Fine && Now(Later(weather)) == Fine && Now(Later(Later(weather))) in {FailsBefore, PowerLoss}
  }

  /** A marked transaction that still has both its journal and its staging tree. */
  predicate Losing(d: Disk, t: TxnId) {
    Journaled(d, t) && d.txns[t].staging && d.marker == Some(t)
  }

  ghost predicate Keeps(a: Disk, b: Disk) {
    Inv(b) && SamePromise(a, b)
  }

  /** Nothing but the directory entries (and fresh identities) changed. */
  predicate EntriesOnly(a: Disk, b: Disk) {
    b == a.(entries := b.entries, nextInode := b.nextInode) && a.nextInode <= b.nextInode
  }

  function Tore(d: Disk, n: Name): Disk
    requires n in d.entries
  {
    d.(entries := d.entries[n := d.entries[n].(content := Torn)])
  }

  function Without(d: Disk, n: Name): Disk {
    d.(entries := d.entries - {n})
  }

  /** Which names of an item may be deleted, in which situation. */
  ghost predicate Expendable(e: Entries, j: Journal, it: Item, n: Name) {
    var m := it.member;
    if j.status == Committed then
      Published(e, j.id, it) && (n == Saved(j.id, m) || n == Incoming(j.id, m))
    else
      || (n == Incoming(j.id, m) && Settled(e, j.id, it))
      || (n == Live(m) && Displaced(e, j.id, it))
      || (n == Live(m) && Added(e, j.id, it))
  }

  lemma RemoveStep(d: Disk, t: TxnId, i: nat, n: Name)
    requires Inv(d) && Journaled(d, t) && n in d.entries
    requires
      var j := d.txns[t].journal.value;
      && i < |j.items|
      && Expendable(d.entries, j, j.items[i], n)
      && (n == Live(j.items[i].member) ==> !MustSettle(d, j))
    ensures Keeps(d, Tore(d, n)) && Keeps(d, Without(d, n))
    ensures
      var j := d.txns[t].journal.value;
      && AgreeElsewhere(d.entries, Tore(d, n).entries, t, j.items[i].member)
      && AgreeElsewhere(d.entries, Without(d, n).entries, t, j.items[i].member)
  {
    var j := d.txns[t].journal.value;
    var it := j.items[i];
    assert it.original.None? ==> AddsMember(j.items, it.member);
    assert ItemInv(d.entries, j, MustSettle(d, j), it);
    EntriesStep(d, Tore(d, n), t, i);
    EntriesStep(d, Without(d, n), t, i);
  }

  /** Moving the saved object back settles the item. */
  lemma PutBackStep(d: Disk, t: TxnId, i: nat)
    requires Inv(d) && Journaled(d, t)
    requires
      var j := d.txns[t].journal.value;
      && i < |j.items| && j.status != Committed
      && Displaced(d.entries, t, j.items[i]) && Live(j.items[i].member) !in d.entries
    ensures
      var it := d.txns[t].journal.value.items[i];
      var b := d.(entries := Renamed(d.entries, Saved(t, it.member), Live(it.member)));
      && Keeps(d, b) && Settled(b.entries, t, it)
      && AgreeElsewhere(d.entries, b.entries, t, it.member)
  {
    var j := d.txns[t].journal.value;
    var it := j.items[i];
    var b := d.(entries := Renamed(d.entries, Saved(t, it.member), Live(it.member)));
    EntriesStep(d, b, t, i);
  }

  /** No transaction is pending and every destination is settled. */
  ghost predicate Idle(d: Disk) {
    d.txns == map[] && d.marker.None? && Uniform(d)
  }

  lemma IdleIsUniform(d: Disk)
    requires Inv(d) && d.txns == map[]
    ensures Idle(d)
  {
  }

  /** The transaction directory is no longer needed by anybody. */
  ghost predicate Discardable(d: Disk, t: TxnId) {
    && t in d.txns && d.marker.None? && Uniform(d)
    && forall m :: Saved(t, m) !in d.entries
  }

  lemma DirectoryStep(d: Disk, t: TxnId, dir: TxnDir)
    requires Inv(d) && Discardable(d, t)
    requires dir.journal == d.txns[t].journal || dir.journal.None?
    ensures
      var b := d.(txns := d.txns[t := dir]);
      Keeps(d, b) && Discardable(b, t)
    ensures
      var b := d.(txns := d.txns - {t});
      Keeps(d, b)
  {
    var b := d.(txns := d.txns[t := dir]);
    forall u | Journaled(b, u) ensures JournalInv(b, u, b.txns[u].journal.value) {
      assert Journaled(d, u);
      var j := d.txns[u].journal.value;
      assert JournalInv(d, u, j);
      forall i | 0 <= i < |j.items| ensures ItemInv(b.entries, j, MustSettle(b, j), j.items[i]) {
        assert ItemInv(d.entries, j, MustSettle(d, j), j.items[i]);
      }
    }
    forall m ensures Promised(b, m) == Promised(d, m) {
      assert At(d.entries, Live(m)) == Promised(d, m);
      if Journaled(b, t) {
        PromisedIs(b, t, m);
        PromisedIs(d, t, m);
      }
    }
    assert forall m :: Promised(d.(txns := d.txns - {t}), m) == At(d.entries, Live(m));
  }

  lemma UnmarkStep(d: Disk, t: TxnId)
    requires Inv(d) && Journaled(d, t)
    requires d.txns[t].journal.value.status in {Validating, RolledBack, Committed}
    ensures Keeps(d, d.(marker := None))
  {
    var b := d.(marker := None);
    var j := d.txns[t].journal.value;
    forall i | 0 <= i < |j.items| ensures ItemInv(b.entries, j, MustSettle(b, j), j.items[i]) {
      assert ItemInv(d.entries, j, MustSettle(d, j), j.items[i]);
    }
    assert JournalInv(b, t, j);
    forall m ensures Promised(b, m) == Promised(d, m) {
      PromisedIs(b, t, m);
      PromisedIs(d, t, m);
    }
  }

  ghost predicate Matches(items: seq<Item>, parts: seq<Part>) {
    |items| == |parts| && forall i | 0 <= i < |items| :: items[i].member == parts[i].member
  }

  /** A transaction that has a marker and a journal but has not looked at anything. */
  ghost predicate Opened(d: Disk, t: TxnId) {
    && Journaled(d, t) && d.txns[t].journal == Some(Journal(t, Validating, []))
    && d.marker == Some(t)
    && forall m :: Incoming(t, m) !in d.entries
  }

  /** The pending transaction is the same one, still unfinished. */
  predicate InTransaction(a: Disk, b: Disk, t: TxnId) {
    && b.txns.Keys == a.txns.Keys && b.marker == a.marker && b.nextTxn == a.nextTxn
    && Journaled(b, t) && b.txns[t].journal.value.status != Committed
  }

  /** The item has been looked at, and nothing was put beside it yet. */
  ghost predicate Untouched(e: Entries, t: TxnId, it: Item) {
    Settled(e, t, it) && Incoming(t, it.member) !in e
  }

  /** The object is what the part ships: a file or a directory, and complete. */
  predicate Ships(o: Object, part: Part) {
    o.id.kind == part.kind && o.content == Whole(part.data)
  }

  ghost predicate Staged(e: Entries, t: TxnId, it: Item, part: Part) {
    && Settled(e, t, it) && it.incoming.Some?
    && Incoming(t, it.member) in e
    && Ships(e[Incoming(t, it.member)], part)
  }

  ghost predicate Installed(e: Entries, t: TxnId, it: Item, part: Part) {
    && it.incoming.Some?
    && (Displaced(e, t, it) || Added(e, t, it))
    && Live(it.member) in e && Incoming(t, it.member) !in e
    && Ships(e[Live(it.member)], part)
  }

  /** The first `k` items are staged, the others untouched. */
  ghost predicate Progressed(e: Entries, t: TxnId, items: seq<Item>, parts: seq<Part>, k: nat)
    requires |items| == |parts|
  {
    && (forall i | 0 <= i < |items| && i < k :: Staged(e, t, items[i], parts[i]))
    && (forall i | k <= i < |items| :: items[i].incoming.None? && Untouched(e, t, items[i]))
  }

  /** Every part is in place, the database with its rebuilt index. */
  ghost predicate Rebuilt(e: Entries, t: TxnId, items: seq<Item>, bundle: Bundle)
    requires |items| == |bundle.parts| && bundle.reindexed.Some?
  {
    forall i | 0 <= i < |items| :: Installed(e, t, items[i], bundle.parts[i].(data := FinalData(bundle, i)))
  }

  /** Work on one item leaves the progress of all others alone. */
  lemma FrameProgress(a: Entries, b: Entries, j: Journal, parts: seq<Part>, k: nat)
    requires k < |j.items| && Matches(j.items, parts) && DistinctMembers(j.items)
    requires AgreeElsewhere(a, b, j.id, j.items[k].member)
    ensures forall i | 0 <= i < |j.items| && i != k ::
      && (Untouched(a, j.id, j.items[i]) ==> Untouched(b, j.id, j.items[i]))
      && (Staged(a, j.id, j.items[i], parts[i]) ==> Staged(b, j.id, j.items[i], parts[i]))
      && (Installed(a, j.id, j.items[i], parts[i]) ==> Installed(b, j.id, j.items[i], parts[i]))
  {
    forall i | 0 <= i < |j.items| && i != k
      ensures Untouched(a, j.id, j.items[i]) ==> Untouched(b, j.id, j.items[i])
      ensures Staged(a, j.id, j.items[i], parts[i]) ==> Staged(b, j.id, j.items[i], parts[i])
      ensures Installed(a, j.id, j.items[i], parts[i]) ==> Installed(b, j.id, j.items[i], parts[i])
    {
      var m := j.items[i].member;
      assert m != j.items[k].member;
      assert At(a, Live(m)) == At(b, Live(m));
      assert At(a, Incoming(j.id, m)) == At(b, Incoming(j.id, m));
      assert At(a, Saved(j.id, m)) == At(b, Saved(j.id, m));
    }
  }

  lemma OpenedKeeps(a: Disk, b: Disk, t: TxnId)
    requires Inv(a) && Idle(a) && t == a.nextTxn
    requires b.entries == a.entries && b.nextInode == a.nextInode && b.nextTxn == t + 1
    requires b.txns.Keys == {t} && b.txns[t].journal == Some(Journal(t, Validating, []))
    requires b.marker in {None, Some(t)}
    ensures Keeps(a, b) && forall m :: Incoming(t, m) !in b.entries
  {
    assert JournalInv(b, t, b.txns[t].journal.value);
    forall m ensures Promised(a, m) == Promised(b, m) {
      PromisedIs(b, t, m);
    }
  }

  /** Journaling the items of an opened transaction changes no promise: what is
      absent is promised absent. */
  lemma ItemsStep(d: Disk, t: TxnId, items: seq<Item>)
    requires Inv(d) && Opened(d, t) && DistinctMembers(items)
    requires forall i | 0 <= i < |items| :: items[i].incoming.None? && Untouched(d.entries, t, items[i])
    ensures Keeps(d, WithJournal(d, t, Journal(t, Preparing, items)))
  {
    var j := Journal(t, Preparing, items);
    var b := WithJournal(d, t, j);
    assert JournalInv(d, t, d.txns[t].journal.value);
    assert JournalInv(b, t, j);
    forall m ensures Promised(d, m) == Promised(b, m) {
      PromisedIs(d, t, m);
      PromisedIs(b, t, m);
    }
  }

  /** Journaling the identity of a copy that was just made. */
  lemma RecordStep(d: Disk, t: TxnId, i: nat, identity: Identity)
    requires Inv(d) && Journaled(d, t)
    requires
      var j := d.txns[t].journal.value;
      && j.status == Preparing && i < |j.items| && j.items[i].incoming.None?
      && Settled(d.entries, t, j.items[i])
      && Incoming(t, j.items[i].member) in d.entries
      && d.entries[Incoming(t, j.items[i].member)].id == identity
      && (j.items[i].original.Some? ==> j.items[i].original.value.inode < identity.inode)
    ensures
      var j := d.txns[t].journal.value;
      Keeps(d, WithJournal(d, t, j.(items := j.items[i := j.items[i].(incoming := Some(identity))])))
  {
    var j := d.txns[t].journal.value;
    var j' := j.(items := j.items[i := j.items[i].(incoming := Some(identity))]);
    var b := WithJournal(d, t, j');
    forall m ensures HasMember(j.items, m) == HasMember(j'.items, m) && AddsMember(j.items, m) == AddsMember(j'.items, m) {
      SameMembers(j.items, j'.items, m);
      SameMembers(j'.items, j.items, m);
    }
    forall k | 0 <= k < |j'.items| ensures ItemInv(b.entries, j', MustSettle(b, j'), j'.items[k]) {
      assert ItemInv(d.entries, j, MustSettle(d, j), j.items[k]);
    }
    assert JournalInv(b, t, j');
    forall m ensures Promised(d, m) == Promised(b, m) {
      PromisedIs(d, t, m);
      PromisedIs(b, t, m);
    }
  }

  lemma SameMembers(a: seq<Item>, b: seq<Item>, m: Member)
    requires |a| == |b|
    requires forall i | 0 <= i < |a| :: a[i].member == b[i].member && a[i].original == b[i].original
    ensures HasMember(a, m) ==> HasMember(b, m)
    ensures AddsMember(a, m) ==> AddsMember(b, m)
  {
    if HasMember(a, m) {
      var i :| 0 <= i < |a| && a[i].member == m;
      assert b[i].member == m;
    }
    if AddsMember(a, m) {
      var i :| 0 <= i < |a| && a[i].member == m && a[i].original.None?;
      assert b[i].member == m && b[i].original.None?;
    }
  }

  lemma MoveAsideStep(d: Disk, t: TxnId, i: nat)
    requires Inv(d) && Journaled(d, t) && !MustSettle(d, d.txns[t].journal.value)
    requires
      var j := d.txns[t].journal.value;
      && i < |j.items| && j.status != Committed
      && Settled(d.entries, t, j.items[i]) && j.items[i].original.Some?
    ensures
      var it := d.txns[t].journal.value.items[i];
      var b := d.(entries := Renamed(d.entries, Live(it.member), Saved(t, it.member)));
      && Keeps(d, b) && Displaced(b.entries, t, it) && AgreeElsewhere(d.entries, b.entries, t, it.member)
  {
    var it := d.txns[t].journal.value.items[i];
    var b := d.(entries := Renamed(d.entries, Live(it.member), Saved(t, it.member)));
    EntriesStep(d, b, t, i);
  }

  lemma MoveInStep(d: Disk, t: TxnId, i: nat)
    requires Inv(d) && Journaled(d, t) && !MustSettle(d, d.txns[t].journal.value)
    requires
      var j := d.txns[t].journal.value;
      && i < |j.items| && j.status != Committed
      && Live(j.items[i].member) !in d.entries && Incoming(t, j.items[i].member) in d.entries
      && j.items[i].incoming.Some?
      && (if j.items[i].original.Some? then Displaced(d.entries, t, j.items[i]) else Settled(d.entries, t, j.items[i]))
    ensures
      var it := d.txns[t].journal.value.items[i];
      var b := d.(entries := Renamed(d.entries, Incoming(t, it.member), Live(it.member)));
      && Keeps(d, b) && AgreeElsewhere(d.entries, b.entries, t, it.member)
      && (Displaced(b.entries, t, it) || Added(b.entries, t, it))
  {
    var j := d.txns[t].journal.value;
    var it := j.items[i];
    var b := d.(entries := Renamed(d.entries, Incoming(t, it.member), Live(it.member)));
    assert it.original.None? ==> AddsMember(j.items, it.member);
    EntriesStep(d, b, t, i);
  }

  /** The one durable step that changes the promise: writing `committed`. */
  lemma CommitStep(d: Disk, t: TxnId, bundle: Bundle)
    requires Inv(d) && Journaled(d, t) && bundle.reindexed.Some?
    requires
      var j := d.txns[t].journal.value;
      && j.status != Committed && j.status != Validating && Matches(j.items, bundle.parts)
      && Rebuilt(d.entries, t, j.items, bundle)
    ensures
      var b := WithJournal(d, t, d.txns[t].journal.value.(status := Committed));
      Inv(b) && Delivered(d, b, bundle)
  {
    var j := d.txns[t].journal.value;
    var j' := j.(status := Committed);
    var b := WithJournal(d, t, j');
    forall i | 0 <= i < |j.items| ensures ItemInv(b.entries, j', MustSettle(b, j'), j'.items[i]) {
      assert Installed(d.entries, t, j.items[i], bundle.parts[i].(data := FinalData(bundle, i)));
    }
    assert JournalInv(b, t, j');
    forall i | 0 <= i < |bundle.parts|
      ensures Promised(b, bundle.parts[i].member).Some?
      ensures Promised(b, bundle.parts[i].member).value.id.kind == bundle.parts[i].kind
      ensures Promised(b, bundle.parts[i].member).value.content == Whole(FinalData(bundle, i))
    {
      assert Installed(d.entries, t, j.items[i], bundle.parts[i].(data := FinalData(bundle, i)));
      PromisedIs(b, t, bundle.parts[i].member);
    }
    forall m | !HasPart(bundle, m) ensures Promised(b, m) == Promised(d, m) {
      assert HasMember(j.items, m) ==> HasPart(bundle, m);
      assert AddsMember(j.items, m) ==> HasPart(bundle, m);
      PromisedIs(b, t, m);
      PromisedIs(d, t, m);
    }
  }

  lemma DeliveredStays(a: Disk, b: Disk, c: Disk, bundle: Bundle)
    requires Delivered(a, b, bundle) && SamePromise(b, c)
    ensures Delivered(a, c, bundle)
  {
    forall i | 0 <= i < |bundle.parts|
      ensures
        var promised := Promised(c, bundle.parts[i].member);
        promised.Some? && promised.value.id.kind == bundle.parts[i].kind && promised.value.content == Whole(FinalData(bundle, i))
    {
      assert Promised(b, bundle.parts[i].member) == Promised(c, bundle.parts[i].member);
    }
    forall m | !HasPart(bundle, m) ensures Promised(c, m) == Promised(a, m) {
      assert Promised(b, m) == Promised(c, m);
    }
  }

  lemma DeliveredFrom(a: Disk, b: Disk, c: Disk, bundle: Bundle, committed: bool)
    requires SamePromise(a, b)
    requires if committed then Delivered(b, c, bundle) else SamePromise(b, c)
    ensures if committed then Delivered(a, c, bundle) else SamePromise(a, c)
  {
    if committed {
      forall m | !HasPart(bundle, m) ensures Promised(c, m) == Promised(a, m) {
        assert Promised(a, m) == Promised(b, m);
      }
    }
  }

  datatype Request =
    | Restore(bundle: Bundle, weather: seq<Weather>)
    | Recovery(weather: seq<Weather>)

  /** What a reader sees of an object: whether it is a file or a directory, and its content. */
  datatype Shape = Shape(kind: Kind, content: Content)

  ghost function PromisedShape(d: Disk, m: Member): Option<Shape> {
    match Promised(d, m) case None => None case Some(o) => Some(Shape(o.id.kind, o.content))
  }

  /** What the bundle puts under a member it has. */
  ghost function Shipped(b: Bundle, m: Member): Shape
    requires HasPart(b, m) && b.reindexed.Some?
  {
    var i :| 0 <= i < |b.parts| && b.parts[i].member == m;
    Shape(b.parts[i].kind, Whole(FinalData(b, i)))
  }

  /** What one request makes of `m`: a committed restore replaces it, if its bundle has the
      member, and nothing else changes it. */
  ghost function Answered(request: Request, committed: bool, m: Member, was: Option<Shape>): Option<Shape>
    requires committed ==> request.Restore? && request.bundle.reindexed.Some?
  {
    if committed && HasPart(request.bundle, m) then Some(Shipped(request.bundle, m)) else was
  }

  /** What `m` is after the committed restores were applied one by one. */
  ghost function Replayed(d: Disk, requests: seq<Request>, committed: seq<bool>, m: Member): Option<Shape>
    requires |committed| == |requests|
    requires forall i | 0 <= i < |requests| :: committed[i] ==> requests[i].Restore? && requests[i].bundle.reindexed.Some?
  {
    if requests == [] then
      PromisedShape(d, m)
    else
      var last := |requests| - 1;
      Answered(requests[last], committed[last], m, Replayed(d, requests[..last], committed[..last], m))
  }

  /** Everything is promised as the committed restores left it. */
  ghost predicate Tracks(start: Disk, d: Disk, requests: seq<Request>, committed: seq<bool>)
    requires |committed| == |requests|
    requires forall i | 0 <= i < |requests| :: committed[i] ==> requests[i].Restore? && requests[i].bundle.reindexed.Some?
  {
    forall m :: PromisedShape(d, m) == Replayed(start, requests, committed, m)
  }

  lemma TracksStep(start: Disk, a: Disk, b: Disk, requests: seq<Request>, committed: seq<bool>, request: Request, flag: bool)
    requires |committed| == |requests|
    requires forall i | 0 <= i < |requests| :: committed[i] ==> requests[i].Restore? && requests[i].bundle.reindexed.Some?
    requires flag ==> request.Restore? && request.bundle.reindexed.Some?
    requires Tracks(start, a, requests, committed)
    requires forall m :: PromisedShape(b, m) == Answered(request, flag, m, PromisedShape(a, m))
    ensures Tracks(start, b, requests + [request], committed + [flag])
  {
    assert (requests + [request])[..|requests|] == requests && (committed + [flag])[..|requests|] == committed;
  }

  /** A copy appears beside its destination under an identity never used before. */
  lemma CreateCopyStep(d: Disk, t: TxnId, i: nat, kind: Kind, content: Content)
    requires Inv(d) && Journaled(d, t) && d.marker.Some?
    requires
      var j := d.txns[t].journal.value;
      && i < |j.items| && j.status == Preparing
      && Untouched(d.entries, t, j.items[i]) && j.items[i].incoming.None?
    ensures
      var it := d.txns[t].journal.value.items[i];
      var b := Created(d, Incoming(t, it.member), kind, content);
      && Keeps(d, b) && AgreeElsewhere(d.entries, b.entries, t, it.member)
      && Settled(b.entries, t, it)
  {
    var it := d.txns[t].journal.value.items[i];
    assert JournalInv(d, t, d.txns[t].journal.value);
    EntriesStep(d, Created(d, Incoming(t, it.member), kind, content), t, i);
  }

  /** A copied directory is filled, keeping its identity. */
  lemma FillCopyStep(d: Disk, t: TxnId, i: nat, content: Content)
    requires Inv(d) && Journaled(d, t)
    requires
      var j := d.txns[t].journal.value;
      && i < |j.items| && j.status == Preparing
      && Settled(d.entries, t, j.items[i]) && Incoming(t, j.items[i].member) in d.entries
    ensures
      var it := d.txns[t].journal.value.items[i];
      var n := Incoming(t, it.member);
      var b := d.(entries := d.entries[n := d.entries[n].(content := content)]);
      && Keeps(d, b) && AgreeElsewhere(d.entries, b.entries, t, it.member)
      && Settled(b.entries, t, it)
  {
    var n := Incoming(t, d.txns[t].journal.value.items[i].member);
    assert JournalInv(d, t, d.txns[t].journal.value);
    EntriesStep(d, d.(entries := d.entries[n := d.entries[n].(content := content)]), t, i);
  }

  /** The database, once in place, is rewritten with its rebuilt index. */
  lemma RebuildStep(d: Disk, t: TxnId, bundle: Bundle, i: nat)
    requires Inv(d) && Journaled(d, t) && bundle.reindexed.Some?
    requires i < |bundle.parts| && bundle.parts[i].member == DB_MEMBER
    requires
      var j := d.txns[t].journal.value;
      && j.status == Rebuilding && Matches(j.items, bundle.parts)
      && forall k | 0 <= k < |j.items| :: Installed(d.entries, t, j.items[k], bundle.parts[k])
    ensures
      var j := d.txns[t].journal.value;
      && Live(DB_MEMBER) in d.entries
      && var n := Live(DB_MEMBER);
      && var b := d.(entries := d.entries[n := d.entries[n].(content := Whole(bundle.reindexed.value))]);
      && Keeps(d, b)
      && Rebuilt(b.entries, t, j.items, bundle)
  {
    var j := d.txns[t].journal.value;
    var n := Live(DB_MEMBER);
    assert JournalInv(d, t, j) && Installed(d.entries, t, j.items[i], bundle.parts[i]);
    var b := d.(entries := d.entries[n := d.entries[n].(content := Whole(bundle.reindexed.value))]);
    EntriesStep(d, b, t, i);
    FrameProgress(d.entries, b.entries, j, bundle.parts, i);
    forall k | 0 <= k < |j.items|
      ensures Installed(b.entries, t, j.items[k], bundle.parts[k].(data := FinalData(bundle, k)))
    {
      assert Installed(d.entries, t, j.items[k], bundle.parts[k]);
      assert k != i ==> j.items[k].member != DB_MEMBER;
    }
  }
}
