/**
 The restore, rollback, finalize and recovery procedures, run against a disk on
 which every durable step may fail, fail late, or never return.

 Each method says what holds however it ends: `Keeps` (the invariant and the
 promise of `RestoreDisk`) when it was cut short, the finished state when it
 returned normally, and that it never takes one of its identity errors.
 */
module RestoreEngine {
  import opened Wrappers
  import opened RestoreDisk
  import opened RestoreSteps

  /** The three names of an item after one of its steps; the others are untouched. */
  twostate predicate OnlyItem(x: Installation, t: TxnId, m: Member)
    reads x
  {
    EntriesOnly(old(x.disk), x.disk) && AgreeElsewhere(old(x.disk.entries), x.disk.entries, t, m)
  }

  class Installation {
    var disk: Disk
    var weather: seq<Weather>
    /** The order in which a transaction directory lists its two entries. */
    const journalListedFirst: TxnId -> bool

    constructor (entries: Entries, nextInode: nat, weather: seq<Weather>, journalListedFirst: TxnId -> bool)
      requires forall n | n in entries :: n.Live? && entries[n].id.inode < nextInode
      ensures Valid() && !JournalLost(disk) && disk == Disk(entries, map[], None, nextInode, 0)
      ensures forall m :: Promised(disk, m) == At(entries, Live(m))
      ensures this.weather == weather && this.journalListedFirst == journalListedFirst
    {
      disk := Disk(entries, map[], None, nextInode, 0);
      this.weather := weather;
      this.journalListedFirst := journalListedFirst;
    }

    /** A directory can lose its journal before its staging tree only if it lists
        the journal first. */
    ghost predicate Valid()
      reads this
    {
      Inv(disk) && forall t | t in disk.txns && disk.txns[t] == TxnDir(None, true) :: journalListedFirst(t)
    }

    /** One durable step. */
    method Durable(next: Disk) returns (signal: Signal)
      modifies this
      ensures weather == Later(old(weather))
      ensures match Now(old(weather))
        case Fine => signal == Done && disk == next
        case FailsBefore => signal == Raised && disk == old(disk)
        case FailsAfter => signal == Raised && disk == next
        case PowerLoss => signal == Halted && disk == old(disk)
      ensures Calm(old(weather)) ==> Calm(weather)
    {
      var now := Now(weather);
      weather := Later(weather);
      match now
      case Fine => disk := next; signal := Done;
      case FailsBefore => signal := Raised;
      case FailsAfter => disk := next; signal := Raised;
      case PowerLoss => signal := Halted;
    }

    /** Deleting a directory empties it first; both halves are durable. */
    method RemovePath(n: Name, expected: Option<Identity>) returns (signal: Signal)
      modifies this
      ensures n !in old(disk.entries) ==> signal == Done && disk == old(disk)
      ensures n in old(disk.entries) && expected.Some? && !SameIdentity(At(old(disk.entries), n), expected) ==>
        signal == Refused(IdentityChanged) && disk == old(disk)
      ensures n in old(disk.entries) && (expected.None? || SameIdentity(At(old(disk.entries), n), expected)) ==>
        && !signal.Refused?
        && (disk == old(disk) || disk == Tore(old(disk), n) || disk == Without(old(disk), n))
        && (signal == Done ==> disk == Without(old(disk), n))
      ensures Calm(old(weather)) ==> Calm(weather) && (signal == Done || signal.Refused?)
    {
      var current := At(disk.entries, n);
      if current.None? {
        return Done;
      }
      if expected.Some? && !SameIdentity(current, expected) {
        return Refused(IdentityChanged);
      }
      if current.value.id.kind == Directory {
        signal := Durable(Tore(disk, n));
        if signal != Done {
          return;
        }
      }
      signal := Durable(Without(disk, n));
      assert Without(disk, n) == Without(old(disk), n);
    }

    /** Clears the destination of the new object, if it is there, and moves the saved
        one back. */
    method PutBack(t: TxnId, i: nat) returns (signal: Signal)
      requires Valid() && Journaled(disk, t)
      requires
        var j := disk.txns[t].journal.value;
        i < |j.items| && j.status == RollingBack && Displaced(disk.entries, t, j.items[i])
      modifies this
      ensures Valid() && Keeps(old(disk), disk)
      ensures OnlyItem(this, t, old(disk.txns[t].journal.value.items[i].member))
      ensures !signal.Refused?
      ensures
        var it := old(disk.txns[t].journal.value.items[i]);
        && (Incoming(t, it.member) in disk.entries <==> Incoming(t, it.member) in old(disk.entries))
        && (signal == Done ==> Settled(disk.entries, t, it))
      ensures Calm(old(weather)) ==> signal == Done && Calm(weather)
    {
      var j := disk.txns[t].journal.value;
      var it := j.items[i];
      var m := it.member;
      assert JournalInv(disk, t, j) && ItemInv(disk.entries, j, MustSettle(disk, j), it);
      var destination := At(disk.entries, Live(m));
      signal := Done;
      if destination.Some? {
        if !SameIdentity(destination, it.incoming) {
          signal := Refused(IdentityChanged);
        } else {
          RemoveStep(disk, t, i, Live(m));
          signal := RemovePath(Live(m), it.incoming);
        }
      }
      if signal == Done {
        PutBackStep(disk, t, i);
        signal := Durable(disk.(entries := Renamed(disk.entries, Saved(t, m), Live(m))));
      }
    }

    method RollbackItem(t: TxnId, i: nat) returns (signal: Signal)
      requires Valid() && Journaled(disk, t)
      requires disk.txns[t].journal.value.status == RollingBack
      requires i < |disk.txns[t].journal.value.items|
      modifies this
      ensures Valid() && Keeps(old(disk), disk)
      ensures OnlyItem(this, t, old(disk.txns[t].journal.value.items[i].member))
      ensures !signal.Refused?
      ensures signal == Done ==> Settled(disk.entries, t, old(disk.txns[t].journal.value.items[i]))
      // A copy is left behind exactly when the process died between the two renames.
      ensures signal == Done ==>
        var m := old(disk.txns[t].journal.value.items[i].member);
        Incoming(t, m) in disk.entries <==> Incoming(t, m) in old(disk.entries) && Saved(t, m) in old(disk.entries)
      ensures Calm(old(weather)) ==> signal == Done && Calm(weather)
    {
      var j := disk.txns[t].journal.value;
      var it := j.items[i];
      var m := it.member;
      assert JournalInv(disk, t, j) && ItemInv(disk.entries, j, MustSettle(disk, j), it);
      var destination := At(disk.entries, Live(m));
      var incoming := At(disk.entries, Incoming(t, m));
      var saved := At(disk.entries, Saved(t, m));
      signal := Done;
      if saved.Some? {
        if !SameIdentity(saved, it.original) {
          signal := Refused(IdentityChanged);
        } else {
          signal := PutBack(t, i);
        }
      } else if incoming.Some? {
        if it.incoming.Some? && !SameIdentity(incoming, it.incoming) {
          signal := Refused(IdentityChanged);
        } else {
          RemoveStep(disk, t, i, Incoming(t, m));
          signal := RemovePath(Incoming(t, m), it.incoming);
        }
      } else if SameIdentity(destination, it.incoming) {
        if it.Existed() {
          signal := Refused(IdentityChanged);
        } else {
          if destination.Some? {
            RemoveStep(disk, t, i, Live(m));
          }
          signal := RemovePath(Live(m), it.incoming);
        }
      } else if it.Existed() && !SameIdentity(destination, it.original) {
        signal := Refused(IdentityChanged);
      } else if !it.Existed() && destination.Some? {
        signal := Refused(IdentityChanged);
      }
    }

    method WriteJournal(t: TxnId, j: Journal) returns (signal: Signal)
      requires t in disk.txns
      modifies this
      ensures disk == old(disk) || disk == WithJournal(old(disk), t, j)
      ensures signal == Done ==> disk == WithJournal(old(disk), t, j)
      ensures weather == Later(old(weather)) && (Now(old(weather)) == Fine ==> signal == Done)
      ensures !signal.Refused?
      ensures Calm(old(weather)) ==> signal == Done && Calm(weather)
    {
      signal := Durable(WithJournal(disk, t, j));
    }

    method ClearMarker(t: TxnId) returns (signal: Signal)
      requires Valid() && Journaled(disk, t)
      requires disk.txns[t].journal.value.status in {Validating, RolledBack, Committed}
      modifies this
      ensures Valid() && Keeps(old(disk), disk)
      ensures disk == old(disk) || disk == old(disk).(marker := None)
      ensures signal == Done ==> disk.marker.None?
      ensures old(disk.marker) == Some(t) && Now(old(weather)) == Fine ==> signal == Done && weather == Later(old(weather))
      ensures !signal.Refused?
      ensures Calm(old(weather)) ==> signal == Done && Calm(weather)
    {
      signal := Done;
      if disk.marker.Some? {
        if disk.marker.value != t {
          signal := Refused(OrphanMarker);
        } else {
          UnmarkStep(disk, t);
          signal := Durable(disk.(marker := None));
        }
      }
    }

    /** Deletes the directory in its own listing order: a cut between the journal and
        the staging tree leaves a directory recovery will refuse. */
    method DeleteTransaction(t: TxnId) returns (signal: Signal)
      requires Valid() && Discardable(disk, t)
      modifies this
      ensures Valid() && Keeps(old(disk), disk)
      ensures disk == old(disk).(txns := disk.txns) && disk.txns.Keys <= old(disk.txns.Keys)
      ensures t in disk.txns ==> disk.txns[t].journal in {None, old(disk.txns[t].journal)}
      ensures signal == Done ==> disk.txns == map[]
      ensures !signal.Refused?
      ensures Calm(old(weather)) ==> signal == Done && Calm(weather)
      ensures
        && journalListedFirst(t) && old(disk.txns[t].journal.Some? && disk.txns[t].staging)
        && Now(old(weather)) == Fine && Now(Later(old(weather))) in {FailsBefore, PowerLoss}
        ==> JournalLost(disk)
    {
      signal := Done;
      var step := 0;
      while step < 2
        invariant 0 <= step <= 2
        invariant Valid() && Discardable(disk, t) && Keeps(old(disk), disk)
        invariant disk == old(disk).(txns := disk.txns) && disk.txns.Keys == old(disk.txns.Keys)
        invariant signal == Done && (Calm(old(weather)) ==> Calm(weather))
        invariant disk.txns[t].journal in {None, old(disk.txns[t].journal)}
        invariant step == 0 ==> disk == old(disk) && weather == old(weather)
        invariant step == 1 && journalListedFirst(t) && old(disk.txns[t].journal.Some? && disk.txns[t].staging) ==>
          weather == Later(old(weather)) && disk.txns[t] == TxnDir(None, true) && Now(old(weather)) == Fine
        invariant step == 1 && !journalListedFirst(t) ==> !disk.txns[t].staging
        invariant step == 2 ==> disk.txns[t] == TxnDir(None, false)
        invariant step == 2 && journalListedFirst(t) && old(disk.txns[t].journal.Some? && disk.txns[t].staging) ==>
          Now(Later(old(weather))) == Fine
        invariant step >= 1 && journalListedFirst(t) ==> disk.txns[t].journal.None?
      {
        var dir := disk.txns[t];
        var removeJournal := journalListedFirst(t) == (step == 0);
        if removeJournal && dir.journal.Some? {
          DirectoryStep(disk, t, dir.(journal := None));
          signal := Durable(disk.(txns := disk.txns[t := dir.(journal := None)]));
        } else if !removeJournal && dir.staging {
          DirectoryStep(disk, t, dir.(staging := false));
          signal := Durable(disk.(txns := disk.txns[t := dir.(staging := false)]));
        }
        if signal != Done {
          return;
        }
        step := step + 1;
      }
      DirectoryStep(disk, t, TxnDir(None, false));
      signal := Durable(disk.(txns := disk.txns - {t}));
    }

    /** The common end of a rollback, a finalization and a cancelled validation: the
        marker goes first, the transaction directory last. */
    method Close(t: TxnId) returns (signal: Signal)
      requires Valid() && Journaled(disk, t) && Uniform(disk)
      requires disk.txns[t].journal.value.status in {Validating, RolledBack, Committed}
      requires forall m :: Saved(t, m) !in disk.entries
      modifies this
      ensures Valid() && Keeps(old(disk), disk)
      ensures disk.txns.Keys <= old(disk.txns.Keys) && disk.nextTxn == old(disk.nextTxn)
      ensures Journaled(disk, t) ==> disk.txns[t].journal == old(disk.txns[t].journal)
      ensures signal == Done ==> Idle(disk)
      ensures disk.entries == old(disk.entries)
      ensures old(Losing(disk, t)) && journalListedFirst(t) && CutsDeletion(old(weather)) ==> JournalLost(disk)
      ensures !signal.Refused?
      ensures Calm(old(weather)) ==> signal == Done && Calm(weather)
    {
      signal := ClearMarker(t);
      if signal == Done {
        UnmarkedIsUniform(disk);
        signal := DeleteTransaction(t);
        if signal == Done {
          IdleIsUniform(disk);
        }
      }
    }

    /** The loop of the rollback, over the items in reverse order. */
    method UndoItems(t: TxnId, j: Journal) returns (signal: Signal)
      requires Valid() && Journaled(disk, t) && disk.txns[t].journal == Some(j) && j.status == RollingBack
      modifies this
      ensures Valid() && Keeps(old(disk), disk) && EntriesOnly(old(disk), disk)
      ensures signal == Done ==> forall i | 0 <= i < |j.items| :: Settled(disk.entries, t, j.items[i])
      ensures !signal.Refused?
      ensures Calm(old(weather)) ==> signal == Done && Calm(weather)
    {
      signal := Done;
      assert JournalInv(disk, t, j);
      var k := |j.items|;
      while k > 0
        invariant 0 <= k <= |j.items|
        invariant Valid() && Keeps(old(disk), disk) && EntriesOnly(old(disk), disk)
        invariant forall i | k <= i < |j.items| :: Settled(disk.entries, t, j.items[i])
        invariant signal == Done && (Calm(old(weather)) ==> Calm(weather))
      {
        k := k - 1;
        ghost var before := disk.entries;
        signal := RollbackItem(t, k);
        if signal != Done {
          return;
        }
        forall i | k < i < |j.items| ensures Settled(disk.entries, t, j.items[i]) {
          FrameItem(before, disk.entries, j, false, j.items[i], j.items[k].member);
        }
      }
    }

    /** Undoes the items in reverse order; every item ends at its original object. */
    method Rollback(t: TxnId, journal: Journal) returns (signal: Signal)
      requires Valid() && Journaled(disk, t) && disk.txns[t].journal == Some(journal)
      requires journal.status != Committed
      modifies this
      ensures Valid() && Keeps(old(disk), disk)
      ensures disk.txns.Keys <= old(disk.txns.Keys) && disk.nextTxn == old(disk.nextTxn)
      ensures Journaled(disk, t) ==> disk.txns[t].journal.value.status != Committed
      ensures signal == Done ==> Idle(disk)
      ensures !signal.Refused?
      ensures Calm(old(weather)) ==> signal == Done && Calm(weather)
    {
      var j := journal.(status := RollingBack);
      StatusStep(disk, t, RollingBack);
      signal := WriteJournal(t, j);
      if signal != Done {
        return;
      }
      signal := UndoItems(t, j);
      if signal == Done {
        signal := CloseUndone(t, j);
      }
    }

    /** Journals that everything is undone, and closes the transaction. */
    method CloseUndone(t: TxnId, journal: Journal) returns (signal: Signal)
      requires Valid() && Journaled(disk, t) && disk.txns[t].journal == Some(journal)
      requires journal.status == RollingBack
      requires forall i | 0 <= i < |journal.items| :: Settled(disk.entries, t, journal.items[i])
      modifies this
      ensures Valid() && Keeps(old(disk), disk)
      ensures disk.txns.Keys <= old(disk.txns.Keys) && disk.nextTxn == old(disk.nextTxn)
      ensures Journaled(disk, t) ==> disk.txns[t].journal.value.status != Committed
      ensures signal == Done ==> Idle(disk)
      ensures !signal.Refused?
      ensures Calm(old(weather)) ==> signal == Done && Calm(weather)
    {
      StatusStep(disk, t, RolledBack);
      signal := WriteJournal(t, journal.(status := RolledBack));
      if signal == Done {
        SettledIsUniform(disk, t);
        signal := Close(t);
      }
    }

    method FinalizeItem(t: TxnId, i: nat) returns (signal: Signal)
      requires Valid() && Journaled(disk, t)
      requires disk.txns[t].journal.value.status == Committed && i < |disk.txns[t].journal.value.items|
      modifies this
      ensures Valid() && Keeps(old(disk), disk) && EntriesOnly(old(disk), disk)
      ensures disk.entries.Keys <= old(disk.entries.Keys)
      ensures signal == Done ==>
        var m := old(disk.txns[t].journal.value.items[i].member);
        Saved(t, m) !in disk.entries && Incoming(t, m) !in disk.entries
      ensures !signal.Refused?
      ensures Calm(old(weather)) ==> signal == Done && Calm(weather)
    {
      var journal := disk.txns[t].journal.value;
      var it := journal.items[i];
      assert JournalInv(disk, t, journal) && ItemInv(disk.entries, journal, MustSettle(disk, journal), it);
      if !SameIdentity(At(disk.entries, Live(it.member)), it.incoming) {
        signal := Refused(IdentityChanged);
      } else {
        signal := Discard(t, i, Saved(t, it.member), it.original);
        if signal == Done {
          signal := Discard(t, i, Incoming(t, it.member), it.incoming);
        }
      }
    }

    /** Removes what a committed restore left beside its destinations. */
    method Finalize(t: TxnId, journal: Journal) returns (signal: Signal)
      requires Valid() && Journaled(disk, t) && disk.txns[t].journal == Some(journal)
      requires journal.status == Committed
      modifies this
      ensures Valid() && Keeps(old(disk), disk)
      ensures disk.txns.Keys <= old(disk.txns.Keys) && disk.nextTxn == old(disk.nextTxn)
      ensures Journaled(disk, t) ==> disk.txns[t].journal.value.status == Committed
      ensures signal == Done ==> Idle(disk)
      ensures signal == Done ==> forall i | 0 <= i < |journal.items| ::
        Saved(t, journal.items[i].member) !in disk.entries && Incoming(t, journal.items[i].member) !in disk.entries
      ensures !signal.Refused?
      ensures Calm(old(weather)) ==> signal == Done && Calm(weather)
    {
      signal := Done;
      var k := 0;
      while k < |journal.items|
        invariant 0 <= k <= |journal.items|
        invariant Valid() && Keeps(old(disk), disk) && EntriesOnly(old(disk), disk)
        invariant forall i | 0 <= i < k ::
          Saved(t, journal.items[i].member) !in disk.entries && Incoming(t, journal.items[i].member) !in disk.entries
        invariant signal == Done && (Calm(old(weather)) ==> Calm(weather))
      {
        signal := FinalizeItem(t, k);
        if signal != Done {
          return;
        }
        k := k + 1;
      }
      UnmarkedIsUniform(disk);
      forall m ensures Saved(t, m) !in disk.entries {
        assert JournalInv(disk, t, journal);
        assert Saved(t, m) in disk.entries ==> HasMember(journal.items, m);
      }
      signal := Close(t);
    }

    /** One of the two clean-up deletions of a committed item. */
    method Discard(t: TxnId, i: nat, n: Name, expected: Option<Identity>) returns (signal: Signal)
      requires Valid() && Journaled(disk, t)
      requires
        var j := disk.txns[t].journal.value;
        && j.status == Committed && i < |j.items|
        && (|| (n == Saved(t, j.items[i].member) && expected == j.items[i].original)
            || (n == Incoming(t, j.items[i].member) && expected == j.items[i].incoming))
      modifies this
      ensures Valid() && Keeps(old(disk), disk) && EntriesOnly(old(disk), disk)
      ensures disk.entries.Keys <= old(disk.entries.Keys)
      ensures signal == Done ==> n !in disk.entries
      ensures !signal.Refused?
      ensures Calm(old(weather)) ==> signal == Done && Calm(weather)
    {
      var j := disk.txns[t].journal.value;
      assert JournalInv(disk, t, j) && ItemInv(disk.entries, j, MustSettle(disk, j), j.items[i]);
      if n in disk.entries {
        RemoveStep(disk, t, i, n);
      }
      signal := RemovePath(n, expected);
    }

    /** What recovery does about one transaction directory; `seen` says whether it had a
        journal. */
    method RecoverOne(t: TxnId) returns (signal: Signal, seen: bool)
      requires Valid() && t in disk.txns
      modifies this
      ensures Valid() && Keeps(old(disk), disk)
      ensures disk.nextTxn == old(disk.nextTxn) && disk.txns.Keys <= old(disk.txns.Keys)
      ensures seen <==> old(Journaled(disk, t))
      ensures signal.Refused? <==> JournalLost(old(disk))
      ensures signal.Refused? ==> signal == Refused(MissingJournal) && disk == old(disk) && Uniform(disk)
      ensures signal == Done ==> disk.txns == map[] && (seen ==> disk.marker.None?)
      ensures Calm(old(weather)) ==> (signal == Done || signal.Refused?) && Calm(weather)
      ensures old(Losing(disk, t) && disk.txns[t].journal.value.status == Validating && CutsDeletion(weather)) ==>
        journalListedFirst(t) ==> JournalLost(disk)
    {
      var dir := disk.txns[t];
      seen := dir.journal.Some?;
      if dir.journal.None? {
        UnmarkedIsUniform(disk);
        if dir.staging {
          assert JournalLost(disk);
          return Refused(MissingJournal), seen;
        }
        signal := DeleteTransaction(t);
      } else {
        var journal := dir.journal.value;
        assert JournalInv(disk, t, journal);
        if journal.status == Committed {
          signal := Finalize(t, journal);
        } else if journal.status == Validating {
          SettledIsUniform(disk, t);
          signal := Close(t);
        } else {
          signal := Rollback(t, journal);
        }
      }
    }

    /** Visits every transaction directory, then looks for an orphaned marker. */
    method Recover() returns (signal: Signal)
      requires Valid()
      modifies this
      ensures Valid() && Keeps(old(disk), disk)
      ensures disk.nextTxn == old(disk.nextTxn) && disk.txns.Keys <= old(disk.txns.Keys)
      ensures signal.Refused? <==> JournalLost(old(disk))
      ensures signal.Refused? ==> signal == Refused(MissingJournal) && disk == old(disk) && Uniform(disk)
      ensures signal == Done ==> Idle(disk)
      ensures Calm(old(weather)) ==> (signal == Done || signal.Refused?) && Calm(weather)
      ensures old(disk.txns) == map[] ==> signal == Done && disk == old(disk) && weather == old(weather)
      ensures forall t | old(Losing(disk, t)) && old(disk.txns[t].journal.value.status) == Validating ::
        journalListedFirst(t) && CutsDeletion(old(weather)) ==> JournalLost(disk)
    {
      signal := Done;
      var pending := disk.txns.Keys;
      var seen: set<TxnId> := {};
      while pending != {}
        invariant Valid() && Keeps(old(disk), disk)
        invariant disk.txns.Keys == pending <= old(disk.txns.Keys) && disk.nextTxn == old(disk.nextTxn)
        invariant pending != {} || old(disk.txns) == map[] ==> disk == old(disk) && weather == old(weather)
        invariant signal == Done && (Calm(old(weather)) ==> Calm(weather))
        invariant pending == {} ==> !JournalLost(old(disk))
        invariant pending == {} ==> forall t | old(Losing(disk, t)) && old(disk.txns[t].journal.value.status) == Validating ::
          !(journalListedFirst(t) && CutsDeletion(old(weather)))
        decreases |pending|
      {
        var t :| t in pending;
        pending := pending - {t};
        assert pending == {};
        var journaled;
        signal, journaled := RecoverOne(t);
        if signal != Done {
          return;
        }
        if journaled {
          seen := seen + {t};
        }
      }
      IdleIsUniform(disk);
      var orphaned := match disk.marker case None => false case Some(id) => id !in seen;
      if orphaned {
        signal := Refused(OrphanMarker);
      }
    }

    // -------------------------------------------------------------- the forward path

    /** Allocates the transaction directory, its first journal, the marker and the
        staging tree.  None of this is inside the guarded region of the source. */
    method Begin() returns (signal: Signal, t: TxnId)
      requires Valid() && Idle(disk)
      modifies this
      ensures Valid() && Keeps(old(disk), disk) && t == old(disk.nextTxn)
      ensures forall u | Journaled(disk, u) :: u == t && disk.txns[u].journal.value.status == Validating
      ensures signal == Done ==> Opened(disk, t) && Losing(disk, t)
      ensures CutsValidation(old(weather)) ==> signal == Done && Now(weather) == PowerLoss
      ensures !signal.Refused?
      ensures Calm(old(weather)) ==> signal == Done && Calm(weather)
    {
      t := disk.nextTxn;
      signal := Durable(disk.(txns := disk.txns[t := TxnDir(None, false)], nextTxn := t + 1));
      if signal != Done {
        return;
      }
      signal := WriteJournal(t, Journal(t, Validating, []));
      if signal != Done {
        return;
      }
      signal := Mark(old(disk), t);
    }

    /** Raises the marker for the transaction just opened and adds its staging tree. */
    method Mark(ghost start: Disk, t: TxnId) returns (signal: Signal)
      requires Inv(start) && Idle(start) && t == start.nextTxn
      requires disk == start.(txns := map[t := TxnDir(Some(Journal(t, Validating, [])), false)], nextTxn := t + 1)
      modifies this
      ensures Valid() && Keeps(start, disk)
      ensures disk.txns.Keys == {t} && disk.txns[t].journal == Some(Journal(t, Validating, []))
      ensures signal == Done ==> Opened(disk, t) && Losing(disk, t)
      ensures Now(old(weather)) == Now(Later(old(weather))) == Fine ==> signal == Done && weather == Later(Later(old(weather)))
      ensures !signal.Refused?
      ensures Calm(old(weather)) ==> signal == Done && Calm(weather)
    {
      signal := Durable(disk.(marker := Some(t)));
      OpenedKeeps(start, disk, t);
      if signal == Done {
        signal := Durable(disk.(txns := disk.txns[t := disk.txns[t].(staging := true)]));
        OpenedKeeps(start, disk, t);
      }
    }

    /** Records the original object of every destination the bundle provides. */
    method BuildItems(t: TxnId, bundle: Bundle) returns (items: seq<Item>)
      requires Valid() && Opened(disk, t) && WellFormed(bundle)
      ensures Matches(items, bundle.parts) && DistinctMembers(items)
      ensures forall i | 0 <= i < |items| :: items[i].incoming.None? && Untouched(disk.entries, t, items[i])
    {
      items := [];
      for k := 0 to |bundle.parts|
        invariant |items| == k
        invariant forall i | 0 <= i < k :: items[i].member == bundle.parts[i].member
        invariant forall i | 0 <= i < k :: items[i].incoming.None? && Untouched(disk.entries, t, items[i])
      {
        var m := bundle.parts[k].member;
        var current := At(disk.entries, Live(m));
        var original := if current.Some? then Some(current.value.id) else None;
        items := items + [Item(m, original, None)];
      }
    }

    /** Copies one staged part beside its destination, under a fresh identity. */
    method Copy(t: TxnId, i: nat, part: Part) returns (signal: Signal)
      requires Valid() && Journaled(disk, t) && disk.marker.Some?
      requires
        var j := disk.txns[t].journal.value;
        && i < |j.items| && j.status == Preparing && part.member == j.items[i].member
        && Untouched(disk.entries, t, j.items[i]) && j.items[i].incoming.None?
      modifies this
      ensures Valid() && Keeps(old(disk), disk)
      ensures OnlyItem(this, t, part.member)
      ensures signal == Done ==>
        && Settled(disk.entries, t, disk.txns[t].journal.value.items[i])
        && Incoming(t, part.member) in disk.entries
        && disk.entries[Incoming(t, part.member)].id.kind == part.kind
        && disk.entries[Incoming(t, part.member)].content == Whole(part.data)
        && disk.entries[Incoming(t, part.member)].id.inode >= old(disk.nextInode)
      ensures !signal.Refused?
      ensures Calm(old(weather)) ==> signal == Done && Calm(weather)
    {
      var n := Incoming(t, part.member);
      if part.kind == Directory {
        CreateCopyStep(disk, t, i, Directory, Torn);
        signal := Durable(Created(disk, n, Directory, Torn));
        if signal != Done {
          return;
        }
        FillCopyStep(disk, t, i, Whole(part.data));
        signal := Durable(disk.(entries := disk.entries[n := disk.entries[n].(content := Whole(part.data))]));
      } else {
        CreateCopyStep(disk, t, i, File, Whole(part.data));
        signal := Durable(Created(disk, n, File, Whole(part.data)));
      }
    }

    /** Copies part `k` and journals the identity of the copy. */
    method PrepareItem(t: TxnId, bundle: Bundle, journal: Journal, k: nat) returns (signal: Signal, prepared: Journal)
      requires Valid() && Journaled(disk, t) && disk.txns[t].journal == Some(journal)
      requires disk.marker.Some? && journal.status == Preparing && Matches(journal.items, bundle.parts)
      requires k < |bundle.parts| && Progressed(disk.entries, t, journal.items, bundle.parts, k)
      modifies this
      ensures Valid() && Keeps(old(disk), disk) && InTransaction(old(disk), disk, t)
      ensures signal == Done ==>
        && disk.txns[t].journal == Some(prepared) && prepared.status == Preparing
        && Matches(prepared.items, bundle.parts) && Progressed(disk.entries, t, prepared.items, bundle.parts, k + 1)
      ensures !signal.Refused?
      ensures Calm(old(weather)) ==> signal == Done && Calm(weather)
    {
      prepared := journal;
      assert JournalInv(disk, t, journal);
      signal := Copy(t, k, bundle.parts[k]);
      if signal != Done {
        return;
      }
      FrameProgress(old(disk.entries), disk.entries, journal, bundle.parts, k);
      var identity := disk.entries[Incoming(t, bundle.parts[k].member)].id;
      RecordStep(disk, t, k, identity);
      prepared := journal.(items := journal.items[k := journal.items[k].(incoming := Some(identity))]);
      signal := WriteJournal(t, prepared);
    }

    /** Copies every part and journals the identity of each copy before the next. */
    method Prepare(t: TxnId, bundle: Bundle, journal: Journal) returns (signal: Signal, prepared: Journal)
      requires Valid() && Journaled(disk, t) && disk.txns[t].journal == Some(journal)
      requires disk.marker.Some? && journal.status == Preparing && Matches(journal.items, bundle.parts)
      requires Progressed(disk.entries, t, journal.items, bundle.parts, 0)
      modifies this
      ensures Valid() && Keeps(old(disk), disk) && InTransaction(old(disk), disk, t)
      ensures signal == Done ==>
        && disk.txns[t].journal == Some(prepared) && prepared.status == Preparing
        && Matches(prepared.items, bundle.parts)
        && Progressed(disk.entries, t, prepared.items, bundle.parts, |prepared.items|)
      ensures !signal.Refused?
      ensures Calm(old(weather)) ==> signal == Done && Calm(weather)
    {
      signal, prepared := Done, journal;
      var k := 0;
      while k < |bundle.parts|
        invariant 0 <= k <= |bundle.parts|
        invariant Valid() && Keeps(old(disk), disk) && InTransaction(old(disk), disk, t)
        invariant disk.txns[t].journal == Some(prepared) && prepared.status == Preparing
        invariant Matches(prepared.items, bundle.parts) && Progressed(disk.entries, t, prepared.items, bundle.parts, k)
        invariant signal == Done && (Calm(old(weather)) ==> Calm(weather))
      {
        signal, prepared := PrepareItem(t, bundle, prepared, k);
        if signal != Done {
          return;
        }
        k := k + 1;
      }
    }

    /** Moves the original aside and the copy into its place. */
    method ApplyItem(t: TxnId, i: nat, part: Part) returns (signal: Signal)
      requires Valid() && Journaled(disk, t) && disk.marker.Some?
      requires
        var j := disk.txns[t].journal.value;
        && i < |j.items| && j.status == Applying && part.member == j.items[i].member
        && Staged(disk.entries, t, j.items[i], part)
      modifies this
      ensures Valid() && Keeps(old(disk), disk)
      ensures OnlyItem(this, t, part.member)
      ensures !signal.Refused?
      ensures signal == Done ==> Installed(disk.entries, t, old(disk.txns[t].journal.value.items[i]), part)
      ensures Calm(old(weather)) ==> signal == Done && Calm(weather)
    {
      var j := disk.txns[t].journal.value;
      var it := j.items[i];
      var m := it.member;
      assert JournalInv(disk, t, j);
      var current := At(disk.entries, Live(m));
      signal := Done;
      if it.Existed() {
        if !SameIdentity(current, it.original) {
          signal := Refused(IdentityChanged);
        } else {
          MoveAsideStep(disk, t, i);
          signal := Durable(disk.(entries := Renamed(disk.entries, Live(m), Saved(t, m))));
        }
      } else if current.Some? {
        signal := Refused(IdentityChanged);
      }
      if signal == Done {
        MoveInStep(disk, t, i);
        signal := Durable(disk.(entries := Renamed(disk.entries, Incoming(t, m), Live(m))));
      }
    }

    method Apply(t: TxnId, bundle: Bundle, journal: Journal) returns (signal: Signal)
      requires Valid() && Journaled(disk, t) && disk.txns[t].journal == Some(journal)
      requires disk.marker.Some? && journal.status == Applying && Matches(journal.items, bundle.parts)
      requires forall i | 0 <= i < |journal.items| :: Staged(disk.entries, t, journal.items[i], bundle.parts[i])
      modifies this
      ensures Valid() && Keeps(old(disk), disk) && EntriesOnly(old(disk), disk)
      ensures signal == Done ==>
        forall i | 0 <= i < |journal.items| :: Installed(disk.entries, t, journal.items[i], bundle.parts[i])
      ensures !signal.Refused?
      ensures Calm(old(weather)) ==> signal == Done && Calm(weather)
    {
      signal := Done;
      assert JournalInv(disk, t, journal);
      var k := 0;
      while k < |bundle.parts|
        invariant 0 <= k <= |bundle.parts|
        invariant Valid() && Keeps(old(disk), disk) && EntriesOnly(old(disk), disk)
        invariant forall i | 0 <= i < k :: Installed(disk.entries, t, journal.items[i], bundle.parts[i])
        invariant forall i | k <= i < |journal.items| :: Staged(disk.entries, t, journal.items[i], bundle.parts[i])
        invariant signal == Done && (Calm(old(weather)) ==> Calm(weather))
      {
        ghost var before := disk.entries;
        signal := ApplyItem(t, k, bundle.parts[k]);
        if signal != Done {
          return;
        }
        FrameProgress(before, disk.entries, journal, bundle.parts, k);
        k := k + 1;
      }
    }

    /** Rebuilds the memory index in the new database. */
    method Rebuild(t: TxnId, bundle: Bundle, journal: Journal) returns (signal: Signal)
      requires Valid() && Journaled(disk, t) && disk.txns[t].journal == Some(journal)
      requires journal.status == Rebuilding && Matches(journal.items, bundle.parts)
      requires HasPart(bundle, DB_MEMBER)
      requires forall i | 0 <= i < |journal.items| :: Installed(disk.entries, t, journal.items[i], bundle.parts[i])
      modifies this
      ensures Valid() && Keeps(old(disk), disk) && EntriesOnly(old(disk), disk)
      ensures signal == Done ==> bundle.reindexed.Some? && Rebuilt(disk.entries, t, journal.items, bundle)
      ensures !signal.Refused?
      ensures Calm(old(weather)) ==> signal == (if bundle.reindexed.Some? then Done else Raised) && Calm(weather)
    {
      if bundle.reindexed.None? {
        return Raised;
      }
      ghost var i: nat :| i < |bundle.parts| && bundle.parts[i].member == DB_MEMBER;
      RebuildStep(disk, t, bundle, i);
      signal := Durable(disk.(entries := disk.entries[
        Live(DB_MEMBER) := disk.entries[Live(DB_MEMBER)].(content := Whole(bundle.reindexed.value))]));
    }

    /** Rebuilds the index and makes the commit durable. */
    method Publish(t: TxnId, bundle: Bundle, journal: Journal) returns (signal: Signal, ghost committed: bool)
      requires Valid() && Journaled(disk, t) && disk.txns[t].journal == Some(journal)
      requires disk.marker.Some? && journal.status == Rebuilding && Matches(journal.items, bundle.parts)
      requires HasPart(bundle, DB_MEMBER)
      requires forall i | 0 <= i < |journal.items| :: Installed(disk.entries, t, journal.items[i], bundle.parts[i])
      modifies this
      ensures Valid()
      ensures disk.txns.Keys == old(disk.txns.Keys) && disk.nextTxn == old(disk.nextTxn)
      ensures Journaled(disk, t) && (committed <==> disk.txns[t].journal.value.status == Committed)
      ensures if committed then Delivered(old(disk), disk, bundle) else SamePromise(old(disk), disk)
      ensures signal == Done ==> committed && disk.txns[t].journal == Some(journal.(status := Committed))
      ensures !signal.Refused?
      ensures Calm(old(weather)) ==> signal == (if bundle.reindexed.Some? then Done else Raised) && Calm(weather)
    {
      committed := false;
      signal := Rebuild(t, bundle, journal);
      if signal == Done {
        ghost var rebuilt := disk;
        CommitStep(disk, t, bundle);
        signal := WriteJournal(t, journal.(status := Committed));
        committed := disk.txns[t].journal.value.status == Committed;
        DeliveredFrom(old(disk), rebuilt, disk, bundle, committed);
      }
    }

    /** Writes a new uncommitted status into the journal. */
    method Advance(t: TxnId, journal: Journal, status: Status) returns (signal: Signal, next: Journal)
      requires Valid() && Journaled(disk, t) && disk.txns[t].journal == Some(journal)
      requires journal.status != Committed && status in {Prepared, Applying, Rebuilding}
      modifies this
      ensures Valid() && Keeps(old(disk), disk) && InTransaction(old(disk), disk, t)
      ensures disk.entries == old(disk.entries) && next == journal.(status := status)
      ensures signal == Done ==> disk.txns[t].journal == Some(next)
      ensures !signal.Refused?
      ensures Calm(old(weather)) ==> signal == Done && Calm(weather)
    {
      StatusStep(disk, t, status);
      next := journal.(status := status);
      signal := WriteJournal(t, next);
    }

    /** Everything up to the durable `prepared` journal. */
    method Stage(t: TxnId, bundle: Bundle) returns (signal: Signal, journal: Journal)
      requires Valid() && Opened(disk, t) && WellFormed(bundle)
      modifies this
      ensures Valid() && Keeps(old(disk), disk) && InTransaction(old(disk), disk, t)
      ensures Now(old(weather)) == PowerLoss ==> signal == Halted && disk == old(disk)
      ensures signal == Done ==>
        && bundle.genuine && disk.txns[t].journal == Some(journal) && journal.status == Prepared
        && Matches(journal.items, bundle.parts)
        && forall i | 0 <= i < |journal.items| :: Staged(disk.entries, t, journal.items[i], bundle.parts[i])
      ensures !signal.Refused?
      ensures Calm(old(weather)) ==> signal == (if bundle.genuine then Done else Raised) && Calm(weather)
    {
      journal := Journal(t, Validating, []);
      // Unpacking and validating touches the staging tree only.
      signal := Durable(disk);
      if signal != Done {
        return;
      }
      if !bundle.genuine {
        return Raised, journal;
      }
      var items := BuildItems(t, bundle);
      journal := Journal(t, Preparing, items);
      ItemsStep(disk, t, items);
      signal := WriteJournal(t, journal);
      if signal != Done {
        return;
      }
      signal, journal := Prepare(t, bundle, journal);
      if signal != Done {
        return;
      }
      signal, journal := Advance(t, journal, Prepared);
    }

    /** From the prepared journal to the committed one. */
    method Install(t: TxnId, bundle: Bundle, prepared: Journal)
      returns (signal: Signal, journal: Journal, ghost committed: bool)
      requires Valid() && Journaled(disk, t) && disk.txns[t].journal == Some(prepared)
      requires disk.marker.Some? && prepared.status == Prepared && Matches(prepared.items, bundle.parts)
      requires WellFormed(bundle) && bundle.genuine
      requires forall i | 0 <= i < |prepared.items| :: Staged(disk.entries, t, prepared.items[i], bundle.parts[i])
      modifies this
      ensures Valid()
      ensures disk.txns.Keys == old(disk.txns.Keys) && disk.nextTxn == old(disk.nextTxn)
      ensures Journaled(disk, t) && (committed <==> disk.txns[t].journal.value.status == Committed)
      ensures if committed then Delivered(old(disk), disk, bundle) else SamePromise(old(disk), disk)
      ensures signal == Done ==> committed && disk.txns[t].journal == Some(journal)
      ensures !signal.Refused?
      ensures Calm(old(weather)) ==> signal == (if bundle.reindexed.Some? then Done else Raised) && Calm(weather)
    {
      committed := false;
      signal, journal := Advance(t, prepared, Applying);
      if signal != Done {
        return;
      }
      signal := Apply(t, bundle, journal);
      if signal != Done {
        return;
      }
      signal, journal := Advance(t, journal, Rebuilding);
      if signal != Done {
        return;
      }
      signal, committed := Publish(t, bundle, journal);
      journal := journal.(status := Committed);
    }

    /** The guarded region of the restore.  `landed` is its local flag saying that the
        commit is known to be durable. */
    method Forward(t: TxnId, bundle: Bundle) returns (signal: Signal, landed: bool, ghost committed: bool)
      requires Valid() && Opened(disk, t) && WellFormed(bundle)
      modifies this
      ensures Valid() && disk.txns.Keys <= old(disk.txns.Keys) && disk.nextTxn == old(disk.nextTxn)
      ensures if committed then Delivered(old(disk), disk, bundle) else SamePromise(old(disk), disk)
      ensures Journaled(disk, t) ==> (committed <==> disk.txns[t].journal.value.status == Committed)
      ensures !landed ==> Journaled(disk, t)
      ensures landed ==> committed
      ensures Now(old(weather)) == PowerLoss ==> signal == Halted && disk == old(disk)
      ensures signal == Done ==> landed && Idle(disk)
      ensures !signal.Refused?
      ensures Calm(old(weather)) ==>
        && signal == (if bundle.genuine && bundle.reindexed.Some? then Done else Raised)
        && (signal == Raised ==> !committed) && Calm(weather)
    {
      landed, committed := false, false;
      var journal;
      signal, journal := Stage(t, bundle);
      if signal != Done {
        return;
      }
      signal, journal, committed := Install(t, bundle, journal);
      if signal != Done {
        return;
      }
      landed := true;
      ghost var published := disk;
      signal := Finalize(t, journal);
      DeliveredStays(old(disk), published, disk, bundle);
    }

    /** A whole restore.  However it ends, recovery is promised either exactly what it
        was promised before or everything the bundle ships, and the latter precisely
        when a committed journal was durably written. */
    method RestoreBundle(bundle: Bundle) returns (signal: Signal, ghost committed: bool)
      requires Valid() && WellFormed(bundle)
      modifies this
      ensures Valid()
      ensures if committed then Delivered(old(disk), disk, bundle) else SamePromise(old(disk), disk)
      ensures committed ==> bundle.reindexed.Some? && forall i | 0 <= i < |bundle.parts| ::
        var part, promised := bundle.parts[i], Promised(disk, bundle.parts[i].member);
        && promised.Some? && promised.value.id.kind == part.kind
        && promised.value.content == Whole(if part.member == DB_MEMBER then bundle.reindexed.value else part.data)
      ensures forall t: TxnId | Journaled(disk, t) && t >= old(disk.nextTxn) ::
        committed <==> disk.txns[t].journal.value.status == Committed
      ensures signal == Done ==> committed && Idle(disk)
      ensures signal.Refused? <==> JournalLost(old(disk))
      ensures signal.Refused? ==> signal == Refused(MissingJournal) && disk == old(disk)
      ensures old(disk.txns) == map[] && CutsValidation(old(weather)) ==>
        signal == Halted && Opened(disk, old(disk.nextTxn)) && Losing(disk, old(disk.nextTxn))
      ensures Calm(old(weather)) && !JournalLost(old(disk)) ==>
        && Idle(disk) && Calm(weather)
        && signal == (if bundle.genuine && bundle.reindexed.Some? then Done else Raised)
        && (committed <==> signal == Done)
    {
      committed := false;
      signal := Recover();
      if signal != Done {
        return;
      }
      ghost var recovered := disk;
      var t;
      signal, t := Begin();
      if signal != Done {
        return;
      }
      ghost var begun := disk;
      var landed;
      signal, landed, committed := Forward(t, bundle);
      DeliveredFrom(old(disk), begun, disk, bundle, committed);
      if signal == Raised && !landed {
        // The in-memory journal may be ahead of or behind the disk: read it again.
        var durable := disk.txns[t].journal.value;
        assert JournalInv(disk, t, durable);
        if durable.status != Committed {
          ghost var failed := disk;
          signal := Rollback(t, durable);
          if signal == Done {
            signal := Raised;
          }
        }
      }
    }

    /** One restore or recovery, seen from what the destinations are promised. */
    method Serve(request: Request) returns (signal: Signal, ghost committed: bool)
      requires Valid() && (request.Restore? ==> WellFormed(request.bundle))
      modifies this
      ensures Valid() && (signal == Done ==> Idle(disk))
      ensures committed ==> request.Restore? && request.bundle.reindexed.Some?
      ensures request.Restore? && signal == Done ==> committed
      ensures forall m :: PromisedShape(disk, m) == Answered(request, committed, m, PromisedShape(old(disk), m))
      ensures (forall t :: !journalListedFirst(t)) ==> !signal.Refused?
    {
      committed := false;
      ghost var before := disk;
      match request {
        case Recovery(_) => signal := Recover();
        case Restore(bundle, _) => signal, committed := RestoreBundle(bundle);
      }
      forall m ensures PromisedShape(disk, m) == Answered(request, committed, m, PromisedShape(before, m)) {
        assert !committed || !HasPart(request.bundle, m) ==> Promised(before, m) == Promised(disk, m);
      }
      if signal.Refused? {
        assert JournalLost(before);
        ghost var t :| t in before.txns && before.txns[t] == TxnDir(None, true);
        assert journalListedFirst(t);
      }
    }

    /** Any schedule of restores and recoveries, each on its own weather, so a crash or
        an I/O error may fall between any two durable steps of any of them, including
        of a recovery.  What is promised in the end is what the committed restores, in
        order and each as a whole, made of what was promised at first. */
    method Run(requests: seq<Request>) returns (signals: seq<Signal>, ghost committed: seq<bool>)
      requires Valid() && forall i | 0 <= i < |requests| && requests[i].Restore? :: WellFormed(requests[i].bundle)
      modifies this
      ensures Valid()
      ensures |signals| == |committed| == |requests|
      ensures forall i | 0 <= i < |requests| :: committed[i] ==> requests[i].Restore? && requests[i].bundle.reindexed.Some?
      ensures forall i | 0 <= i < |requests| :: requests[i].Restore? && signals[i] == Done ==> committed[i]
      ensures forall m :: PromisedShape(disk, m) == Replayed(old(disk), requests, committed, m)
      ensures requests != [] && signals[|requests| - 1] == Done ==> Idle(disk)
      ensures (forall t :: !journalListedFirst(t)) ==> forall i | 0 <= i < |requests| :: !signals[i].Refused?
    {
      signals, committed := [], [];
      for k := 0 to |requests|
        invariant Valid() && |signals| == |committed| == k
        invariant forall i | 0 <= i < k :: committed[i] ==> requests[i].Restore? && requests[i].bundle.reindexed.Some?
        invariant forall i | 0 <= i < k :: requests[i].Restore? && signals[i] == Done ==> committed[i]
        invariant Tracks(old(disk), disk, requests[..k], committed)
        invariant k > 0 && signals[k - 1] == Done ==> Idle(disk)
        invariant (forall t :: !journalListedFirst(t)) ==> forall i | 0 <= i < k :: !signals[i].Refused?
      {
        weather := requests[k].weather;
        ghost var before, flag := disk, false;
        var signal;
        signal, flag := Serve(requests[k]);
        TracksStep(old(disk), before, disk, requests[..k], committed, requests[k], flag);
        assert requests[..k] + [requests[k]] == requests[..k + 1];
        signals, committed := signals + [signal], committed + [flag];
      }
      assert requests[..|requests|] == requests;
    }
  }

  /** Recovery can be locked out for good: power fails while a bundle is validated, and
      once more during the recovery, after the journal is deleted and before the staging
      tree is. */
  method RecoveryLockedOut(bundle: Bundle) returns (restored: Signal, cut: Signal, refused: Signal)
    requires WellFormed(bundle)
    ensures restored == Halted && cut != Done && refused == Refused(MissingJournal)
  {
    var x := new Installation(map[], 0, [Fine, Fine, Fine, Fine, PowerLoss], t => true);
    ghost var t := x.disk.nextTxn;
    ghost var committed;
    assert CutsValidation(x.weather);
    restored, committed := x.RestoreBundle(bundle);
    x.weather := [Fine, Fine, PowerLoss];
    assert Losing(x.disk, t) && CutsDeletion(x.weather);
    cut := x.Recover();
    assert JournalLost(x.disk);
    refused := x.Recover();
  }
}
