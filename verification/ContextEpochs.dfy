/**
 Messages of one conversation and the epochs that archive them.  A rollover moves the
 older unprotected messages out of the context, once and for all.
 */
module ContextEpochs {
  import opened Wrappers
  import opened ContextWindow

  /** `unresolved` is the flag in the message's metadata. */
  datatype Record = Record(seqNo: nat, role: Role, content: string, kind: string, unresolved: bool, inContext: bool)

  /** What an archive keeps of a message. */
  datatype Item = Item(seqNo: nat, role: Role, content: string, kind: string, unresolved: bool)

  datatype Epoch = Epoch(task: string, number: nat, from: nat, through: nat, archived: seq<Item>, unresolved: seq<Item>)

  function ItemOf(r: Record): Item {
    Item(r.seqNo, r.role, r.content, r.kind, r.unresolved)
  }

  /** Controls and unresolved tool calls are never dropped from a context. */
  predicate Pinned(r: Record) {
    r.kind in {"control", "pending_control"} || (r.role == ToolRole && r.unresolved)
  }

  predicate Archivable(r: Record, latestUser: nat) {
    r.inContext && r.seqNo < latestUser && !Pinned(r)
  }

  /** The sequence number of the newest user message in context, 0 without one. */
  ghost predicate IsLatestUser(messages: seq<Record>, latest: nat) {
    && (forall i | 0 <= i < |messages| && messages[i].inContext && messages[i].role == UserRole :: messages[i].seqNo <= latest)
    && (latest == 0 || exists i | 0 <= i < |messages| ::
          messages[i].inContext && messages[i].role == UserRole && messages[i].seqNo == latest)
  }

  /** The history handed to a context build. */
  function History(messages: seq<Record>): seq<Message> {
    if messages == [] then []
    else
      var last := messages[|messages| - 1];
      History(messages[..|messages| - 1]) + if last.inContext then [Message(last.role, last.content, Pinned(last))] else []
  }

  /** The archive of the first messages of a conversation, in order. */
  function Archive(messages: seq<Record>, latest: nat): seq<Item> {
    if messages == [] then []
    else
      var last := messages[|messages| - 1];
      Archive(messages[..|messages| - 1], latest) + if Archivable(last, latest) then [ItemOf(last)] else []
  }

  /** The unresolved work an epoch carries over: controls and tool turns that stay. */
  function Carried(messages: seq<Record>, latest: nat): seq<Item> {
    if messages == [] then []
    else
      var last := messages[|messages| - 1];
      Carried(messages[..|messages| - 1], latest) +
      if last.inContext && !Archivable(last, latest) && (last.role == ToolRole || last.kind in {"control", "pending_control"})
      then [ItemOf(last)] else []
  }

  function Withdrawn(messages: seq<Record>, latest: nat): (r: seq<Record>)
    ensures |r| == |messages|
    ensures forall i | 0 <= i < |r| :: r[i] == messages[i].(inContext := messages[i].inContext && !Archivable(messages[i], latest))
  {
    seq(|messages|, i requires 0 <= i < |messages| =>
      messages[i].(inContext := messages[i].inContext && !Archivable(messages[i], latest)))
  }

  lemma {:induction false} ArchiveHolds(messages: seq<Record>, latest: nat, x: Item)
    ensures x in Archive(messages, latest) <==> exists i | 0 <= i < |messages| :: Archivable(messages[i], latest) && ItemOf(messages[i]) == x
  {
    if messages != [] {
      var n := |messages| - 1;
      ArchiveHolds(messages[..n], latest, x);
      if i :| 0 <= i < n && Archivable(messages[..n][i], latest) && ItemOf(messages[..n][i]) == x {
        assert Archivable(messages[i], latest);
      }
      if i :| 0 <= i <= n && Archivable(messages[i], latest) && ItemOf(messages[i]) == x {
        assert i < n ==> Archivable(messages[..n][i], latest);
      }
    }
  }

  /** What a rollover spares in the context: whatever is not older than the newest user
      message, controls, and tool turns whose work is unresolved.  Nothing else changes. */
  lemma WithdrawnSpares(messages: seq<Record>, latest: nat, i: nat)
    requires i < |messages|
    ensures |Withdrawn(messages, latest)| == |messages|
    ensures
      var r := messages[i];
      Withdrawn(messages, latest)[i] == r.(inContext := r.inContext &&
        (r.seqNo >= latest || r.kind == "control" || r.kind == "pending_control" || (r.role == ToolRole && r.unresolved)))
  {
  }

  /** The work an epoch carries over is all that is spared of tools and controls, ... */
  lemma {:induction false} CarriedHolds(messages: seq<Record>, latest: nat, x: Item)
    ensures x in Carried(messages, latest) <==> exists i | 0 <= i < |messages| :: IsCarried(messages[i], latest) && ItemOf(messages[i]) == x
  {
    if messages != [] {
      var n := |messages| - 1;
      CarriedHolds(messages[..n], latest, x);
      if i :| 0 <= i < n && IsCarried(messages[..n][i], latest) && ItemOf(messages[..n][i]) == x {
        assert IsCarried(messages[i], latest);
      }
      if i :| 0 <= i <= n && IsCarried(messages[i], latest) && ItemOf(messages[i]) == x {
        assert i < n ==> IsCarried(messages[..n][i], latest);
      }
    }
  }

  ghost predicate IsCarried(r: Record, latest: nat) {
    r.inContext &&
    if r.kind in {"control", "pending_control"} then true
    else r.role == ToolRole && (r.unresolved || r.seqNo >= latest)
  }

  /** ... in sequence order, and so each of it once. */
  lemma {:induction false} CarriedAscends(messages: seq<Record>, latest: nat)
    requires Numbered(messages)
    ensures forall i, j | 0 <= i < j < |Carried(messages, latest)| :: Carried(messages, latest)[i].seqNo < Carried(messages, latest)[j].seqNo
    ensures forall i | 0 <= i < |Carried(messages, latest)| :: 1 <= Carried(messages, latest)[i].seqNo <= |messages|
  {
    if messages != [] {
      var n := |messages| - 1;
      assert Numbered(messages[..n]);
      CarriedAscends(messages[..n], latest);
    }
  }

  ghost predicate AnyArchivable(messages: seq<Record>, latest: nat) {
    exists i | 0 <= i < |messages| :: Archivable(messages[i], latest)
  }

  lemma ArchiveNonempty(messages: seq<Record>, latest: nat)
    ensures Archive(messages, latest) != [] <==> AnyArchivable(messages, latest)
  {
    if Archive(messages, latest) != [] {
      ArchiveHolds(messages, latest, Archive(messages, latest)[0]);
    }
    if i :| 0 <= i < |messages| && Archivable(messages[i], latest) {
      ArchiveHolds(messages, latest, ItemOf(messages[i]));
    }
  }

  /** An archived message is archived whole. */
  lemma ArchivedWhole(messages: seq<Record>, latest: nat, i: nat)
    requires i < |messages| && Archivable(messages[i], latest)
    ensures
      var r := messages[i];
      Item(r.seqNo, r.role, r.content, r.kind, r.unresolved) in Archive(messages, latest)
  {
    ArchiveHolds(messages, latest, ItemOf(messages[i]));
  }

  /** An archive is in sequence order, and so lists no message twice. */
  lemma {:induction false} ArchiveAscends(messages: seq<Record>, latest: nat)
    requires Numbered(messages)
    ensures forall i, j | 0 <= i < j < |Archive(messages, latest)| :: Archive(messages, latest)[i].seqNo < Archive(messages, latest)[j].seqNo
    ensures forall i | 0 <= i < |Archive(messages, latest)| :: 1 <= Archive(messages, latest)[i].seqNo <= |messages|
  {
    if messages != [] {
      var n := |messages| - 1;
      assert Numbered(messages[..n]);
      ArchiveAscends(messages[..n], latest);
    }
  }

  /** Numbers are dealt out in order of arrival, from 1. */
  ghost predicate Numbered(messages: seq<Record>) {
    forall i | 0 <= i < |messages| :: messages[i].seqNo == i + 1
  }

  // ---------------------------------------------------------------- what a context build receives

  lemma {:induction false} HistoryGrows(messages: seq<Record>, i: nat)
    requires i <= |messages|
    ensures |History(messages[..i])| <= |History(messages)|
    ensures i < |messages| && messages[i].inContext ==> |History(messages[..i])| < |History(messages)|
  {
    if i < |messages| {
      var n := |messages| - 1;
      assert messages[..n][..i] == messages[..i];
      HistoryGrows(messages[..n], i);
    } else {
      assert messages[..i] == messages;
    }
  }

  /** The place in the history where the messages from `latest` on begin. */
  function CutPoint(messages: seq<Record>, latest: nat): nat {
    |History(messages[..if latest == 0 then 0 else if latest - 1 <= |messages| then latest - 1 else |messages|])|
  }

  /** `k` separates the messages in context before `latest` from those after. */
  ghost predicate Separates(messages: seq<Record>, latest: nat, k: nat) {
    forall i | 0 <= i < |messages| && messages[i].inContext :: |History(messages[..i])| >= k <==> messages[i].seqNo >= latest
  }

  lemma CutPointSeparates(messages: seq<Record>, latest: nat)
    requires Numbered(messages)
    ensures Separates(messages, latest, CutPoint(messages, latest))
  {
    var at := if latest == 0 then 0 else if latest - 1 <= |messages| then latest - 1 else |messages|;
    forall i | 0 <= i < |messages| && messages[i].inContext
      ensures |History(messages[..i])| >= CutPoint(messages, latest) <==> messages[i].seqNo >= latest
    {
      if i < at {
        assert messages[..at][..i] == messages[..i];
        HistoryGrows(messages[..at], i);
      } else {
        assert messages[..i][..at] == messages[..at];
        HistoryGrows(messages[..i], at);
      }
    }
  }

  lemma HistoryStep(older: seq<Record>, last: Record)
    ensures History(older + [last]) ==
      History(older) + if last.inContext then [Message(last.role, last.content, Pinned(last))] else []
  {
    assert (older + [last])[..|older|] == older;
  }

  lemma KeptStep(older: seq<Message>, last: Message, k: nat)
    ensures Kept(older + [last], k) == Kept(older, k) + if last.protected || |older| >= k then [last] else []
  {
    assert (older + [last])[..|older|] == older;
  }

  /** One more message keeps the two in step. */
  lemma WithdrawnStep(front: seq<Record>, last: Record, latest: nat, k: nat)
    requires History(Withdrawn(front, latest)) == Kept(History(front), k)
    requires last.inContext ==> (|History(front)| >= k <==> last.seqNo >= latest)
    ensures History(Withdrawn(front + [last], latest)) == Kept(History(front + [last]), k)
  {
    var left := Withdrawn(front + [last], latest)[|front|];
    assert Withdrawn(front + [last], latest) == Withdrawn(front, latest) + [left];
    HistoryStep(front, last);
    HistoryStep(Withdrawn(front, latest), left);
    if last.inContext {
      KeptStep(History(front), Message(last.role, last.content, Pinned(last)), k);
    } else {
      assert History(front) + [] == History(front);
    }
  }

  lemma SeparatesFront(messages: seq<Record>, latest: nat, k: nat)
    requires messages != [] && Separates(messages, latest, k)
    ensures
      var front, last := messages[..|messages| - 1], messages[|messages| - 1];
      && Separates(front, latest, k)
      && (last.inContext ==> (|History(front)| >= k <==> last.seqNo >= latest))
  {
    var front := messages[..|messages| - 1];
    forall i | 0 <= i < |front| && front[i].inContext
      ensures |History(front[..i])| >= k <==> front[i].seqNo >= latest
    {
      assert front[..i] == messages[..i];
    }
  }

  lemma {:induction false} WithdrawnIsKept(messages: seq<Record>, latest: nat, k: nat)
    requires Separates(messages, latest, k)
    ensures History(Withdrawn(messages, latest)) == Kept(History(messages), k)
  {
    if messages != [] {
      var n := |messages| - 1;
      var front := messages[..n];
      SeparatesFront(messages, latest, k);
      WithdrawnIsKept(front, latest, k);
      WithdrawnStep(front, messages[n], latest, k);
      assert messages == front + [messages[n]];
    }
  }

  /** A rollover, too, is a cut: the history a context build receives afterwards is the
      earlier one, cut at the newest user message around the pinned messages. */
  lemma RolloverIsCut(messages: seq<Record>, latest: nat)
    requires Numbered(messages)
    ensures History(Withdrawn(messages, latest)) == Kept(History(messages), CutPoint(messages, latest))
  {
    CutPointSeparates(messages, latest);
    WithdrawnIsKept(messages, latest, CutPoint(messages, latest));
  }

  // ---------------------------------------------------------------- conservation

  ghost predicate ArchivedIn(epochs: seq<Epoch>, e: int, x: Item) {
    0 <= e < |epochs| && x in epochs[e].archived
  }

  /** Where each message that entered the context is now: still there and in no archive,
      or out of it and in exactly one. */
  ghost predicate Accounted(messages: seq<Record>, entered: set<nat>, epochs: seq<Epoch>) {
    && (forall n | n in entered :: n <= |messages|)
    && (forall i | 0 <= i < |messages| && messages[i].seqNo in entered ::
          if messages[i].inContext then forall e :: !ArchivedIn(epochs, e, ItemOf(messages[i]))
          else exists e :: ArchivedIn(epochs, e, ItemOf(messages[i])))
    && (forall i | 0 <= i < |messages| && messages[i].seqNo !in entered :: !messages[i].inContext)
    && (forall e, f, x | ArchivedIn(epochs, e, x) && ArchivedIn(epochs, f, x) :: e == f)
    && (forall e, x | ArchivedIn(epochs, e, x) :: x.seqNo in entered
          && exists i | 0 <= i < |messages| :: ItemOf(messages[i]) == x && !messages[i].inContext)
  }

  ghost predicate EpochFits(epoch: Epoch) {
    && epoch.archived != []
    && epoch.from == epoch.archived[0].seqNo && epoch.through == epoch.archived[|epoch.archived| - 1].seqNo
    && epoch.from <= epoch.through
    && (forall i | 0 <= i < |epoch.archived| :: epoch.from <= epoch.archived[i].seqNo <= epoch.through)
    && (forall i | 0 <= i < |epoch.archived| :: !(epoch.archived[i].kind in {"control", "pending_control"})
          && !(epoch.archived[i].role == ToolRole && epoch.archived[i].unresolved))
  }

  /** The epochs of a conversation cover strictly increasing ranges, and everything in
      context up to the last one is pinned. */
  ghost predicate Increasing(messages: seq<Record>, epochs: seq<Epoch>) {
    && (forall e | 0 <= e < |epochs| :: EpochFits(epochs[e]))
    && (forall e, f | 0 <= e < f < |epochs| :: epochs[e].through < epochs[f].from)
    && (forall i, e | 0 <= i < |messages| && 0 <= e < |epochs| && messages[i].inContext && messages[i].seqNo <= epochs[e].through ::
          Pinned(messages[i]))
  }

  lemma ArchivedOnce(messages: seq<Record>, entered: set<nat>, epochs: seq<Epoch>, latest: nat, epoch: Epoch)
    requires Numbered(messages) && Accounted(messages, entered, epochs)
    requires epoch.archived == Archive(messages, latest)
    ensures Accounted(Withdrawn(messages, latest), entered, epochs + [epoch])
  {
    var after, all := Withdrawn(messages, latest), epochs + [epoch];
    forall e, x ensures ArchivedIn(all, e, x) <==> ArchivedIn(epochs, e, x) || (e == |epochs| && x in epoch.archived) {
    }
    forall x ensures x in epoch.archived <==> exists i | 0 <= i < |messages| :: Archivable(messages[i], latest) && ItemOf(messages[i]) == x {
      ArchiveHolds(messages, latest, x);
    }
    forall i | 0 <= i < |after| && after[i].seqNo in entered
      ensures if after[i].inContext then forall e :: !ArchivedIn(all, e, ItemOf(after[i]))
              else exists e :: ArchivedIn(all, e, ItemOf(after[i]))
    {
      assert ItemOf(after[i]) == ItemOf(messages[i]);
      if after[i].inContext {
        assert forall j | 0 <= j < |messages| :: ItemOf(messages[j]) == ItemOf(messages[i]) ==> j == i;
      } else if messages[i].inContext {
        assert Archivable(messages[i], latest);
        assert ArchivedIn(all, |epochs|, ItemOf(after[i]));
      } else {
        var e :| ArchivedIn(epochs, e, ItemOf(messages[i]));
        assert ArchivedIn(all, e, ItemOf(after[i]));
      }
    }
    forall e, x | ArchivedIn(all, e, x)
      ensures x.seqNo in entered && exists i | 0 <= i < |after| :: ItemOf(after[i]) == x && !after[i].inContext
      ensures e == |epochs| ==> forall f :: !ArchivedIn(epochs, f, x)
    {
      if ArchivedIn(epochs, e, x) {
        var i :| 0 <= i < |messages| && ItemOf(messages[i]) == x && !messages[i].inContext;
        assert ItemOf(after[i]) == x && !after[i].inContext;
      } else {
        var i :| 0 <= i < |messages| && Archivable(messages[i], latest) && ItemOf(messages[i]) == x;
        assert ItemOf(after[i]) == x && !after[i].inContext;
      }
    }
  }

  lemma IncreasesOnce(messages: seq<Record>, epochs: seq<Epoch>, latest: nat, epoch: Epoch)
    requires Numbered(messages) && Increasing(messages, epochs)
    requires epoch.archived == Archive(messages, latest) != []
    requires epoch.from == epoch.archived[0].seqNo && epoch.through == epoch.archived[|epoch.archived| - 1].seqNo
    ensures Increasing(Withdrawn(messages, latest), epochs + [epoch])
    ensures epoch.through < latest
  {
    ArchiveAscends(messages, latest);
    forall i | 0 <= i < |epoch.archived|
      ensures exists j | 0 <= j < |messages| :: Archivable(messages[j], latest) && ItemOf(messages[j]) == epoch.archived[i]
    {
      ArchiveHolds(messages, latest, epoch.archived[i]);
    }
    assert EpochFits(epoch);
    forall e | 0 <= e < |epochs| ensures epochs[e].through < epoch.from {
      var j :| 0 <= j < |messages| && Archivable(messages[j], latest) && ItemOf(messages[j]) == epoch.archived[0];
      assert !Pinned(messages[j]);
    }
  }

  lemma NoneBeyond(messages: seq<Record>, entered: set<nat>, epochs: seq<Epoch>, x: Item)
    requires Numbered(messages) && Accounted(messages, entered, epochs) && x.seqNo > |messages|
    ensures forall e :: !ArchivedIn(epochs, e, x)
  {
    assert forall i | 0 <= i < |messages| :: ItemOf(messages[i]) != x;
  }

  lemma BeyondEpochs(messages: seq<Record>, entered: set<nat>, epochs: seq<Epoch>)
    requires Numbered(messages) && Accounted(messages, entered, epochs)
    requires forall e | 0 <= e < |epochs| :: EpochFits(epochs[e])
    ensures forall e | 0 <= e < |epochs| :: epochs[e].through <= |messages|
  {
    forall e | 0 <= e < |epochs| ensures epochs[e].through <= |messages| {
      var x := epochs[e].archived[|epochs[e].archived| - 1];
      assert ArchivedIn(epochs, e, x);
      var i :| 0 <= i < |messages| && ItemOf(messages[i]) == x && !messages[i].inContext;
    }
  }

  ghost predicate Ledger(messages: seq<Record>, entered: set<nat>, epochs: seq<Epoch>) {
    Numbered(messages) && Accounted(messages, entered, epochs) && Increasing(messages, epochs)
  }

  lemma AppendKeeps(messages: seq<Record>, entered: set<nat>, epochs: seq<Epoch>, r: Record)
    requires Ledger(messages, entered, epochs) && r.seqNo == |messages| + 1
    ensures Ledger(messages + [r], if r.inContext then entered + {r.seqNo} else entered, epochs)
  {
    var after := messages + [r];
    NoneBeyond(messages, entered, epochs, ItemOf(r));
    BeyondEpochs(messages, entered, epochs);
    forall e, x | ArchivedIn(epochs, e, x) ensures exists i | 0 <= i < |after| :: ItemOf(after[i]) == x && !after[i].inContext {
      var i :| 0 <= i < |messages| && ItemOf(messages[i]) == x && !messages[i].inContext;
      assert after[i] == messages[i];
    }
  }

  function EpochOf(messages: seq<Record>, latest: nat, task: string, number: nat): Epoch
    requires Archive(messages, latest) != []
  {
    var archived := Archive(messages, latest);
    Epoch(task, number, archived[0].seqNo, archived[|archived| - 1].seqNo, archived, Carried(messages, latest))
  }

  lemma RolloverKeeps(messages: seq<Record>, entered: set<nat>, epochs: seq<Epoch>, latest: nat, task: string, number: nat)
    requires Ledger(messages, entered, epochs) && Archive(messages, latest) != []
    ensures Ledger(Withdrawn(messages, latest), entered, epochs + [EpochOf(messages, latest, task, number)])
    ensures EpochOf(messages, latest, task, number).through < latest
  {
    ArchivedOnce(messages, entered, epochs, latest, EpochOf(messages, latest, task, number));
    IncreasesOnce(messages, epochs, latest, EpochOf(messages, latest, task, number));
  }

  /** Each task numbers its epochs in order, once each. */
  ghost predicate NumberedByTask(epochs: seq<Epoch>, taskEpochs: map<string, nat>) {
    && (forall e | 0 <= e < |epochs| :: epochs[e].task in taskEpochs && epochs[e].number < taskEpochs[epochs[e].task])
    && (forall e, f | 0 <= e < f < |epochs| && epochs[e].task == epochs[f].task :: epochs[e].number < epochs[f].number)
  }

  lemma WithdrawnPreserves(messages: seq<Record>, latest: nat)
    ensures Preserved(messages, Withdrawn(messages, latest))
  {
  }

  lemma PreservedTransitive(a: seq<Record>, b: seq<Record>, c: seq<Record>)
    requires Preserved(a, b) && Preserved(b, c)
    ensures Preserved(a, c)
  {
    forall i | 0 <= i < |a| ensures ItemOf(c[i]) == ItemOf(a[i]) && (c[i].inContext ==> a[i].inContext) {
      assert ItemOf(b[i]) == ItemOf(a[i]);
    }
    forall i | 0 <= i < |a| && a[i].inContext && Pinned(a[i]) ensures c[i].inContext {
      assert ItemOf(b[i]) == ItemOf(a[i]) && Pinned(b[i]);
    }
  }

  lemma EpochNumbered(epochs: seq<Epoch>, taskEpochs: map<string, nat>, epoch: Epoch)
    requires NumberedByTask(epochs, taskEpochs) && epoch.task in taskEpochs && epoch.number == taskEpochs[epoch.task]
    ensures NumberedByTask(epochs + [epoch], taskEpochs[epoch.task := epoch.number + 1])
  {
  }

  datatype Event =
    | Add(role: Role, content: string, kind: string, unresolved: bool, inContext: bool)
    | RollOver(task: string)

  /** Messages keep everything but their place in the context, and lose that for good. */
  ghost predicate Preserved(a: seq<Record>, b: seq<Record>) {
    && |a| <= |b|
    && (forall i | 0 <= i < |a| :: ItemOf(b[i]) == ItemOf(a[i]) && (b[i].inContext ==> a[i].inContext))
    && (forall i | 0 <= i < |a| && a[i].inContext && Pinned(a[i]) :: b[i].inContext)
  }

  class Conversation {
    var messages: seq<Record>
    var epochs: seq<Epoch>
    /** Each task's current epoch. */
    var taskEpochs: map<string, nat>
    /** The messages that were added to the context. */
    ghost var entered: set<nat>

    ghost predicate Valid()
      reads this
    {
      Ledger(messages, entered, epochs) && NumberedByTask(epochs, taskEpochs)
    }

    constructor ()
      ensures Valid() && messages == [] && epochs == []
    {
      messages, epochs, taskEpochs, entered := [], [], map[], {};
    }

    method AddMessage(role: Role, content: string, kind: string, unresolved: bool, inContext: bool)
      requires Valid()
      modifies this
      ensures Valid()
      ensures messages == old(messages) + [Record(|old(messages)| + 1, role, content, kind, unresolved, inContext)]
      ensures epochs == old(epochs) && taskEpochs == old(taskEpochs)
      ensures entered == if inContext then old(entered) + {|old(messages)| + 1} else old(entered)
    {
      var r := Record(|messages| + 1, role, content, kind, unresolved, inContext);
      AppendKeeps(messages, entered, epochs, r);
      messages := messages + [r];
      if inContext {
        entered := entered + {r.seqNo};
      }
    }

    method LatestUser() returns (latest: nat)
      ensures IsLatestUser(messages, latest)
    {
      latest := 0;
      for i := 0 to |messages|
        invariant IsLatestUser(messages[..i], latest)
      {
        if messages[i].inContext && messages[i].role == UserRole && messages[i].seqNo > latest {
          latest := messages[i].seqNo;
        }
      }
      assert messages[..|messages|] == messages;
    }

    /** Sorts the context into what is archived and what is carried as unresolved. */
    method Sort(latest: nat) returns (archived: seq<Item>, unresolved: seq<Item>)
      ensures archived == Archive(messages, latest) && unresolved == Carried(messages, latest)
    {
      archived, unresolved := [], [];
      for i := 0 to |messages|
        invariant archived == Archive(messages[..i], latest) && unresolved == Carried(messages[..i], latest)
      {
        assert messages[..i + 1][..i] == messages[..i];
        if messages[i].inContext {
          if messages[i].seqNo >= latest || Pinned(messages[i]) {
            if messages[i].role == ToolRole || messages[i].kind in {"control", "pending_control"} {
              unresolved := unresolved + [ItemOf(messages[i])];
            }
          } else {
            archived := archived + [ItemOf(messages[i])];
          }
        }
      }
      assert messages[..|messages|] == messages;
    }

    method Advance(epoch: Epoch, latest: nat)
      requires Valid() && epoch.task in taskEpochs && Archive(messages, latest) != []
      requires epoch == EpochOf(messages, latest, epoch.task, taskEpochs[epoch.task])
      modifies this
      ensures Valid() && entered == old(entered)
      ensures messages == Withdrawn(old(messages), latest) && epochs == old(epochs) + [epoch]
      ensures taskEpochs == old(taskEpochs)[epoch.task := old(taskEpochs)[epoch.task] + 1]
    {
      RolloverKeeps(messages, entered, epochs, latest, epoch.task, taskEpochs[epoch.task]);
      EpochNumbered(epochs, taskEpochs, epoch);
      messages := Withdrawn(messages, latest);
      taskEpochs := taskEpochs[epoch.task := taskEpochs[epoch.task] + 1];
      epochs := epochs + [epoch];
    }

    /** Archives what is older than the newest user message and not pinned, or fails if
        there is nothing of that kind. */
    method Rollover(task: string) returns (ok: bool, ghost latest: nat)
      requires Valid() && task in taskEpochs
      modifies this
      ensures Valid() && entered == old(entered) && IsLatestUser(old(messages), latest)
      ensures ok <==> AnyArchivable(old(messages), latest)
      ensures forall i | 0 <= i < |old(messages)| && old(messages)[i].inContext && old(messages)[i].seqNo >= latest :: messages[i].inContext
      ensures !ok ==> messages == old(messages) && epochs == old(epochs) && taskEpochs == old(taskEpochs)
      ensures ok ==> Archive(old(messages), latest) != [] && messages == Withdrawn(old(messages), latest)
      ensures ok ==> epochs == old(epochs) + [EpochOf(old(messages), latest, task, old(taskEpochs)[task])]
      ensures ok ==> taskEpochs == old(taskEpochs)[task := old(taskEpochs)[task] + 1]
      ensures ok ==>
        var e := epochs[|old(epochs)|];
        && e.task == task && e.number == old(taskEpochs)[task]
        && e.archived == Archive(old(messages), latest) && e.unresolved == Carried(old(messages), latest)
        && e.archived != [] && e.from == e.archived[0].seqNo && e.through == e.archived[|e.archived| - 1].seqNo
    {
      var newest := LatestUser();
      latest := newest;
      var archived, unresolved := Sort(newest);
      ArchiveNonempty(messages, newest);
      ok := archived != [];
      if ok {
        var epoch := Epoch(task, taskEpochs[task], archived[0].seqNo, archived[|archived| - 1].seqNo, archived, unresolved);
        Advance(epoch, newest);
      }
    }

    /** Any sequence of messages and rollovers, by any tasks of the conversation: every
        message that entered the context is still there or in exactly one archive, pinned
        messages stay, and the epochs cover strictly increasing ranges. */
    method Run(events: seq<Event>)
      requires Valid()
      modifies this
      ensures Valid() && Preserved(old(messages), messages) && old(epochs) <= epochs
    {
      for n := 0 to |events|
        invariant Valid() && Preserved(old(messages), messages) && old(epochs) <= epochs
      {
        ghost var before := messages;
        Happen(events[n]);
        PreservedTransitive(old(messages), before, messages);
      }
    }

    /** A task joins the conversation at its first epoch. */
    method Join(task: string)
      requires Valid() && task !in taskEpochs
      modifies this`taskEpochs
      ensures Valid() && taskEpochs == old(taskEpochs)[task := 1]
    {
      taskEpochs := taskEpochs[task := 1];
    }

    method Happen(e: Event)
      requires Valid()
      modifies this
      ensures Valid() && Preserved(old(messages), messages) && old(epochs) <= epochs
    {
      if e.Add? {
        AddMessage(e.role, e.content, e.kind, e.unresolved, e.inContext);
      } else {
        if e.task !in taskEpochs {
          Join(e.task);
        }
        TryRollover(e.task);
      }
    }

    /** A rollover whose failure is ignored. */
    method TryRollover(task: string)
      requires Valid() && task in taskEpochs
      modifies this
      ensures Valid() && Preserved(old(messages), messages) && old(epochs) <= epochs
    {
      ghost var before := messages;
      ghost var latest;
      var ok;
      ok, latest := Rollover(task);
      if ok {
        WithdrawnPreserves(before, latest);
      }
    }
  }
}
