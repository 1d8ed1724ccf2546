/**
 Fitting a conversation into a context window.  History is dropped from the old end,
 in place and in several passes, around messages that must not be lost.
 */
module ContextWindow {
  import opened Wrappers
  import opened Decimals
  import opened Generation

  datatype Role = SystemRole | UserRole | AssistantRole | ToolRole

  datatype Plain = Plain(role: Role, content: string)

  datatype Message = Message(role: Role, content: string, protected: bool)

  function Shown(history: seq<Message>): (r: seq<Plain>)
    ensures |r| == |history| && forall i | 0 <= i < |r| :: r[i] == Plain(history[i].role, history[i].content)
  {
    seq(|history|, i requires 0 <= i < |history| => Plain(history[i].role, history[i].content))
  }

  // ---------------------------------------------------------------- estimates

  /** Three characters to a token, rounded up; a floor of a real quotient in the source. */
  function EstimateText(text: string): (n: nat)
    ensures 3 * n - 3 < |text| <= 3 * n
  {
    if text == "" then 0
    else
      var n := (|text| as real / 3.0 + 0.999).Floor;
      if n >= 1 then n else 1
  }

  function Estimate(messages: seq<Plain>): nat {
    if messages == [] then 16
    else Estimate(messages[..|messages| - 1]) + EstimateText(messages[|messages| - 1].content) + 8
  }

  /** Each message costs a third of its characters, rounded up, and 8 for its framing; a
      list costs 16 by itself. */
  lemma EstimateGrows(messages: seq<Plain>, p: Plain)
    ensures Estimate([]) == 16
    ensures
      var tokens := Estimate(messages + [p]) - Estimate(messages) - 8;
      3 * tokens - 3 < |p.content| <= 3 * tokens
  {
    assert (messages + [p])[..|messages|] == messages;
  }

  method EstimateMessages(messages: seq<Plain>) returns (total: nat)
    ensures total == Estimate(messages)
  {
    total := 0;
    for i := 0 to |messages|
      invariant total + 16 == Estimate(messages[..i])
    {
      assert messages[..i + 1][..i] == messages[..i];
      total := total + EstimateText(messages[i].content) + 8;
    }
    assert messages[..|messages|] == messages;
    total := total + 16;
  }

  // ---------------------------------------------------------------- cuts

  /** What is left of a history cut at `k`: everything from `k` on, and before it the
      protected messages. */
  function Kept(history: seq<Message>, k: nat): seq<Message> {
    if history == [] then []
    else
      var last := |history| - 1;
      Kept(history[..last], k) + if history[last].protected || last >= k then [history[last]] else []
  }

  lemma NewestKept(history: seq<Message>, k: nat)
    requires k < |history|
    ensures
      var last := |history| - 1;
      Kept(history, k) == Kept(history[..last], k) + [history[last]]
  {
  }

  lemma {:induction false} KeptAll(history: seq<Message>)
    ensures Kept(history, 0) == history
  {
    if history != [] {
      var front, newest := history[..|history| - 1], [history[|history| - 1]];
      calc {
        Kept(history, 0);
        { NewestKept(history, 0); }
        Kept(front, 0) + newest;
        { KeptAll(front); }
        front + newest;
        history;
      }
    }
  }

  predicate Survives(history: seq<Message>, k: nat, i: int) {
    0 <= i < |history| && (history[i].protected || i >= k)
  }

  lemma {:induction false} KeptHas(history: seq<Message>, k: nat, i: nat)
    requires Survives(history, k, i)
    ensures history[i] in Kept(history, k)
  {
    var last := |history| - 1;
    if i < last {
      KeptHas(history[..last], k, i);
    }
  }

  lemma {:induction false} KeptOnly(history: seq<Message>, k: nat, m: Message)
    requires m in Kept(history, k)
    ensures exists i :: Survives(history, k, i) && history[i] == m
  {
    var last := |history| - 1;
    if m in Kept(history[..last], k) {
      KeptOnly(history[..last], k, m);
      var i :| Survives(history[..last], k, i) && history[..last][i] == m;
      assert Survives(history, k, i) && history[i] == m;
    } else {
      assert Survives(history, k, last) && history[last] == m;
    }
  }

  /** A message is in the cut exactly if it is protected or not older than the cut. */
  lemma KeptHolds(history: seq<Message>, k: nat, m: Message)
    ensures m in Kept(history, k) <==> exists i :: Survives(history, k, i) && history[i] == m
  {
    if m in Kept(history, k) {
      KeptOnly(history, k, m);
    }
    if i :| Survives(history, k, i) && history[i] == m {
      KeptHas(history, k, i);
    }
  }

  /** If only protected messages survive a cut, a later cut changes nothing. */
  lemma {:induction false} KeptSettles(history: seq<Message>, k: nat, n: nat)
    requires k <= n && forall i | 0 <= i < |Kept(history, k)| :: Kept(history, k)[i].protected
    ensures Kept(history, n) == Kept(history, k)
  {
    if history != [] {
      var last := |history| - 1;
      var older := Kept(history[..last], k);
      forall i | 0 <= i < |older| ensures older[i].protected {
        assert Kept(history, k)[i] == older[i];
      }
      KeptSettles(history[..last], k, n);
      assert last >= k ==> Kept(history, k)[|older|] == history[last];
    }
  }

  /** Deleting the first unprotected survivor is a later cut of the same history. */
  lemma {:induction false} CutMoves(history: seq<Message>, k: nat, index: nat) returns (later: nat)
    requires index < |Kept(history, k)| && !Kept(history, k)[index].protected
    requires forall i | 0 <= i < index :: Kept(history, k)[i].protected
    ensures k < later <= |history|
    ensures Kept(history, later) == Kept(history, k)[..index] + Kept(history, k)[index + 1..]
  {
    var last := |history| - 1;
    var older := Kept(history[..last], k);
    assert forall i | 0 <= i < |older| :: Kept(history, k)[i] == older[i];
    if index < |older| {
      later := CutMoves(history[..last], k, index);
      assert Kept(history, later) == Kept(history, k)[..index] + Kept(history, k)[index + 1..];
    } else {
      later := |history|;
      KeptSettles(history[..last], k, later);
      assert Kept(history, k)[..index] == older;
    }
  }

  /** As long as another message follows, the cut stays short of the newest message. */
  lemma CutStaysShort(history: seq<Message>, k: nat, index: nat) returns (later: nat)
    requires k < |history| && index + 1 < |Kept(history, k)| && !Kept(history, k)[index].protected
    requires forall i | 0 <= i < index :: Kept(history, k)[i].protected
    ensures k < later < |history|
    ensures Kept(history, later) == Kept(history, k)[..index] + Kept(history, k)[index + 1..]
  {
    var last := |history| - 1;
    var newest := [history[last]];
    var older := Kept(history[..last], k);
    NewestKept(history, k);
    assert forall i | 0 <= i < |older| :: (older + newest)[i] == older[i];
    later := CutMoves(history[..last], k, index);
    NewestKept(history, later);
    assert (older + newest)[..index] == older[..index];
    assert (older + newest)[index + 1..] == older[index + 1..] + newest;
  }

  /** Nothing is left to drop once all but the newest are protected: the cut is the last. */
  lemma LastCut(history: seq<Message>, k: nat)
    requires k < |history|
    requires forall i | 0 <= i < |Kept(history, k)| - 1 :: Kept(history, k)[i].protected
    ensures Kept(history, k) == Kept(history, |history| - 1)
  {
    var last := |history| - 1;
    var older := Kept(history[..last], k);
    forall i | 0 <= i < |older| ensures older[i].protected {
      assert Kept(history, k)[i] == older[i];
    }
    KeptSettles(history[..last], k, last);
  }

  // ---------------------------------------------------------------- candidates

  const MARKER_HEAD := "ContextManager omitted "
  const MARKER_TAIL := " older conversation messages to fit the target model context. Canonical task state and the newest conversation turns are preserved."

  function MarkerText(omitted: nat): string {
    MARKER_HEAD + Decimal(omitted) + MARKER_TAIL
  }

  function Marker(omitted: nat): seq<Plain> {
    if omitted == 0 then [] else [Plain(SystemRole, MarkerText(omitted))]
  }

  /** The messages offered to the model for a given selection. */
  function Candidate(prefix: seq<Plain>, total: nat, selected: seq<Message>, suffix: seq<Plain>): seq<Plain>
    requires |selected| <= total
  {
    prefix + Marker(total - |selected|) + Shown(selected) + suffix
  }

  lemma {:induction false} EstimateConcat(a: seq<Plain>, b: seq<Plain>)
    ensures Estimate(a + b) + 16 == Estimate(a) + Estimate(b)
  {
    if b == [] {
      assert a + b == a;
    } else {
      assert (a + b)[..|a + b| - 1] == a + b[..|b| - 1];
      EstimateConcat(a, b[..|b| - 1]);
    }
  }

  lemma EstimateOne(p: Plain)
    ensures Estimate([p]) == 16 + EstimateText(p.content) + 8
  {
    assert [p][..0] == [];
  }

  function Dropped(selected: seq<Message>, i: nat): seq<Message>
    requires i < |selected|
  {
    selected[..i] + selected[i + 1..]
  }

  lemma DroppedEstimate(selected: seq<Message>, i: nat)
    requires i < |selected|
    ensures Estimate(Shown(selected)) == Estimate(Shown(Dropped(selected, i))) + EstimateText(selected[i].content) + 8
  {
    var one := Plain(selected[i].role, selected[i].content);
    var before, after := Shown(selected[..i]), Shown(selected[i + 1..]);
    assert Shown(selected) == before + [one] + after;
    assert Shown(Dropped(selected, i)) == before + after;
    EstimateConcat(before + [one], after);
    EstimateConcat(before, [one]);
    EstimateConcat(before, after);
    EstimateOne(one);
  }

  /** What the marker adds to an estimate. */
  function MarkerTokens(omitted: nat): nat {
    if omitted == 0 then 0 else EstimateText(MarkerText(omitted)) + 8
  }

  lemma MarkerEstimate(n: nat)
    ensures Estimate(Marker(n)) == 16 + MarkerTokens(n)
  {
    if n > 0 {
      EstimateOne(Plain(SystemRole, MarkerText(n)));
    }
  }

  lemma MarkerGrows(n: nat)
    requires n > 0
    ensures MarkerTokens(n + 1) <= MarkerTokens(n) + 1
  {
    Grows(n);
  }

  /** The candidate loses the message and its framing, and the marker changes. */
  lemma DropDifference(prefix: seq<Plain>, total: nat, selected: seq<Message>, i: nat, suffix: seq<Plain>)
    requires i < |selected| <= total
    ensures
      Estimate(Candidate(prefix, total, Dropped(selected, i), suffix)) + MarkerTokens(total - |selected|)
        + EstimateText(selected[i].content) + 8
      == Estimate(Candidate(prefix, total, selected, suffix)) + MarkerTokens(total - |selected| + 1)
  {
    assert MarkerTokens(total - |Dropped(selected, i)|) == MarkerTokens(total - |selected| + 1);
    DroppedEstimate(selected, i);
    CandidateEstimate(prefix, total, selected, suffix);
    CandidateEstimate(prefix, total, Dropped(selected, i), suffix);
  }

  /** A message of `text` tokens is dropped.  Once the marker is there the candidate
      shrinks.  The first drop trades the message for the marker: it shrinks the candidate
      exactly if the message is the longer of the two. */
  predicate Trades(before: nat, after: nat, first: bool, text: nat) {
    && (after < before <==> !first || EstimateText(MarkerText(1)) < text)
    && (first ==> after + text == before + EstimateText(MarkerText(1)))
  }

  /** What dropping any one message, wherever it stands, does to a candidate. */
  lemma DropChanges(prefix: seq<Plain>, total: nat, selected: seq<Message>, i: nat, suffix: seq<Plain>)
    requires i < |selected| <= total
    ensures Trades(
      Estimate(Candidate(prefix, total, selected, suffix)), Estimate(Candidate(prefix, total, Dropped(selected, i), suffix)),
      |selected| == total, EstimateText(selected[i].content))
  {
    DropDifference(prefix, total, selected, i, suffix);
    if |selected| < total {
      MarkerGrows(total - |selected|);
    }
  }

  lemma FrontDropShrinks(prefix: seq<Plain>, total: nat, selected: seq<Message>, suffix: seq<Plain>)
    requires 0 < |selected| < total
    ensures Estimate(Candidate(prefix, total, selected[1..], suffix)) < Estimate(Candidate(prefix, total, selected, suffix))
  {
    DropChanges(prefix, total, selected, 0, suffix);
    assert Dropped(selected, 0) == selected[1..];
  }

  /** The longest message that takes fewer tokens than the first marker. */
  const BREAK_EVEN := 153

  /** A first drop makes the candidate larger exactly if the message has at most BREAK_EVEN
      characters; whatever surrounds it. */
  lemma FirstDropGrows(prefix: seq<Plain>, selected: seq<Message>, i: nat, suffix: seq<Plain>)
    requires i < |selected|
    ensures Estimate(Candidate(prefix, |selected|, Dropped(selected, i), suffix)) > Estimate(Candidate(prefix, |selected|, selected, suffix))
      <==> |selected[i].content| <= BREAK_EVEN
  {
    DropChanges(prefix, |selected|, selected, i, suffix);
    assert Decimal(1) == [Digit(1)];
    assert |MarkerText(1)| == |MARKER_HEAD| + 1 + |MARKER_TAIL|;
  }

  /** Two short messages with nothing around them: without the older one the candidate is
      larger than with it. */
  lemma ShortDropGrows(older: Message, newest: Message)
    requires older.content == "ok"
    ensures Estimate(Candidate([], 2, [newest], [])) > Estimate(Candidate([], 2, [older, newest], []))
  {
    FirstDropGrows([], [older, newest], 0, []);
    assert Dropped([older, newest], 0) == [newest];
  }

  lemma CandidateEstimate(prefix: seq<Plain>, total: nat, selected: seq<Message>, suffix: seq<Plain>)
    requires |selected| <= total
    ensures Estimate(Candidate(prefix, total, selected, suffix)) + 32 ==
      Estimate(prefix) + MarkerTokens(total - |selected|) + Estimate(Shown(selected)) + Estimate(suffix)
  {
    MarkerEstimate(total - |selected|);
    var marker, shown := Marker(total - |selected|), Shown(selected);
    EstimateConcat(prefix, marker);
    EstimateConcat(prefix + marker, shown);
    EstimateConcat(prefix + marker + shown, suffix);
  }

  ghost predicate IsCut(history: seq<Message>, selected: seq<Message>) {
    if history == [] then selected == []
    else exists k: nat | k < |history| :: selected == Kept(history, k)
  }

  lemma {:induction false} KeptLength(history: seq<Message>, k: nat)
    ensures |Kept(history, k)| <= |history|
    ensures k < |history| ==> Kept(history, k) != [] && Kept(history, k)[|Kept(history, k)| - 1] == history[|history| - 1]
  {
    if history != [] {
      KeptLength(history[..|history| - 1], k);
    }
  }

  predicate Orphan(m: Message) {
    m.role in {AssistantRole, ToolRole} && !m.protected
  }

  /** A truncated transcript does not open with an orphaned turn unless nothing else is left. */
  predicate WellOpened(history: seq<Message>, selected: seq<Message>) {
    |selected| < |history| && |selected| > 1 ==> !Orphan(selected[0])
  }

  /** Nothing more could be dropped. */
  predicate Minimal(selected: seq<Message>) {
    forall i | 0 <= i < |selected| - 1 :: selected[i].protected
  }

  /** The average estimate of a message, at least one. */
  function PerMessage(selected: seq<Message>): (per: nat)
    requires selected != []
    ensures Estimate(Shown(selected)) < (per + 1) * |selected|
    ensures per * |selected| <= Estimate(Shown(selected)) || per == 1
    ensures per >= 1
  {
    var average := Estimate(Shown(selected)) / |selected|;
    if average >= 1 then average else 1
  }

  lemma Quotient(overflow: nat, per: nat, limit: nat)
    requires per >= 1 && limit >= 1
    ensures overflow < (overflow / per + 1) * per && (overflow / per) * per <= overflow
    ensures limit <= overflow / per + 1 ==> (limit - 1) * per <= overflow
  {
    if limit <= overflow / per + 1 {
      assert (limit - 1) * per <= (overflow / per) * per;
    }
  }

  /** Up to `count` messages went, fewer only if nothing more could go. */
  ghost predicate Shortened(a: seq<Message>, b: seq<Message>, count: nat) {
    |b| < |a| <= |b| + count && (|a| == |b| + count || Minimal(b))
  }

  /** An eighth of the messages, rounded down, but at least one. */
  ghost predicate IsShare(count: nat, n: nat) {
    if n < 8 then count == 1 else 8 * count <= n < 8 * count + 8
  }

  /** The least number of messages whose average covers an overflow, within what may go. */
  ghost predicate Covers(count: nat, selected: seq<Message>, overflow: int) {
    && selected != [] && 1 <= count <= |selected| - 1
    && (count - 1) * PerMessage(selected) <= overflow
    && (count < |selected| - 1 ==> overflow < count * PerMessage(selected))
  }

  /** Nothing but orphaned turns was taken from the front. */
  ghost predicate OrphansDropped(a: seq<Message>, b: seq<Message>) {
    exists n | 0 <= n <= |a| :: b == a[n..] && forall i | 0 <= i < n :: !a[i].protected && a[i].role in {AssistantRole, ToolRole}
  }

  /** One pass of the cheap pruning: it starts above the target, and drops its share. */
  ghost predicate PrunesOnce(prefix: seq<Plain>, total: nat, suffix: seq<Plain>, target: int, a: seq<Message>, b: seq<Message>) {
    && |a| <= total && Estimate(Candidate(prefix, total, a, suffix)) > target
    && exists count: nat :: IsShare(count, |a|) && Shortened(a, b, count)
  }

  ghost predicate Pruning(prefix: seq<Plain>, total: nat, suffix: seq<Plain>, target: int, passes: seq<seq<Message>>) {
    passes != [] && forall i | 0 <= i < |passes| - 1 :: PrunesOnce(prefix, total, suffix, target, passes[i], passes[i + 1])
  }

  lemma PruningStep(prefix: seq<Plain>, total: nat, suffix: seq<Plain>, target: int, passes: seq<seq<Message>>, next: seq<Message>)
    requires Pruning(prefix, total, suffix, target, passes)
    requires PrunesOnce(prefix, total, suffix, target, passes[|passes| - 1], next)
    ensures Pruning(prefix, total, suffix, target, passes + [next])
  {
  }

  lemma PrunesFromAbove(prefix: seq<Plain>, total: nat, suffix: seq<Plain>, target: int, passes: seq<seq<Message>>)
    requires Pruning(prefix, total, suffix, target, passes)
    ensures |passes| > 1 ==> |passes[0]| <= total && Estimate(Candidate(prefix, total, passes[0], suffix)) > target
  {
    if |passes| > 1 {
      assert PrunesOnce(prefix, total, suffix, target, passes[0], passes[0 + 1]);
    }
  }

  /** The passes of the cheap pruning, and what is left of the last of them. */
  ghost predicate Prunes(prefix: seq<Plain>, total: nat, suffix: seq<Plain>, target: int, passes: seq<seq<Message>>, left: seq<Message>) {
    && Pruning(prefix, total, suffix, target, passes)
    && var last := passes[|passes| - 1];
    && |last| <= total && (Estimate(Candidate(prefix, total, last, suffix)) <= target || Minimal(last))
    && (if |last| == total then left == last else OrphansDropped(last, left))
  }

  /** One pass of the tightening: it starts above the usable input by the tokenizer's own
      count, and drops what covers the overflow, and then orphans. */
  ghost predicate TightensOnce(answer: Option<int>, usable: int, a: seq<Message>, b: seq<Message>) {
    && answer.Some? && answer.value > usable
    && exists count: nat, mid: seq<Message> ::
         Covers(count, a, answer.value - usable) && Shortened(a, mid, count) && OrphansDropped(mid, b)
  }

  /** The passes of the tightening, each after one call of the tokenizer. */
  ghost predicate Tightens(prefix: seq<Plain>, total: nat, suffix: seq<Plain>, usable: int,
                           tokenizer: (nat, seq<Plain>) -> Option<int>, passes: seq<seq<Message>>) {
    forall i | 0 <= i < |passes| - 1 :: (
      && |passes[i]| <= total
      && TightensOnce(tokenizer(i, Candidate(prefix, total, passes[i], suffix)), usable, passes[i], passes[i + 1]))
  }

  lemma TightensFromAbove(prefix: seq<Plain>, total: nat, suffix: seq<Plain>, usable: int,
                          tokenizer: (nat, seq<Plain>) -> Option<int>, passes: seq<seq<Message>>)
    requires Tightens(prefix, total, suffix, usable, tokenizer, passes) && |passes| > 1
    ensures |passes[0]| <= total
    ensures
      var answer := tokenizer(0, Candidate(prefix, total, passes[0], suffix));
      answer.Some? && answer.value > usable
  {
    assert TightensOnce(tokenizer(0, Candidate(prefix, total, passes[0], suffix)), usable, passes[0], passes[0 + 1]);
  }

  /** The selection of one build, pruned in place. */
  class Selection {
    const history: seq<Message>
    var selected: seq<Message>

    ghost predicate Valid()
      reads this
    {
      && IsCut(history, selected) && |selected| <= |history|
      && (history != [] ==> selected != [] && selected[|selected| - 1] == history[|history| - 1])
    }

    constructor (history: seq<Message>)
      ensures Valid() && this.history == history && selected == history
    {
      this.history := history;
      selected := history;
      new;
      KeptAll(history);
      assert history != [] ==> selected == Kept(history, 0);
    }

    /** Deletes one unprotected message all of whose elders are protected. */
    method Delete(index: nat)
      requires Valid() && index + 1 < |selected| && !selected[index].protected
      requires forall i | 0 <= i < index :: selected[i].protected
      modifies this
      ensures Valid() && selected == old(selected)[..index] + old(selected)[index + 1..]
    {
      ghost var k: nat :| k < |history| && selected == Kept(history, k);
      ghost var later := CutStaysShort(history, k, index);
      selected := selected[..index] + selected[index + 1..];
      assert selected == Kept(history, later);
      KeptLength(history, later);
    }

    /** Drops up to `count` of the oldest unprotected messages, never the newest. */
    method DropOldest(count: nat) returns (removed: nat)
      requires Valid()
      modifies this
      ensures Valid() && removed <= count && |selected| == |old(selected)| - removed
      ensures removed < count ==> Minimal(selected)
      ensures removed == 0 ==> selected == old(selected)
    {
      removed := 0;
      var index := 0;
      while index < |selected| - 1 && removed < count
        invariant Valid() && removed <= count && |selected| == |old(selected)| - removed
        invariant 0 <= index && (index == 0 || index <= |selected| - 1)
        invariant forall i | 0 <= i < index :: selected[i].protected
        invariant removed == 0 ==> selected == old(selected)
        decreases |selected| - index
      {
        if selected[index].protected {
          index := index + 1;
        } else {
          Delete(index);
          removed := removed + 1;
        }
      }
    }

    /** The estimate of the candidate offered for the present selection. */
    ghost function Size(prefix: seq<Plain>, suffix: seq<Plain>): nat
      requires |selected| <= |history|
      reads this
    {
      Estimate(Candidate(prefix, |history|, selected, suffix))
    }

    method DropFront(ghost prefix: seq<Plain>, ghost suffix: seq<Plain>)
      requires Valid() && 1 < |selected| < |history| && !selected[0].protected
      modifies this
      ensures Valid() && selected == old(selected)[1..] && Size(prefix, suffix) <= old(Size(prefix, suffix))
    {
      FrontDropShrinks(prefix, |history|, selected, suffix);
      ghost var before := selected;
      Delete(0);
      assert selected == before[1..];
    }

    /** Drops orphaned turns from the front of a truncated transcript. */
    method Normalize(omitted: bool, ghost prefix: seq<Plain>, ghost suffix: seq<Plain>)
      requires Valid() && (omitted <==> |selected| < |history|)
      modifies this
      ensures Valid() && WellOpened(history, selected) && |selected| <= |old(selected)|
      ensures old(Minimal(selected)) ==> selected == old(selected)
      ensures Size(prefix, suffix) <= old(Size(prefix, suffix))
      ensures OrphansDropped(old(selected), selected) && (!omitted ==> selected == old(selected))
    {
      assert selected == selected[0..];
      if !omitted {
        return;
      }
      ghost var minimal, size, before, n := Minimal(selected), Size(prefix, suffix), selected, 0;
      while |selected| > 1 && Orphan(selected[0])
        invariant Valid() && |selected| < |history| && |selected| <= |old(selected)|
        invariant minimal ==> selected == old(selected)
        invariant Size(prefix, suffix) <= size
        invariant 0 <= n <= |before| && selected == before[n..]
        invariant forall i | 0 <= i < n :: !before[i].protected && before[i].role in {AssistantRole, ToolRole}
        decreases |selected|
      {
        assert !minimal;
        DropFront(prefix, suffix);
        n := n + 1;
      }
    }

    /** Drops an eighth of the messages, and at least one, unless the target is met or
        nothing can be dropped. */
    method DropShare(prefix: seq<Plain>, suffix: seq<Plain>, target: int) returns (dropped: bool)
      requires Valid()
      modifies this
      ensures Valid()
      ensures dropped ==> |selected| < |old(selected)| && PrunesOnce(prefix, |history|, suffix, target, old(selected), selected)
      ensures !dropped ==> selected == old(selected) && (Size(prefix, suffix) <= target || Minimal(selected))
    {
      var estimate := EstimateMessages(Candidate(prefix, |history|, selected, suffix));
      if estimate <= target {
        return false;
      }
      var drop := if |selected| / 8 >= 1 then |selected| / 8 else 1;
      assert IsShare(drop, |selected|);
      var removed := DropOldest(drop);
      dropped := removed != 0;
      assert dropped ==> Shortened(old(selected), selected, drop);
    }

    /** Drops share by share until the target is met or nothing can be dropped. */
    method PruneToTarget(prefix: seq<Plain>, suffix: seq<Plain>, target: int) returns (ghost passes: seq<seq<Message>>)
      requires Valid()
      modifies this
      ensures Valid() && (Size(prefix, suffix) <= target || Minimal(selected))
      ensures Pruning(prefix, |history|, suffix, target, passes)
      ensures passes[0] == old(selected) && passes[|passes| - 1] == selected
    {
      passes := [selected];
      while |selected| > 1
        invariant Valid() && passes != [] && passes[0] == old(selected) && passes[|passes| - 1] == selected
        invariant Pruning(prefix, |history|, suffix, target, passes)
        decreases |selected|
      {
        var dropped := DropShare(prefix, suffix, target);
        if !dropped {
          break;
        }
        PruningStep(prefix, |history|, suffix, target, passes, selected);
        passes := passes + [selected];
      }
    }

    /** Prunes by estimate until the target is met or nothing can be dropped, and not a pass
        longer. */
    method PrePrune(prefix: seq<Plain>, suffix: seq<Plain>, target: int) returns (ghost passes: seq<seq<Message>>)
      requires Valid()
      modifies this
      ensures Valid() && WellOpened(history, selected)
      ensures Estimate(Candidate(prefix, |history|, selected, suffix)) <= target || Minimal(selected)
      ensures Prunes(prefix, |history|, suffix, target, passes, selected) && passes[0] == old(selected)
    {
      passes := PruneToTarget(prefix, suffix, target);
      Normalize(|selected| < |history|, prefix, suffix);
    }

    /** How many messages an overflow of tokens suggests dropping. */
    method DropFor(overflow: int) returns (drop: nat)
      requires |selected| > 1 && overflow > 0
      ensures Covers(drop, selected, overflow)
    {
      var estimate := EstimateMessages(Shown(selected));
      var perMessage := if estimate / |selected| >= 1 then estimate / |selected| else 1;
      var wanted := overflow / perMessage + 1;
      Quotient(overflow, perMessage, |selected| - 1);
      drop := if wanted < |selected| - 1 then (if wanted >= 1 then wanted else 1) else |selected| - 1;
    }

    /** One pass of the tightening, unless nothing can be dropped. */
    method DropOverflow(answer: Option<int>, usable: int, ghost prefix: seq<Plain>, ghost suffix: seq<Plain>)
      returns (dropped: bool)
      requires Valid() && |selected| > 1 && answer.Some? && answer.value > usable && WellOpened(history, selected)
      modifies this
      ensures Valid() && WellOpened(history, selected)
      ensures !dropped ==> selected == old(selected) && Minimal(selected)
      ensures dropped ==> TightensOnce(answer, usable, old(selected), selected)
    {
      ghost var before := selected;
      var drop := DropFor(answer.value - usable);
      var removed := DropOldest(drop);
      dropped := removed != 0;
      if dropped {
        ghost var mid := selected;
        assert Shortened(before, mid, drop);
        Normalize(true, prefix, suffix);
        assert Covers(drop, before, answer.value - usable) && OrphansDropped(mid, selected);
      }
    }

    /** Tightens by the tokenizer's own counts, at most twelve times. */
    method Tighten(prefix: seq<Plain>, suffix: seq<Plain>, usable: int, tokenizer: (nat, seq<Plain>) -> Option<int>)
      returns (tokens: int, exact: bool, attempts: nat, ghost passes: seq<seq<Message>>)
      requires Valid() && WellOpened(history, selected)
      modifies this
      ensures Valid() && WellOpened(history, selected) && attempts <= 12
      ensures exact ==> tokenizer(attempts, Candidate(prefix, |history|, selected, suffix)) == Some(tokens)
      ensures !exact ==>
        && tokenizer(attempts, Candidate(prefix, |history|, selected, suffix)).None?
        && tokens == Estimate(Candidate(prefix, |history|, selected, suffix))
      ensures exact && tokens > usable ==> attempts == 12 || Minimal(selected)
      ensures |passes| == attempts + 1 && passes[0] == old(selected) && passes[attempts] == selected
      ensures Tightens(prefix, |history|, suffix, usable, tokenizer, passes)
    {
      attempts, passes := 0, [selected];
      var answer := tokenizer(attempts, Candidate(prefix, |history|, selected, suffix));
      while answer.Some? && answer.value > usable && |selected| > 1 && attempts < 12
        invariant Valid() && WellOpened(history, selected) && attempts <= 12
        invariant answer == tokenizer(attempts, Candidate(prefix, |history|, selected, suffix))
        invariant |passes| == attempts + 1 && passes[0] == old(selected) && passes[attempts] == selected
        invariant Tightens(prefix, |history|, suffix, usable, tokenizer, passes)
        decreases 12 - attempts
      {
        var dropped := DropOverflow(answer, usable, prefix, suffix);
        if !dropped {
          break;
        }
        attempts, passes := attempts + 1, passes + [selected];
        answer := tokenizer(attempts, Candidate(prefix, |history|, selected, suffix));
      }
      exact := answer.Some?;
      if exact {
        tokens := answer.value;
      } else {
        tokens := EstimateMessages(Candidate(prefix, |history|, selected, suffix));
      }
    }
  }

  // ---------------------------------------------------------------- projections

  datatype Projection =
    | Projected(messages: seq<Plain>, tokens: int, exact: bool, included: nat, omitted: nat, limit: int)
    | DoesNotFit(tokens: int, exact: bool)
    | NoBudget
    | NoCapacity

  /** The share of the usable input the cheap estimate aims for, truncated. */
  function EstimateTarget(usable: int): (t: int)
    ensures usable >= 0 ==> 0 <= t <= usable
    ensures 100 * t <= 94 * usable < 100 * (t + 1)
  {
    (usable as real * 0.94).Floor
  }

  /** Where a token count comes from: the tokenizer's last answer about just these
      messages, or the estimate, without a tokenizer or after it failed on them. */
  ghost predicate Counted(tokenizer: (nat, seq<Plain>) -> Option<int>, calls: nat, messages: seq<Plain>,
                          tokens: int, wanted: bool, exact: bool) {
    if exact then wanted && calls <= 12 && tokenizer(calls, messages) == Some(tokens)
    else tokens == Estimate(messages) && (wanted ==> calls <= 12 && tokenizer(calls, messages) == None)
  }

  /** Why a selection that is still too large was not pruned further: nothing more can be
      dropped, the attempts are used up, or the tokenizer failed. */
  ghost predicate Exhausted(selected: seq<Message>, calls: nat, wanted: bool, exact: bool) {
    Minimal(selected) || (wanted && (exact ==> calls == 12))
  }

  /** The passes of a build, from the whole history to its selection. */
  datatype Trace = Trace(pruned: seq<seq<Message>>, tightened: seq<seq<Message>>)

  ghost predicate Traced(history: seq<Message>, prefix: seq<Plain>, suffix: seq<Plain>, usable: int, exact: bool,
                         tokenizer: (nat, seq<Plain>) -> Option<int>, trace: Trace, calls: nat, selected: seq<Message>) {
    && trace.pruned != [] && trace.pruned[0] == history && |trace.tightened| == calls + 1
    && Prunes(prefix, |history|, suffix, EstimateTarget(usable), trace.pruned, trace.tightened[0])
    && (if exact then Tightens(prefix, |history|, suffix, usable, tokenizer, trace.tightened) else calls == 0)
    && trace.tightened[calls] == selected
  }

  /** The whole history passes the estimate and, if it is asked at all, the tokenizer. */
  ghost predicate Fits(history: seq<Message>, prefix: seq<Plain>, suffix: seq<Plain>, usable: int, exact: bool,
                       tokenizer: (nat, seq<Plain>) -> Option<int>) {
    var whole := prefix + Shown(history) + suffix;
    && Estimate(whole) <= EstimateTarget(usable)
    && (exact ==> match tokenizer(0, whole) case None => true case Some(tokens) => tokens <= usable)
  }

  lemma WholeCandidate(history: seq<Message>, prefix: seq<Plain>, suffix: seq<Plain>)
    ensures Candidate(prefix, |history|, history, suffix) == prefix + Shown(history) + suffix
  {
    assert prefix + [] == prefix;
  }

  /** Nothing is dropped from a history that fits. */
  lemma FittingStays(history: seq<Message>, prefix: seq<Plain>, suffix: seq<Plain>, usable: int, exact: bool,
                     tokenizer: (nat, seq<Plain>) -> Option<int>, trace: Trace, calls: nat, selected: seq<Message>)
    requires Traced(history, prefix, suffix, usable, exact, tokenizer, trace, calls, selected)
    requires Fits(history, prefix, suffix, usable, exact, tokenizer)
    ensures selected == history && calls == 0
  {
    WholeCandidate(history, prefix, suffix);
    PrunesFromAbove(prefix, |history|, suffix, EstimateTarget(usable), trace.pruned);
    if calls > 0 {
      TightensFromAbove(prefix, |history|, suffix, usable, tokenizer, trace.tightened);
    }
  }

  lemma FittingCounts(history: seq<Message>, prefix: seq<Plain>, suffix: seq<Plain>, usable: int, exact: bool,
                      tokenizer: (nat, seq<Plain>) -> Option<int>, tokens: int, isExact: bool)
    requires usable >= 0 && Fits(history, prefix, suffix, usable, exact, tokenizer)
    requires Counted(tokenizer, 0, Candidate(prefix, |history|, history, suffix), tokens, exact, isExact)
    ensures tokens <= usable
  {
    WholeCandidate(history, prefix, suffix);
  }

  /** The selection a build settles on, and its token count. */
  method Select(history: seq<Message>, prefix: seq<Plain>, suffix: seq<Plain>, usable: int,
      exact: bool, tokenizer: (nat, seq<Plain>) -> Option<int>)
    returns (selected: seq<Message>, tokens: int, isExact: bool, ghost calls: nat, ghost trace: Trace)
    requires usable >= 0
    ensures |selected| <= |history| && IsCut(history, selected) && WellOpened(history, selected)
    ensures history != [] ==> selected != [] && selected[|selected| - 1] == history[|history| - 1]
    ensures Counted(tokenizer, calls, Candidate(prefix, |history|, selected, suffix), tokens, exact, isExact)
    ensures tokens > usable ==> Exhausted(selected, calls, exact, isExact)
    ensures Traced(history, prefix, suffix, usable, exact, tokenizer, trace, calls, selected)
    ensures Fits(history, prefix, suffix, usable, exact, tokenizer) ==> selected == history && tokens <= usable
  {
    calls := 0;
    var s := new Selection(history);
    ghost var pruned := s.PrePrune(prefix, suffix, EstimateTarget(usable));
    ghost var tightened := [s.selected];
    if exact {
      tokens, isExact, calls, tightened := s.Tighten(prefix, suffix, usable, tokenizer);
    } else {
      tokens := EstimateMessages(Candidate(prefix, |history|, s.selected, suffix));
      isExact := false;
    }
    selected, trace := s.selected, Trace(pruned, tightened);
    if Fits(history, prefix, suffix, usable, exact, tokenizer) {
      FittingStays(history, prefix, suffix, usable, exact, tokenizer, trace, calls, selected);
      FittingCounts(history, prefix, suffix, usable, exact, tokenizer, tokens, isExact);
    }
  }

  /** Fits a history between prefix and suffix.  A projection is returned exactly if its
      tokens fit the usable input, and then its limit and the safety margin fit the window
      with them; the ceiling never fails there.  A refusal names a count above the usable
      input, and says what stopped the pruning. */
  method Build(history: seq<Message>, prefix: seq<Plain>, suffix: seq<Plain>, window: int, configured: int,
      requested: Option<int>, margin: int, exact: bool, tokenizer: (nat, seq<Plain>) -> Option<int>)
    returns (r: Projection, ghost selected: seq<Message>, ghost calls: nat, ghost trace: Trace)
    ensures r.NoBudget? <==> !GenerationBudget(window, configured, requested, margin).Planned?
    ensures !r.NoCapacity?
    ensures !r.NoBudget? ==> |selected| <= |history| && IsCut(history, selected) && WellOpened(history, selected)
    ensures r.Projected? ==>
      && r.included == |selected| && r.included + r.omitted == |history|
      && r.messages == prefix + Marker(r.omitted) + Shown(selected) + suffix
      && Allots(GenerationBudget(window, configured, requested, margin).plan, r.tokens, r.limit)
      && Counted(tokenizer, calls, r.messages, r.tokens, exact, r.exact)
    ensures r.Projected? ==>
      Reads(r.messages, r.omitted, history, prefix, suffix, selected)
    ensures r.Projected? ==>
      var safety := if margin > 0 then margin else 0;
      && r.tokens + (match requested case Some(n) => n case None => configured) + safety <= window
      && r.limit == match requested case Some(n) => n case None => window - safety - r.tokens
    ensures r.Projected? && r.omitted > 0 && r.included > 1 ==> selected[0].protected || selected[0].role !in {AssistantRole, ToolRole}
    ensures !r.NoBudget? ==>
      var usable := GenerationBudget(window, configured, requested, margin).plan.usable;
      && Traced(history, prefix, suffix, usable, exact, tokenizer, trace, calls, selected)
      && (Fits(history, prefix, suffix, usable, exact, tokenizer) ==> selected == history && r.Projected? && r.omitted == 0)
    ensures r.DoesNotFit? ==>
      && r.tokens > GenerationBudget(window, configured, requested, margin).plan.usable
      && Counted(tokenizer, calls, Candidate(prefix, |history|, selected, suffix), r.tokens, exact, r.exact)
      && (selected == Kept(history, if history == [] then 0 else |history| - 1) || (exact && (r.exact ==> calls == 12)))
  {
    selected, calls, trace := [], 0, Trace([], []);
    var budget := GenerationBudget(window, configured, requested, margin);
    if !budget.Planned? {
      return NoBudget, selected, calls, trace;
    }
    var chosen, tokens, isExact;
    chosen, tokens, isExact, calls, trace := Select(history, prefix, suffix, budget.plan.usable, exact, tokenizer);
    selected := chosen;
    CandidateReads(history, prefix, suffix, selected);
    if tokens > budget.plan.usable {
      if Minimal(selected) {
        MinimalIsLast(history, selected);
      }
      return DoesNotFit(tokens, isExact), selected, calls, trace;
    }
    CeilingAllots(window, configured, requested, margin, tokens);
    var ceiling := GenerationCeiling(budget.plan, tokens);
    if ceiling.None? {
      return NoCapacity, selected, calls, trace;
    }
    r := Projected(Candidate(prefix, |history|, chosen, suffix), tokens, isExact, |chosen|, |history| - |chosen|, ceiling.value);
  }

  /** A cut that is as long as the history is the history. */
  lemma {:induction false} FullyKept(history: seq<Message>, k: nat)
    requires |Kept(history, k)| == |history|
    ensures Kept(history, k) == history
  {
    if history != [] {
      KeptLength(history[..|history| - 1], k);
      FullyKept(history[..|history| - 1], k);
    }
  }

  lemma WholeCut(history: seq<Message>, selected: seq<Message>)
    requires IsCut(history, selected)
    ensures |selected| == |history| ==> selected == history
  {
    if |selected| == |history| && history != [] {
      var k: nat :| k < |history| && selected == Kept(history, k);
      FullyKept(history, k);
    }
  }

  /** Nothing omitted, nothing said; otherwise one system message says how many. */
  ghost predicate Reads(messages: seq<Plain>, omitted: nat, history: seq<Message>, prefix: seq<Plain>, suffix: seq<Plain>,
                        selected: seq<Message>) {
    if omitted == 0 then messages == prefix + Shown(history) + suffix
    else messages == prefix + [Plain(SystemRole, MARKER_HEAD + Decimal(omitted) + MARKER_TAIL)] + Shown(selected) + suffix
  }

  lemma CandidateReads(history: seq<Message>, prefix: seq<Plain>, suffix: seq<Plain>, selected: seq<Message>)
    requires IsCut(history, selected) && |selected| <= |history|
    ensures Reads(Candidate(prefix, |history|, selected, suffix), |history| - |selected|, history, prefix, suffix, selected)
  {
    WholeCut(history, selected);
    WholeCandidate(history, prefix, suffix);
  }

  lemma MinimalIsLast(history: seq<Message>, selected: seq<Message>)
    requires IsCut(history, selected) && Minimal(selected)
    ensures selected == Kept(history, if history == [] then 0 else |history| - 1)
  {
    if history != [] {
      var k: nat :| k < |history| && selected == Kept(history, k);
      LastCut(history, k);
    }
  }
}
