/** The per-stream sequence filter of a receiver thread of src/zmq_receiver.cpp: which arrivals
    pass and which are dropped as duplicate or out of order. Sequence numbers are 64-bit words. */
module SequenceFilter {
  import opened Wrappers
  import opened Bits

  const TOP: nat := WORD - 1

  datatype SequenceKey = SequenceKey(server: nat, subband: nat, window: nat, beam: nat)

  datatype Message = Message(key: SequenceKey, sequence: nat, timestamp: nat)

  /** `SequenceState`: the last message of the stream that passed. */
  datatype SequenceState = SequenceState(sequence: nat, timestamp: nat)

  function StateOf(m: Message): SequenceState { SequenceState(m.sequence, m.timestamp) }

  /** `transport.sequence > previous.sequence + 1`, an addition that wraps. */
  predicate IsGap(previous: SequenceState, m: Message) { m.sequence > (previous.sequence + 1) % WORD }

  predicate IsStale(previous: SequenceState, m: Message) {
    m.sequence <= previous.sequence && m.timestamp <= previous.timestamp
  }

  /** Lines 771-798. */
  predicate Passes(previous: Option<SequenceState>, m: Message) {
    previous.None? || IsGap(previous.value, m) || !IsStale(previous.value, m)
  }

  /** The number of messages counted as missing before one that passes. */
  function Missing(previous: SequenceState, m: Message): nat {
    if IsGap(previous, m) then (m.sequence - previous.sequence - 1) % WORD else 0
  }

  // ---- One stream --------------------------------------------------------------------------

  function LastOf(passed: seq<Message>): Option<SequenceState> {
    if passed == [] then None else Some(StateOf(passed[|passed| - 1]))
  }

  /** The messages of one stream that pass. */
  function Passed(arrivals: seq<Message>): seq<Message> {
    if arrivals == [] then []
    else
      var before, m := Passed(arrivals[..|arrivals| - 1]), arrivals[|arrivals| - 1];
      if Passes(LastOf(before), m) then before + [m] else before
  }

  predicate Words(arrivals: seq<Message>) { forall i :: 0 <= i < |arrivals| ==> arrivals[i].sequence < WORD }

  predicate Advances(previous: SequenceState, m: Message) {
    m.sequence > previous.sequence || m.timestamp > previous.timestamp
  }

  /** What passes after `previous` always advances in sequence or time, exactly when `previous` is
      not the last 64-bit number: after that the gap test compares with the wrapped value 0. */
  lemma PassesAdvancesIff(previous: SequenceState)
    requires previous.sequence < WORD
    ensures (forall m: Message :: m.sequence < WORD && Passes(Some(previous), m) ==> Advances(previous, m))
              <==> previous.sequence != TOP
  {
    var key := SequenceKey(0, 0, 0, 0);
    var again := Message(key, previous.sequence, previous.timestamp);
    if previous.sequence == TOP {
      assert (previous.sequence + 1) % WORD == 0;
      assert Passes(Some(previous), again) && !Advances(previous, again);
    }
  }

  /** What the filter lets through, on any stream: after any number but the last 64-bit one exactly
      what advances in sequence or in time; after the last one every number but 0, and 0 exactly
      when it is later. */
  lemma PassesExact(previous: SequenceState, m: Message)
    requires previous.sequence < WORD && m.sequence < WORD
    ensures previous.sequence != TOP ==>
      (Passes(Some(previous), m) <==> m.sequence > previous.sequence || m.timestamp > previous.timestamp)
    ensures previous.sequence == TOP ==>
      (Passes(Some(previous), m) <==> m.sequence > 0 || m.timestamp > previous.timestamp)
  {
    if previous.sequence == TOP {
      assert (previous.sequence + 1) % WORD == 0;
    } else {
      assert (previous.sequence + 1) % WORD == previous.sequence + 1;
    }
  }

  /** When a message counts as a gap: more than one ahead, or anything but 0 after the last number. */
  lemma GapExact(previous: SequenceState, m: Message)
    requires previous.sequence < WORD && m.sequence < WORD
    ensures IsGap(previous, m) <==> m.sequence > if previous.sequence == TOP then 0 else previous.sequence + 1
  {
    if previous.sequence == TOP {
      assert (previous.sequence + 1) % WORD == 0;
    } else {
      assert (previous.sequence + 1) % WORD == previous.sequence + 1;
    }
  }

  /** The very same message passes twice. */
  lemma WrapPassesDuplicate(m: Message)
    requires m.sequence == TOP
    ensures Passed([m, m]) == [m, m]
  {
    assert [m, m][..1] == [m] && [m][..0] == [] && Passed([]) == [];
    assert Passed([m]) == [m];
    assert (m.sequence + 1) % WORD == 0 && IsGap(StateOf(m), m);
  }

  lemma AdvancesAfter(previous: SequenceState, m: Message)
    requires previous.sequence < TOP && Passes(Some(previous), m)
    ensures Advances(previous, m)
  {
    assert (previous.sequence + 1) % WORD == previous.sequence + 1;
  }

  lemma InPrefix(ms: seq<Message>, m: Message)
    requires ms != [] && m in ms[..|ms| - 1]
    ensures m in ms
  {
    var k :| 0 <= k < |ms| - 1 && ms[..|ms| - 1][k] == m;
    assert ms[k] == m;
  }

  /** Each message of `p` advances on the one before it. */
  ghost predicate Advancing(p: seq<Message>) {
    forall i :: 0 <= i < |p| - 1 ==> Advances(StateOf(p[i]), p[i + 1])
  }

  ghost predicate AllIn(p: seq<Message>, arrivals: seq<Message>) { forall i :: 0 <= i < |p| ==> p[i] in arrivals }

  lemma AdvancingSnoc(p: seq<Message>, m: Message)
    requires Advancing(p) && (p != [] ==> Advances(StateOf(p[|p| - 1]), m))
    ensures Advancing(p + [m])
  {
    hide Advances;
  }

  lemma AllInSnoc(p: seq<Message>, arrivals: seq<Message>)
    requires arrivals != [] && AllIn(p, arrivals[..|arrivals| - 1])
    ensures AllIn(p, arrivals) && AllIn(p + [arrivals[|arrivals| - 1]], arrivals)
  {
    forall i | 0 <= i < |p| ensures p[i] in arrivals { InPrefix(arrivals, p[i]); }
  }

  /** Consecutive messages that pass strictly advance, on streams without the last number. */
  lemma {:induction false} PassedAdvances(arrivals: seq<Message>)
    requires Words(arrivals) && forall i :: 0 <= i < |arrivals| ==> arrivals[i].sequence != TOP
    ensures AllIn(Passed(arrivals), arrivals) && Advancing(Passed(arrivals))
    decreases |arrivals|
  {
    hide Passes, Advances, Advancing;
    if arrivals == [] {
      NoneAdvance();
    } else {
      var before, m := arrivals[..|arrivals| - 1], arrivals[|arrivals| - 1];
      PassedAdvances(before);
      var p := Passed(before);
      AllInSnoc(p, arrivals);
      if Passes(LastOf(p), m) {
        if p != [] {
          assert p[|p| - 1] in arrivals;
          AdvancesAfter(StateOf(p[|p| - 1]), m);
        }
        AdvancingSnoc(p, m);
      }
    }
  }

  lemma NoneAdvance()
    ensures Advancing([])
  {
  }

  // ---- Streams whose time follows their sequence ------------------------------------------------

  /** Timestamps increase exactly with sequence numbers. */
  ghost predicate Ordered(arrivals: seq<Message>) {
    forall i, j :: 0 <= i < |arrivals| && 0 <= j < |arrivals| ==>
      (arrivals[i].sequence < arrivals[j].sequence <==> arrivals[i].timestamp < arrivals[j].timestamp)
  }

  /** The largest sequence number, or -1. */
  function Largest(arrivals: seq<Message>): int {
    if arrivals == [] then -1
    else
      var before, m := Largest(arrivals[..|arrivals| - 1]), arrivals[|arrivals| - 1].sequence;
      if m > before then m else before
  }

  /** The strict running maxima: the messages larger than all before them. */
  function Maxima(arrivals: seq<Message>): seq<Message> {
    if arrivals == [] then []
    else
      var before, m := arrivals[..|arrivals| - 1], arrivals[|arrivals| - 1];
      Maxima(before) + (if m.sequence > Largest(before) then [m] else [])
  }

  /** After the last 64-bit number only zeros arrive. */
  ghost predicate NoneAfterTop(arrivals: seq<Message>) {
    forall i, j :: 0 <= i < j < |arrivals| && arrivals[i].sequence == TOP ==> arrivals[j].sequence == 0
  }

  lemma {:induction false} LargestIs(arrivals: seq<Message>)
    requires Words(arrivals)
    ensures Largest(arrivals) < WORD && forall i :: 0 <= i < |arrivals| ==> arrivals[i].sequence <= Largest(arrivals)
    ensures arrivals != [] ==> exists i :: 0 <= i < |arrivals| && arrivals[i].sequence == Largest(arrivals)
    ensures |Maxima(arrivals)| <= |arrivals| && (arrivals != [] ==> Maxima(arrivals) != [])
    ensures arrivals != [] ==>
      var x := Maxima(arrivals); x[|x| - 1] in arrivals && x[|x| - 1].sequence == Largest(arrivals)
    decreases |arrivals|
  {
    if arrivals != [] {
      var n := |arrivals| - 1;
      LargestIs(arrivals[..n]);
      if arrivals[n].sequence > Largest(arrivals[..n]) {
        assert arrivals[n] in arrivals;
      } else {
        var i :| 0 <= i < n && arrivals[..n][i].sequence == Largest(arrivals[..n]);
        assert arrivals[i].sequence == Largest(arrivals);
      }
    }
  }

  /** A message after the running maximum `last` passes exactly when it is larger. */
  lemma PassesAfter(last: Message, m: Message)
    requires last.sequence < WORD && m.sequence < WORD && (last.sequence == TOP ==> m.sequence == 0)
    requires last.sequence < m.sequence <==> last.timestamp < m.timestamp
    requires m.sequence < last.sequence <==> m.timestamp < last.timestamp
    ensures Passes(Some(StateOf(last)), m) <==> m.sequence > last.sequence
  {
    if last.sequence == TOP {
      assert (last.sequence + 1) % WORD == 0;
    } else {
      assert (last.sequence + 1) % WORD == last.sequence + 1;
    }
  }

  lemma LastOrdered(arrivals: seq<Message>, last: Message)
    requires Words(arrivals) && Ordered(arrivals) && NoneAfterTop(arrivals) && arrivals != []
    requires last in arrivals[..|arrivals| - 1]
    ensures var m := arrivals[|arrivals| - 1];
      Passes(Some(StateOf(last)), m) <==> m.sequence > last.sequence
  {
    hide Passes;
    var n := |arrivals| - 1;
    var i :| 0 <= i < n && arrivals[..n][i] == last;
    assert arrivals[i] == last;
    PassesAfter(last, arrivals[n]);
  }

  lemma {:induction false} PassedIsMaxima(arrivals: seq<Message>)
    requires Words(arrivals) && Ordered(arrivals) && NoneAfterTop(arrivals)
    ensures Passed(arrivals) == Maxima(arrivals)
    decreases |arrivals|
  {
    hide Passes;
    if arrivals != [] {
      var before, m := arrivals[..|arrivals| - 1], arrivals[|arrivals| - 1];
      PassedIsMaxima(before);
      LargestIs(before);
      if before == [] {
        FirstPasses(m);
      } else {
        LastOrdered(arrivals, Maxima(before)[|Maxima(before)| - 1]);
      }
    }
  }

  lemma FirstPasses(m: Message)
    ensures Passes(None, m) && Passed([]) == [] && Largest([]) == -1
  {
  }

  lemma TopPasses(last: Message, m: Message)
    requires last.sequence == TOP && m.sequence != 0
    ensures Passes(Some(StateOf(last)), m)
  {
    assert (TOP + 1) % WORD == 0;
  }

  lemma OrderedPrefix(arrivals: seq<Message>)
    requires arrivals != [] && Words(arrivals) && Ordered(arrivals)
    ensures Words(arrivals[..|arrivals| - 1]) && Ordered(arrivals[..|arrivals| - 1])
  {
  }

  /** Otherwise more passes than the maxima. */
  lemma {:induction false} PassedExceeds(arrivals: seq<Message>)
    requires Words(arrivals) && Ordered(arrivals) && !NoneAfterTop(arrivals)
    ensures |Passed(arrivals)| > |Maxima(arrivals)|
    decreases |arrivals|
  {
    hide Passes, Ordered;
    var n := |arrivals| - 1;
    var i, j :| 0 <= i < j < |arrivals| && arrivals[i].sequence == TOP && arrivals[j].sequence != 0;
    var before, m := arrivals[..n], arrivals[n];
    OrderedPrefix(arrivals);
    LargestIs(before);
    assert before[i].sequence == TOP && Largest(before) == TOP;
    assert forall k :: 0 <= k < n ==> before[k] == arrivals[k];
    if NoneAfterTop(before) {
      PassedIsMaxima(before);
      var x := Maxima(before);
      TopPasses(x[|x| - 1], m);
    } else {
      PassedExceeds(before);
    }
  }

  /** On such a stream the messages that pass are the strict running maxima of the arrivals, so that
      nothing passes twice, exactly when nothing but zeros follows the last 64-bit number. */
  lemma MaximaExact(arrivals: seq<Message>)
    requires Words(arrivals) && Ordered(arrivals)
    ensures Passed(arrivals) == Maxima(arrivals) <==> NoneAfterTop(arrivals)
  {
    if NoneAfterTop(arrivals) { PassedIsMaxima(arrivals); } else { PassedExceeds(arrivals); }
  }

  /** The sizes of the gaps before the messages that passed, added up. */
  function Gaps(passed: seq<Message>): nat {
    if |passed| <= 1 then 0
    else Gaps(passed[..|passed| - 1]) + Missing(StateOf(passed[|passed| - 2]), passed[|passed| - 1])
  }

  lemma {:induction false} MaximaIncrease(arrivals: seq<Message>)
    requires Words(arrivals)
    ensures var x := Maxima(arrivals);
      && (forall i :: 0 <= i < |x| - 1 ==> x[i].sequence < x[i + 1].sequence)
      && (arrivals != [] ==> x != [] && x[0] == arrivals[0] && x[|x| - 1].sequence == Largest(arrivals))
      && (forall i :: 0 <= i < |x| ==> x[i].sequence < WORD)
    decreases |arrivals|
  {
    LargestIs(arrivals);
    if arrivals != [] {
      var before := arrivals[..|arrivals| - 1];
      MaximaIncrease(before);
      LargestIs(before);
    }
  }

  lemma MissingBetween(a: Message, b: Message)
    requires a.sequence < b.sequence < WORD
    ensures Missing(StateOf(a), b) == b.sequence - a.sequence - 1
  {
    assert (a.sequence + 1) % WORD == a.sequence + 1;
    if b.sequence > a.sequence + 1 { assert (b.sequence - a.sequence - 1) % WORD == b.sequence - a.sequence - 1; }
  }

  lemma {:induction false} GapsTelescope(x: seq<Message>)
    requires x != [] && forall i :: 0 <= i < |x| ==> x[i].sequence < WORD
    requires forall i :: 0 <= i < |x| - 1 ==> x[i].sequence < x[i + 1].sequence
    ensures |x| + Gaps(x) == x[|x| - 1].sequence - x[0].sequence + 1
    decreases |x|
  {
    if |x| > 1 {
      GapsTelescope(x[..|x| - 1]);
      MissingBetween(x[|x| - 2], x[|x| - 1]);
    }
  }

  lemma TopCounted(arrivals: seq<Message>)
    requires arrivals != [] && Words(arrivals) && Ordered(arrivals) && NoneAfterTop(arrivals)
    ensures |Passed(arrivals)| + Gaps(Passed(arrivals)) == Largest(arrivals) - arrivals[0].sequence + 1
  {
    PassedIsMaxima(arrivals);
    MaximaIncrease(arrivals);
    GapsTelescope(Maxima(arrivals));
  }

  lemma GapsGrow(p: seq<Message>, m: Message)
    ensures Gaps(p + [m]) >= Gaps(p)
  {
    hide Missing;
    assert (p + [m])[..|p|] == p;
  }

  /** A further arrival never lowers the count, and raises it when it passes. */
  lemma CountGrows(arrivals: seq<Message>)
    requires arrivals != []
    ensures var n := |arrivals| - 1; var p, p' := Passed(arrivals[..n]), Passed(arrivals);
      && |p'| + Gaps(p') >= |p| + Gaps(p)
      && (Passes(LastOf(p), arrivals[n]) ==> |p'| + Gaps(p') > |p| + Gaps(p))
  {
    hide Passes, Gaps;
    GapsGrow(Passed(arrivals[..|arrivals| - 1]), arrivals[|arrivals| - 1]);
  }

  /** Once anything but 0 follows the last 64-bit number, too much is counted. */
  lemma {:induction false} CountExceeds(arrivals: seq<Message>)
    requires Words(arrivals) && Ordered(arrivals) && !NoneAfterTop(arrivals)
    ensures |Passed(arrivals)| + Gaps(Passed(arrivals)) > Largest(arrivals) - arrivals[0].sequence + 1
    decreases |arrivals|
  {
    hide Passes, Ordered, Gaps, Passed;
    var n := |arrivals| - 1;
    var i, j :| 0 <= i < j < |arrivals| && arrivals[i].sequence == TOP && arrivals[j].sequence != 0;
    var before := arrivals[..n];
    OrderedPrefix(arrivals);
    LargestIs(before);
    LargestIs(arrivals);
    assert before[i].sequence == TOP && Largest(before) == TOP == Largest(arrivals);
    assert forall k :: 0 <= k < n ==> before[k] == arrivals[k];
    CountGrows(arrivals);
    if NoneAfterTop(before) {
      assert j == n;
      TopCounted(before);
      PassedIsMaxima(before);
      TopPasses(Maxima(before)[|Maxima(before)| - 1], arrivals[n]);
    } else {
      CountExceeds(before);
    }
  }

  /** The messages that passed and those counted as missing account for every number from the first
      arrival to the largest, exactly when nothing but zeros follows the last 64-bit number. */
  lemma PassedPlusGaps(arrivals: seq<Message>)
    requires arrivals != [] && Words(arrivals) && Ordered(arrivals)
    ensures |Passed(arrivals)| + Gaps(Passed(arrivals)) == Largest(arrivals) - arrivals[0].sequence + 1
      <==> NoneAfterTop(arrivals)
  {
    if NoneAfterTop(arrivals) { TopCounted(arrivals); } else { CountExceeds(arrivals); }
  }

  /** A repeated last number counts 2^64 - 1 missing messages where none is. */
  lemma TopTwiceCounted(m: Message)
    requires m.sequence == TOP
    ensures |Passed([m, m])| + Gaps(Passed([m, m])) == 2 + (WORD - 1)
    ensures Largest([m, m]) - [m, m][0].sequence + 1 == 1
  {
    WrapPassesDuplicate(m);
    assert [m, m][..1] == [m] && [m][..0] == [] && Largest([]) == -1 && Largest([m]) == TOP;
    assert (m.sequence + 1) % WORD == 0 && (m.sequence - m.sequence - 1) % WORD == WORD - 1;
    assert Gaps([m]) == 0;
  }

  // ---- All streams of a port ------------------------------------------------------------------------

  function OfKey(ms: seq<Message>, k: SequenceKey): seq<Message> {
    if ms == [] then []
    else OfKey(ms[..|ms| - 1], k) + (if ms[|ms| - 1].key == k then [ms[|ms| - 1]] else [])
  }

  lemma OfKeySnoc(ms: seq<Message>, m: Message, k: SequenceKey)
    ensures OfKey(ms + [m], k) == OfKey(ms, k) + (if m.key == k then [m] else [])
  {
    assert (ms + [m])[..|ms|] == ms;
  }

  lemma PassedSnoc(ms: seq<Message>, m: Message)
    ensures Passed(ms + [m]) == if Passes(LastOf(Passed(ms)), m) then Passed(ms) + [m] else Passed(ms)
  {
    assert (ms + [m])[..|ms|] == ms;
  }

  /** The state of one receiver thread; `arrivals` and `passed` are history. */
  class Receiver {
    var sequences: map<SequenceKey, SequenceState>
    var gapEvents: nat
    var duplicateEvents: nat
    ghost var arrivals: seq<Message>
    ghost var passed: seq<Message>

    /** On every stream the messages passed are those the stream alone would let pass. */
    ghost predicate Valid()
      reads this
    {
      && |arrivals| == |passed| + duplicateEvents
      && (forall k: SequenceKey {:trigger OfKey(passed, k)} ::
            && OfKey(passed, k) == Passed(OfKey(arrivals, k))
            && LastOf(OfKey(passed, k)) == (if k in sequences then Some(sequences[k]) else None))
      && forall k :: k in sequences ==> sequences[k].sequence < WORD
    }

    constructor ()
      ensures Valid() && arrivals == [] && passed == []
    {
      sequences, gapEvents, duplicateEvents, arrivals, passed := map[], 0, 0, [], [];
    }

    /** One valid message: true when it goes on to be aggregated or written. With `p` the messages
        of its stream that have passed, it does when there are none or it is later or larger than
        the last of them, or, after the last 64-bit number, when it is later or not 0. */
    method Receive(m: Message) returns (passes: bool)
      requires Valid() && m.sequence < WORD
      modifies this
      ensures Valid() && arrivals == old(arrivals) + [m]
      ensures passed == if passes then old(passed) + [m] else old(passed)
      ensures passes == Passes(LastOf(Passed(OfKey(old(arrivals), m.key))), m)
      ensures var p := OfKey(old(passed), m.key);
        passes <==>
          || p == [] || m.timestamp > p[|p| - 1].timestamp
          || m.sequence > if p[|p| - 1].sequence == TOP then 0 else p[|p| - 1].sequence
      ensures var p := OfKey(old(passed), m.key);
        gapEvents == old(gapEvents) +
          if p != [] && m.sequence > (if p[|p| - 1].sequence == TOP then 0 else p[|p| - 1].sequence + 1) then 1 else 0
      ensures duplicateEvents == old(duplicateEvents) + if passes then 0 else 1
    {
      hide OfKey, Passed;
      assert OfKey(passed, m.key) == Passed(OfKey(arrivals, m.key));
      arrivals := arrivals + [m];
      passes := true;
      if m.key in sequences {
        var previous := sequences[m.key];
        PassesExact(previous, m);
        GapExact(previous, m);
        if m.sequence > (previous.sequence + 1) % WORD {
          gapEvents := gapEvents + 1;
        } else if m.sequence <= previous.sequence && m.timestamp <= previous.timestamp {
          duplicateEvents := duplicateEvents + 1;
          passes := false;
        }
      }
      if passes {
        sequences := sequences[m.key := SequenceState(m.sequence, m.timestamp)];
        passed := passed + [m];
      }
      forall k: SequenceKey
        ensures OfKey(passed, k) == Passed(OfKey(arrivals, k))
        ensures LastOf(OfKey(passed, k)) == (if k in sequences then Some(sequences[k]) else None)
      {
        Streams(old(arrivals), old(passed), m, k, passes);
      }
    }
  }

  /** What one message does to the stream of key `k`. */
  lemma Streams(arrivals: seq<Message>, passed: seq<Message>, m: Message, k: SequenceKey, passes: bool)
    requires OfKey(passed, k) == Passed(OfKey(arrivals, k))
    requires k == m.key ==> passes == Passes(LastOf(OfKey(passed, k)), m)
    ensures var passed' := if passes then passed + [m] else passed;
      && OfKey(passed', k) == Passed(OfKey(arrivals + [m], k))
      && OfKey(passed', k) == if passes && k == m.key then OfKey(passed, k) + [m] else OfKey(passed, k)
  {
    hide OfKey, Passed;
    OfKeySnoc(arrivals, m, k);
    OfKeySnoc(passed, m, k);
    PassedSnoc(OfKey(arrivals, k), m);
    assert OfKey(arrivals, k) + [] == OfKey(arrivals, k) && OfKey(passed, k) + [] == OfKey(passed, k);
  }
}
