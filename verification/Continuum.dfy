/** The continuum aggregator of src/zmq_receiver.cpp: results of one integration are matched by
    time, summed over all inputs and written as one row; what cannot complete is discarded. Times
    are in nanoseconds; powers and exposures are real numbers. */
module Continuum {
  import opened Wrappers
  import opened Bits
  import SpectrumWriters

  const TIME_TOLERANCE: int := 1000
  const EXPOSURE_TOLERANCE: real := 0.000001
  const FRAME_TIMEOUT: int := 5_000_000_000
  const CLEANUP_INTERVAL: int := 1_000_000_000

  datatype Result = Result(
    timestamp: nat, start: nat, subband: nat, beam: nat, power: real, exposure: real, noise: nat)

  /** The bounds the aggregator relies on; `validate_header` enforces them. */
  predicate Validated(r: Result) { r.subband <= 31 && r.beam <= 1 && r.start <= r.timestamp && r.exposure > 0.0 }

  /** Lines 812-816: the result of a message with the given header and payload. */
  function ResultOf(h: SpectrumWriters.Header, power: real, noise: nat): Result {
    Result(h.timestamp, h.start, h.subband, h.beam, power, SpectrumWriters.Real(h.exposure), noise)
  }

  /** Every header that `validate_header` lets through in continuum mode gives such a result, and
      no bound is tighter than it enforces. */
  lemma HeaderValidates(h: SpectrumWriters.Header, payloadBytes: nat, obsId: nat, power: real, noise: nat)
    ensures SpectrumWriters.ValidateHeader(h, payloadBytes, obsId, SpectrumWriters.Continuum) ==>
      Validated(ResultOf(h, power, noise))
    ensures Validated(ResultOf(h, power, noise)) ==>
      exists g: SpectrumWriters.Header ::
        && SpectrumWriters.ValidateHeader(g, SpectrumWriters.FLOAT_BYTES, obsId, SpectrumWriters.Continuum)
        && ResultOf(g, power, noise) == ResultOf(h, power, noise)
  {
    if Validated(ResultOf(h, power, noise)) {
      var g := SpectrumWriters.Header(
        SpectrumWriters.SPECTRUM_MAGIC, SpectrumWriters.SPECTRUM_VERSION, h.timestamp, h.start, obsId, h.subband, 0,
        h.beam, Some(0.0), Some(1.0), 1, 0, 1, h.exposure);
      assert SpectrumWriters.ValidateHeader(g, SpectrumWriters.FLOAT_BYTES, obsId, SpectrumWriters.Continuum);
      assert ResultOf(g, power, noise) == ResultOf(h, power, noise);
    }
  }

  /** `(subband_id << 1) | beam_id` */
  function InputId(r: Result): nat { BitOr(r.subband * 2, r.beam) }

  /** A frame of `continuum_map`, whose key is its timestamp. `results`, the results summed so
      far, is history. */
  datatype Frame = Frame(
    timestamp: nat, start: nat, power: real, received: nat, inputs: set<nat>, exposure: real, noise: nat, created: int,
    results: seq<Result>)

  /** A row handed to `continuum_fits.write`; `timestamp` and `results` are history. */
  datatype Row = Row(start: nat, power: real, exposure: real, noise: nat, timestamp: nat, results: seq<Result>)

  /** The map in key order, and when it was last cleaned up. History: the last reading of the
      monotone clock, the rows written, and every result ever accepted and what became of it. */
  datatype Aggregator = Aggregator(
    frames: seq<Frame>, lastCleanup: int, clock: int, rows: seq<Row>, accepted: multiset<Result>,
    duplicates: multiset<Result>, inconsistent: multiset<Result>, expired: multiset<Result>)

  function Start(now: int): Aggregator {
    Aggregator([], now, now, [], multiset{}, multiset{}, multiset{}, multiset{})
  }

  // ---- The map -----------------------------------------------------------------------------

  /** `continuum_map.lower_bound(timestamp)`. */
  function LowerBound(frames: seq<Frame>, timestamp: nat): (k: nat)
    ensures k <= |frames|
    decreases |frames|
  {
    if frames == [] || frames[0].timestamp >= timestamp then 0 else 1 + LowerBound(frames[1..], timestamp)
  }

  function Difference(a: nat, b: nat): nat { if a >= b then a - b else b - a }

  predicate Near(f: Frame, timestamp: nat) { Difference(f.timestamp, timestamp) <= TIME_TOLERANCE }

  /** Lines 450-468: looks at the two neighbours of the timestamp only. */
  function FindFrame(frames: seq<Frame>, timestamp: nat): (k: Option<nat>)
    ensures k.Some? ==> k.value < |frames|
  {
    var it := LowerBound(frames, timestamp);
    if it < |frames| && Near(frames[it], timestamp) then Some(it)
    else if it > 0 && Near(frames[it - 1], timestamp) then Some(it - 1)
    else None
  }

  function RemoveAt<T>(s: seq<T>, k: nat): seq<T>
    requires k < |s|
  {
    s[..k] + s[k + 1..]
  }

  function InsertAt<T>(s: seq<T>, k: nat, x: T): seq<T>
    requires k <= |s|
  {
    s[..k] + [x] + s[k..]
  }

  // ---- One result ---------------------------------------------------------------------------

  function NewFrame(r: Result, now: int): Frame {
    Frame(r.timestamp, r.start, 0.0, 0, {}, r.exposure, r.noise, now, [])
  }

  function Abs(x: real): real { if x < 0.0 then -x else x }

  predicate Consistent(f: Frame, r: Result) {
    f.noise == r.noise && f.start == r.start && Abs(f.exposure - r.exposure) <= EXPOSURE_TOLERANCE
  }

  function Summed(f: Frame, r: Result): Frame {
    f.(power := f.power + r.power, received := f.received + 1, inputs := f.inputs + {InputId(r)},
       results := f.results + [r])
  }

  function RowOf(f: Frame): Row { Row(f.start, f.power, f.exposure, f.noise, f.timestamp, f.results) }

  /** The map after the lookup, and the entry found in or added to it. */
  function Entry(frames: seq<Frame>, r: Result, now: int): (p: (seq<Frame>, nat))
    ensures p.1 < |p.0|
  {
    match FindFrame(frames, r.timestamp)
    case Some(k) => (frames, k)
    case None =>
      var k := LowerBound(frames, r.timestamp);
      (InsertAt(frames, k, NewFrame(r, now)), k)
  }

  /** `accumulate_continuum`, with `n` for `continuum_inputs`. */
  function Accumulate(a: Aggregator, r: Result, now: int, n: nat): Aggregator {
    var (frames, k) := Entry(a.frames, r, now);
    var f := frames[k];
    var b := a.(clock := now, accepted := a.accepted + multiset{r});
    if !Consistent(f, r) then
      b.(frames := RemoveAt(frames, k), inconsistent := a.inconsistent + multiset(f.results) + multiset{r})
    else if InputId(r) in f.inputs then b.(frames := frames, duplicates := a.duplicates + multiset{r})
    else if Summed(f, r).received == n then b.(frames := RemoveAt(frames, k), rows := a.rows + [RowOf(Summed(f, r))])
    else b.(frames := frames[k := Summed(f, r)])
  }

  // ---- Clean-up ---------------------------------------------------------------------------------

  predicate Expired(f: Frame, now: int) { now - f.created >= FRAME_TIMEOUT }

  function Fresh(frames: seq<Frame>, now: int): seq<Frame> {
    if frames == [] then []
    else Fresh(frames[..|frames| - 1], now)
         + (if Expired(frames[|frames| - 1], now) then [] else [frames[|frames| - 1]])
  }

  /** The results the frames hold. */
  function Held(frames: seq<Frame>): multiset<Result> {
    if frames == [] then multiset{}
    else Held(frames[..|frames| - 1]) + multiset(frames[|frames| - 1].results)
  }

  /** `discard_expired_continuum_frames`, at most once a second. */
  function Discard(a: Aggregator, now: int): Aggregator {
    if now - a.lastCleanup < CLEANUP_INTERVAL then a.(clock := now)
    else
      var kept := Fresh(a.frames, now);
      a.(frames := kept, lastCleanup := now, clock := now, expired := a.expired + (Held(a.frames) - Held(kept)))
  }

  // ---- Invariant ------------------------------------------------------------------------------------

  function Total(rs: seq<Result>): real { if rs == [] then 0.0 else Total(rs[..|rs| - 1]) + rs[|rs| - 1].power }

  /** Any two keys of the map are more than the tolerance apart. */
  ghost predicate Spaced(frames: seq<Frame>) {
    forall i, j :: 0 <= i < j < |frames| ==> frames[j].timestamp > frames[i].timestamp + TIME_TOLERANCE
  }

  predicate SameInput(a: Result, b: Result) { a.subband == b.subband && a.beam == b.beam }

  /** The results belong together: valid, one per input, near the timestamp, alike. */
  ghost predicate Belong(rs: seq<Result>, timestamp: nat, start: nat, exposure: real, noise: nat) {
    && (forall i :: 0 <= i < |rs| ==>
          && Validated(rs[i]) && Difference(timestamp, rs[i].timestamp) <= TIME_TOLERANCE
          && rs[i].start == start && rs[i].noise == noise && Abs(exposure - rs[i].exposure) <= EXPOSURE_TOLERANCE)
    && (forall i, j :: 0 <= i < j < |rs| ==> !SameInput(rs[i], rs[j]))
  }

  ghost predicate FrameOk(f: Frame) {
    && Belong(f.results, f.timestamp, f.start, f.exposure, f.noise)
    && f.received == |f.inputs| == |f.results| && f.power == Total(f.results)
    && (forall i :: 0 <= i < |f.results| ==> InputId(f.results[i]) in f.inputs)
    && (forall x :: x in f.inputs ==> exists i :: 0 <= i < |f.results| && InputId(f.results[i]) == x)
  }

  /** A row is the sum of exactly `n` results of distinct subband and beam. */
  ghost predicate RowOk(row: Row, n: nat) {
    |row.results| == n && Belong(row.results, row.timestamp, row.start, row.exposure, row.noise)
    && row.power == Total(row.results)
  }

  ghost predicate FramesOk(frames: seq<Frame>, n: nat) {
    forall i :: 0 <= i < |frames| ==> FrameOk(frames[i]) && 1 <= frames[i].received < n
  }

  function Written(rows: seq<Row>): multiset<Result> {
    if rows == [] then multiset{} else Written(rows[..|rows| - 1]) + multiset(rows[|rows| - 1].results)
  }

  ghost predicate TimesOk(a: Aggregator) {
    && a.lastCleanup <= a.clock
    && forall i :: 0 <= i < |a.frames| ==> a.lastCleanup - FRAME_TIMEOUT < a.frames[i].created <= a.clock
  }

  /** Every accepted result is in exactly one place. */
  ghost predicate Balanced(a: Aggregator) {
    a.accepted == Held(a.frames) + Written(a.rows) + a.duplicates + a.inconsistent + a.expired
  }

  ghost predicate Ok(a: Aggregator, n: nat) {
    && Spaced(a.frames) && FramesOk(a.frames, n) && (forall i :: 0 <= i < |a.rows| ==> RowOk(a.rows[i], n))
    && TimesOk(a) && Balanced(a)
  }

  // ---- Lookup ----------------------------------------------------------------------------------------

  lemma {:induction false} LowerBoundSplits(frames: seq<Frame>, timestamp: nat)
    requires Spaced(frames)
    ensures var k := LowerBound(frames, timestamp);
      && (forall i :: 0 <= i < k ==> frames[i].timestamp < timestamp)
      && (forall i :: k <= i < |frames| ==> frames[i].timestamp >= timestamp)
    decreases |frames|
  {
    if frames != [] && frames[0].timestamp < timestamp {
      LowerBoundSplits(frames[1..], timestamp);
      var k := LowerBound(frames[1..], timestamp);
      forall i | 0 <= i < |frames|
        ensures i < k + 1 ==> frames[i].timestamp < timestamp
        ensures i >= k + 1 ==> frames[i].timestamp >= timestamp
      {
        if i > 0 { assert frames[i] == frames[1..][i - 1]; }
      }
    }
  }

  /** The probe of two neighbours finds a frame exactly when some frame of the whole map is within
      tolerance; it is then the latest such frame, and no third one can be. */
  lemma FindFrameExact(frames: seq<Frame>, timestamp: nat)
    requires Spaced(frames)
    ensures var k := FindFrame(frames, timestamp);
      && (k.None? <==> forall i :: 0 <= i < |frames| ==> !Near(frames[i], timestamp))
      && (k.Some? ==> Near(frames[k.value], timestamp))
      && (forall i :: k.Some? && 0 <= i < |frames| && Near(frames[i], timestamp) ==> i == k.value || i == k.value - 1)
  {
    LowerBoundSplits(frames, timestamp);
    var it := LowerBound(frames, timestamp);
    forall i | 0 <= i < |frames| && i != it && i + 1 != it ensures !Near(frames[i], timestamp) {
      if i + 1 < it {
        assert frames[it - 1].timestamp > frames[i].timestamp + TIME_TOLERANCE;
      } else {
        assert frames[i].timestamp > frames[it].timestamp + TIME_TOLERANCE;
      }
    }
  }

  // ---- The ledger ---------------------------------------------------------------------------------------

  lemma {:induction false} HeldAppend(a: seq<Frame>, b: seq<Frame>)
    ensures Held(a + b) == Held(a) + Held(b)
    decreases |b|
  {
    if b == [] {
      assert a + b == a;
    } else {
      assert (a + b)[..|a + b| - 1] == a + b[..|b| - 1];
      HeldAppend(a, b[..|b| - 1]);
    }
  }

  lemma HeldNone()
    ensures Held([]) == multiset{}
  {
  }

  lemma HeldOne(f: Frame)
    ensures Held([f]) == multiset(f.results)
  {
    assert [f][..0] == [];
  }

  lemma Shuffle(a: multiset<Result>, b: multiset<Result>, c: multiset<Result>)
    ensures a + b + c == a + c + b
  {
  }

  lemma HeldAt(frames: seq<Frame>, k: nat)
    requires k < |frames|
    ensures Held(frames) == Held(RemoveAt(frames, k)) + multiset(frames[k].results)
  {
    hide Held;
    var a, f, b := frames[..k], [frames[k]], frames[k + 1..];
    assert frames == a + f + b;
    HeldAppend(a + f, b);
    HeldAppend(a, f);
    HeldOne(frames[k]);
    HeldAppend(a, b);
    Shuffle(Held(a), multiset(frames[k].results), Held(b));
  }

  lemma RemoveUpdated(frames: seq<Frame>, k: nat, f: Frame)
    requires k < |frames|
    ensures RemoveAt(frames[k := f], k) == RemoveAt(frames, k)
  {
  }

  lemma HeldUpdate(frames: seq<Frame>, k: nat, f: Frame)
    requires k < |frames|
    ensures Held(frames[k := f]) == Held(RemoveAt(frames, k)) + multiset(f.results)
  {
    hide Held;
    HeldAt(frames[k := f], k);
    RemoveUpdated(frames, k, f);
  }

  lemma RemoveInsert(frames: seq<Frame>, k: nat, f: Frame)
    requires k <= |frames|
    ensures RemoveAt(InsertAt(frames, k, f), k) == frames && InsertAt(frames, k, f)[k] == f
  {
  }

  /** Adding an empty frame changes nothing that is held. */
  lemma InsertEmpty(frames: seq<Frame>, k: nat, f: Frame)
    requires k <= |frames| && f.results == []
    ensures Held(InsertAt(frames, k, f)) == Held(frames)
    ensures RemoveAt(InsertAt(frames, k, f), k) == frames && InsertAt(frames, k, f)[k] == f
  {
    hide Held, RemoveAt;
    RemoveInsert(frames, k, f);
    HeldAt(InsertAt(frames, k, f), k);
  }

  // ---- Every event ----------------------------------------------------------------------------------------

  lemma InsertAtIndex(frames: seq<Frame>, k: nat, f: Frame, i: nat)
    requires k <= |frames| && i <= |frames|
    ensures var s := InsertAt(frames, k, f);
      |s| == |frames| + 1 && s[i] == if i < k then frames[i] else if i == k then f else frames[i - 1]
  {
  }

  /** A frame no other is near goes in at its lower bound. */
  lemma InsertSpaced(frames: seq<Frame>, f: Frame)
    requires Spaced(frames) && forall i :: 0 <= i < |frames| ==> !Near(frames[i], f.timestamp)
    ensures var k := LowerBound(frames, f.timestamp); Spaced(InsertAt(frames, k, f))
  {
    hide LowerBound, InsertAt;
    LowerBoundSplits(frames, f.timestamp);
    var k := LowerBound(frames, f.timestamp);
    InsertAtIndex(frames, k, f, 0);
    var s := InsertAt(frames, k, f);
    forall i, j | 0 <= i < j < |s| ensures s[j].timestamp > s[i].timestamp + TIME_TOLERANCE {
      InsertAtIndex(frames, k, f, i);
      InsertAtIndex(frames, k, f, j);
      if j == k {
        assert !Near(frames[i], f.timestamp);
      } else if i == k {
        assert !Near(frames[j - 1], f.timestamp);
      }
    }
  }

  /** The entry for a result is near its time and everything else is as it was. */
  lemma EntryOk(frames: seq<Frame>, r: Result, now: int)
    requires Spaced(frames)
    ensures var (s, k) := Entry(frames, r, now);
      && Spaced(s) && Near(s[k], r.timestamp) && Held(s) == Held(frames)
      && (s == frames || (s[k] == NewFrame(r, now) && RemoveAt(s, k) == frames))
  {
    hide Spaced, Held, LowerBound, RemoveAt, InsertAt, FindFrame;
    FindFrameExact(frames, r.timestamp);
    if FindFrame(frames, r.timestamp).None? {
      var k, f := LowerBound(frames, r.timestamp), NewFrame(r, now);
      InsertEmpty(frames, k, f);
      InsertSpaced(frames, f);
    }
  }

  lemma OrLowBit(x: nat, b: nat)
    requires b <= 1
    ensures BitOr(2 * x, b) == 2 * x + b
  {
    OrZero(x);
  }

  /** The identity tells inputs apart, because `validate_header` bounds the beam. */
  lemma InputIdExact(a: Result, b: Result)
    requires Validated(a) && Validated(b)
    ensures InputId(a) == InputId(b) <==> SameInput(a, b)
  {
    OrLowBit(a.subband, a.beam);
    OrLowBit(b.subband, b.beam);
  }

  lemma SummedBelongs(f: Frame, r: Result)
    requires FrameOk(f) && Validated(r) && Near(f, r.timestamp) && Consistent(f, r) && InputId(r) !in f.inputs
    ensures Belong(f.results + [r], f.timestamp, f.start, f.exposure, f.noise)
  {
    hide InputId, Total;
    var rs := f.results + [r];
    forall i, j | 0 <= i < j < |rs| ensures !SameInput(rs[i], rs[j]) {
      if j == |f.results| {
        assert rs[i] == f.results[i];
        InputIdExact(f.results[i], r);
      }
    }
  }

  lemma SummedOk(f: Frame, r: Result)
    requires FrameOk(f) && Validated(r) && Near(f, r.timestamp) && Consistent(f, r) && InputId(r) !in f.inputs
    ensures FrameOk(Summed(f, r))
  {
    hide InputId, Belong;
    SummedBelongs(f, r);
    var g := Summed(f, r);
    assert g.results[..|g.results| - 1] == f.results;
    forall x | x in g.inputs ensures exists i :: 0 <= i < |g.results| && InputId(g.results[i]) == x {
      if x == InputId(r) {
        assert g.results[|f.results|] == r;
      } else {
        var i :| 0 <= i < |f.results| && InputId(f.results[i]) == x;
        assert g.results[i] == f.results[i];
      }
    }
  }

  lemma NewFrameOk(r: Result, now: int)
    ensures FrameOk(NewFrame(r, now)) && Consistent(NewFrame(r, now), r)
  {
  }

  lemma WrittenMore(rows: seq<Row>, row: Row)
    ensures Written(rows + [row]) == Written(rows) + multiset(row.results)
  {
    assert (rows + [row])[..|rows|] == rows;
  }

  lemma RemoveOk(frames: seq<Frame>, k: nat, n: nat)
    requires k < |frames| && Spaced(frames)
    requires forall i :: 0 <= i < |frames| && i != k ==> FrameOk(frames[i]) && 1 <= frames[i].received < n
    ensures Spaced(RemoveAt(frames, k)) && FramesOk(RemoveAt(frames, k), n)
  {
    hide FrameOk;
  }

  lemma ReplaceOk(frames: seq<Frame>, k: nat, f: Frame, n: nat)
    requires k < |frames| && Spaced(frames)
    requires forall i :: 0 <= i < |frames| && i != k ==> FrameOk(frames[i]) && 1 <= frames[i].received < n
    requires FrameOk(f) && 1 <= f.received < n && f.timestamp == frames[k].timestamp
    ensures Spaced(frames[k := f]) && FramesOk(frames[k := f], n)
  {
    hide FrameOk;
  }

  /** Everything but entry `k` is a frame that was there before. */
  lemma EntryFrames(a: Aggregator, r: Result, now: int, n: nat)
    requires Ok(a, n) && Validated(r) && n >= 1 && now >= a.clock
    ensures var (s, k) := Entry(a.frames, r, now);
      && (forall i :: 0 <= i < |s| && i != k ==> FrameOk(s[i]) && 1 <= s[i].received < n)
      && (forall i :: 0 <= i < |s| ==> a.lastCleanup - FRAME_TIMEOUT < s[i].created <= now)
      && FrameOk(s[k]) && s[k].received < n && (s[k].received == 0 ==> s[k] == NewFrame(r, now))
  {
    hide FrameOk, Spaced, Balanced, RowOk, LowerBound;
    NewFrameOk(r, now);
    var (s, k) := Entry(a.frames, r, now);
    if FindFrame(a.frames, r.timestamp).None? {
      forall i | 0 <= i < |s| ensures i == k || s[i] in a.frames { InsertAtIndex(a.frames, k, NewFrame(r, now), i); }
      InsertAtIndex(a.frames, k, NewFrame(r, now), k);
    }
  }

  /** What becomes of the results of the entry and of the new one. */
  lemma AccumulateBalanced(a: Aggregator, r: Result, now: int, n: nat)
    requires Ok(a, n)
    ensures Balanced(Accumulate(a, r, now, n))
  {
    hide FrameOk, FramesOk, RowOk, Entry, Held, Written, Consistent, InputId, RemoveAt;
    EntryOk(a.frames, r, now);
    var (s, k) := Entry(a.frames, r, now);
    HeldAt(s, k);
    HeldUpdate(s, k, Summed(s[k], r));
    WrittenMore(a.rows, RowOf(Summed(s[k], r)));
    assert multiset(s[k].results + [r]) == multiset(s[k].results) + multiset{r};
  }

  lemma AccumulateOk(a: Aggregator, r: Result, now: int, n: nat)
    requires Ok(a, n) && Validated(r) && n >= 1 && now >= a.clock
    ensures Ok(Accumulate(a, r, now, n), n)
  {
    hide FrameOk, Entry, Held, Written, Consistent, InputId, Balanced, Total, Spaced, FramesOk, RowOk;
    AccumulateBalanced(a, r, now, n);
    EntryOk(a.frames, r, now);
    EntryFrames(a, r, now, n);
    var (s, k) := Entry(a.frames, r, now);
    RemoveOk(s, k, n);
    NewFrameOk(r, now);
    if Consistent(s[k], r) {
      if InputId(r) in s[k].inputs {
        ReplaceOk(s, k, s[k], n);
        assert s[k := s[k]] == s;
      } else {
        SummedOk(s[k], r);
        FullRow(Summed(s[k], r), n);
        if s[k].received + 1 < n { ReplaceOk(s, k, Summed(s[k], r), n); }
      }
    }
  }

  /** The frame has already taken a result of the same subband and beam. */
  ghost predicate Has(f: Frame, r: Result) { exists i :: 0 <= i < |f.results| && SameInput(f.results[i], r) }

  lemma HasExact(f: Frame, r: Result)
    requires FrameOk(f) && Validated(r)
    ensures InputId(r) in f.inputs <==> Has(f, r)
  {
    hide InputId, SameInput, Total;
    forall i | 0 <= i < |f.results| ensures InputId(f.results[i]) == InputId(r) <==> SameInput(f.results[i], r) {
      InputIdExact(f.results[i], r);
    }
  }

  /** What a result does to the map and the rows, by cases of the entry found or made. */
  lemma AccumulateCases(a: Aggregator, r: Result, now: int, n: nat)
    ensures var (s, k) := Entry(a.frames, r, now); var b := Accumulate(a, r, now, n);
      && b.lastCleanup == a.lastCleanup
      && b.frames == (if !Consistent(s[k], r) then RemoveAt(s, k)
                      else if InputId(r) in s[k].inputs then s
                      else if s[k].received + 1 == n then RemoveAt(s, k)
                      else s[k := Summed(s[k], r)])
      && b.rows == (if Consistent(s[k], r) && InputId(r) !in s[k].inputs && s[k].received + 1 == n then
                      a.rows + [RowOf(Summed(s[k], r))]
                    else a.rows)
  {
    hide Entry, Consistent, InputId, RemoveAt;
  }

  /** At most a microsecond apart. */
  predicate Close(f: Frame, timestamp: nat) { -1000 <= f.timestamp - timestamp <= 1000 }

  lemma NearIsClose(f: Frame, timestamp: nat)
    ensures Near(f, timestamp) <==> Close(f, timestamp)
  {
  }

  /** The latest frame within a microsecond of the result's time, when there is one. */
  ghost predicate Latest(frames: seq<Frame>, r: Result, k: nat) {
    k < |frames| && Close(frames[k], r.timestamp) && forall i :: k < i < |frames| ==> !Close(frames[i], r.timestamp)
  }

  lemma FindsLatest(frames: seq<Frame>, r: Result, k: nat)
    requires Spaced(frames) && Latest(frames, r, k)
    ensures FindFrame(frames, r.timestamp) == Some(k)
  {
    hide FindFrame, Near, Close, Spaced;
    forall i | 0 <= i < |frames| ensures Near(frames[i], r.timestamp) <==> Close(frames[i], r.timestamp) {
      NearIsClose(frames[i], r.timestamp);
    }
    FindFrameExact(frames, r.timestamp);
  }

  /** Same start and noise state, and exposures at most a microsecond apart. */
  predicate Agrees(f: Frame, r: Result) {
    f.start == r.start && f.noise == r.noise && -0.000001 <= f.exposure - r.exposure <= 0.000001
  }

  lemma ConsistentIsAgreement(f: Frame, r: Result)
    ensures Consistent(f, r) <==> Agrees(f, r)
  {
  }

  /** What becomes of a result that meets a frame: a different start or noise state, or an exposure
      outside the tolerance, evicts the whole frame with it; the same input again is rejected alone;
      otherwise it is summed, its power added, and the frame is written exactly when that makes it
      complete, with the sum of the powers and the frame's own start, exposure and noise state. */
  lemma MeetsFrame(a: Aggregator, r: Result, now: int, n: nat, k: nat)
    requires Ok(a, n) && Validated(r) && Latest(a.frames, r, k)
    ensures var f, b := a.frames[k], Accumulate(a, r, now, n);
      && (!Agrees(f, r) ==> b.frames == RemoveAt(a.frames, k) && b.rows == a.rows)
      && (Agrees(f, r) && Has(f, r) ==> b.frames == a.frames && b.rows == a.rows)
      && (Agrees(f, r) && !Has(f, r) && |f.results| + 1 < n ==>
            && b.rows == a.rows && |b.frames| == |a.frames|
            && b.frames == a.frames[k := f.(power := f.power + r.power, results := f.results + [r],
                                            received := |f.results| + 1, inputs := f.inputs + {InputId(r)})])
      && (Agrees(f, r) && !Has(f, r) && |f.results| + 1 == n ==>
            && b.frames == RemoveAt(a.frames, k)
            && b.rows == a.rows + [Row(f.start, f.power + r.power, f.exposure, f.noise, f.timestamp, f.results + [r])])
  {
    hide Consistent, Agrees, InputId, LowerBound, RemoveAt, Balanced, Held, Written, Near, Close, Accumulate, Has,
      FindFrame, Belong;
    AccumulateCases(a, r, now, n);
    FindsLatest(a.frames, r, k);
    HasExact(a.frames[k], r);
    ConsistentIsAgreement(a.frames[k], r);
  }

  /** A result that meets no frame starts one, made now and holding it alone, or is a row by itself
      when one input is expected. */
  lemma MeetsNone(a: Aggregator, r: Result, now: int, n: nat)
    requires Ok(a, n) && Validated(r) && n >= 1 && forall i :: 0 <= i < |a.frames| ==> !Close(a.frames[i], r.timestamp)
    ensures var b := Accumulate(a, r, now, n);
      var f := Frame(r.timestamp, r.start, r.power, 1, {InputId(r)}, r.exposure, r.noise, now, [r]);
      && (n > 1 ==> b.rows == a.rows && exists k :: 0 <= k <= |a.frames| && b.frames == InsertAt(a.frames, k, f))
      && (n == 1 ==> b.frames == a.frames
                     && b.rows == a.rows + [Row(r.start, r.power, r.exposure, r.noise, r.timestamp, [r])])
  {
    hide InputId, Balanced, Held, Written, FrameOk, Accumulate, FramesOk, Consistent, InsertAt, RemoveAt, FindFrame,
      Near, Close, LowerBound;
    AccumulateCases(a, r, now, n);
    forall i | 0 <= i < |a.frames| ensures !Near(a.frames[i], r.timestamp) { NearIsClose(a.frames[i], r.timestamp); }
    FindFrameExact(a.frames, r.timestamp);
    NewFrameOk(r, now);
    var k, g := LowerBound(a.frames, r.timestamp), NewFrame(r, now);
    RemoveInsert(a.frames, k, g);
    InsertUpdated(a.frames, k, g, Summed(g, r));
    assert Summed(g, r) == Frame(r.timestamp, r.start, r.power, 1, {InputId(r)}, r.exposure, r.noise, now, [r]);
  }

  lemma InsertUpdated(frames: seq<Frame>, k: nat, f: Frame, g: Frame)
    requires k <= |frames|
    ensures k < |InsertAt(frames, k, f)| && InsertAt(frames, k, f)[k := g] == InsertAt(frames, k, g)
  {
  }

  lemma FullRow(f: Frame, n: nat)
    requires FrameOk(f)
    ensures f.received == n ==> RowOk(RowOf(f), n)
  {
  }

  lemma {:induction false} FreshMembers(frames: seq<Frame>, now: int)
    ensures var kept := Fresh(frames, now);
      && (forall f :: f in kept <==> f in frames && !Expired(f, now))
      && (kept != [] ==> frames != [])
    decreases |frames|
  {
    hide Expired;
    if frames != [] {
      FreshMembers(frames[..|frames| - 1], now);
      assert frames == frames[..|frames| - 1] + [frames[|frames| - 1]];
    }
  }

  lemma {:induction false} FreshHeld(frames: seq<Frame>, now: int)
    ensures Held(Fresh(frames, now)) <= Held(frames)
    decreases |frames|
  {
    hide Held, Expired;
    if frames != [] {
      var before, last := frames[..|frames| - 1], frames[|frames| - 1];
      FreshHeld(before, now);
      assert frames == before + [last];
      HeldAppend(before, [last]);
      HeldAppend(Fresh(before, now), [last]);
      assert Fresh(before, now) + [] == Fresh(before, now);
    } else {
      HeldNone();
    }
  }

  lemma {:induction false} FreshSpaced(frames: seq<Frame>, now: int)
    requires Spaced(frames)
    ensures Spaced(Fresh(frames, now))
    decreases |frames|
  {
    if frames != [] {
      var n := |frames| - 1;
      FreshSpaced(frames[..n], now);
      FreshMembers(frames[..n], now);
      forall i | 0 <= i < |Fresh(frames[..n], now)|
        ensures frames[n].timestamp > Fresh(frames[..n], now)[i].timestamp + TIME_TOLERANCE
      {
        assert Fresh(frames[..n], now)[i] in frames[..n];
      }
    }
  }

  /** The clean-up keeps exactly the frames that have not expired, in order. */
  lemma FreshKept(frames: seq<Frame>, now: int, n: nat)
    requires Spaced(frames) && FramesOk(frames, n)
    ensures var kept := Fresh(frames, now);
      && Spaced(kept) && FramesOk(kept, n) && Held(kept) <= Held(frames)
      && (forall f :: f in kept <==> f in frames && now - f.created < 5_000_000_000)
  {
    hide FrameOk, Fresh, Held;
    FreshMembers(frames, now);
    FreshHeld(frames, now);
    FreshSpaced(frames, now);
    assert forall i :: 0 <= i < |Fresh(frames, now)| ==> Fresh(frames, now)[i] in Fresh(frames, now);
  }

  lemma DiscardOk(a: Aggregator, now: int, n: nat)
    requires Ok(a, n) && now >= a.clock
    ensures Ok(Discard(a, now), n)
    ensures forall i :: 0 <= i < |Discard(a, now).frames| ==>
      now - Discard(a, now).frames[i].created < 6_000_000_000
  {
    hide FrameOk, RowOk, Held, Written, Fresh, Spaced, FramesOk;
    FreshKept(a.frames, now, n);
    var kept := Fresh(a.frames, now);
    assert forall i :: 0 <= i < |kept| ==> kept[i] in kept;
  }

  // ---- Every run --------------------------------------------------------------------------------------------

  /** One pass of the worker loop does one arrival, or none, and then the clean-up. */
  datatype Event = Arrival(result: Result, now: int) | Cleanup(now: int)

  function Handle(a: Aggregator, e: Event, n: nat): Aggregator {
    match e
    case Arrival(r, now) => Accumulate(a, r, now, n)
    case Cleanup(now) => Discard(a, now)
  }

  function Run(a: Aggregator, events: seq<Event>, n: nat): Aggregator
    decreases |events|
  {
    if events == [] then a else Handle(Run(a, events[..|events| - 1], n), events[|events| - 1], n)
  }

  /** The clock never goes back and only validated results arrive. */
  ghost predicate Legal(start: int, events: seq<Event>) {
    && (forall i :: 0 <= i < |events| ==>
          events[i].now >= start && (events[i].Arrival? ==> Validated(events[i].result)))
    && (forall i, j :: 0 <= i < j < |events| ==> events[i].now <= events[j].now)
  }

  function Arrived(events: seq<Event>): multiset<Result>
    decreases |events|
  {
    if events == [] then multiset{}
    else Arrived(events[..|events| - 1])
         + (if events[|events| - 1].Arrival? then multiset{events[|events| - 1].result} else multiset{})
  }

  /** Over every run, for any number of inputs: each result that arrived is in exactly one of the
      resident frames, the written rows, the duplicates, the inconsistent and the expired; each
      row is the sum of exactly `n` results that belong together; no frame is complete; and after
      every clean-up, however rarely it ran, every resident frame is younger than six seconds. */
  lemma {:induction false} RunOk(start: int, events: seq<Event>, n: nat)
    requires n >= 1 && Legal(start, events)
    ensures var a := Run(Start(start), events, n);
      && Ok(a, n) && a.accepted == Arrived(events)
      && a.clock == (if events == [] then start else events[|events| - 1].now)
      && (events != [] && events[|events| - 1].Cleanup? ==>
            forall i :: 0 <= i < |a.frames| ==> a.clock - a.frames[i].created < 6_000_000_000)
    decreases |events|
  {
    hide Spaced, FramesOk, RowOk, TimesOk, Balanced, Accumulate, Discard;
    if events == [] {
      StartOk(start, n);
    } else {
      var before := events[..|events| - 1];
      RunOk(start, before, n);
      var a := Run(Start(start), before, n);
      match events[|events| - 1]
      case Arrival(r, now) =>
        AccumulateOk(a, r, now, n);
        AccumulateFields(a, r, now, n);
      case Cleanup(now) =>
        DiscardOk(a, now, n);
        DiscardFields(a, now);
    }
  }

  lemma StartOk(start: int, n: nat)
    ensures Ok(Start(start), n)
  {
  }

  lemma AccumulateFields(a: Aggregator, r: Result, now: int, n: nat)
    ensures var b := Accumulate(a, r, now, n); b.clock == now && b.accepted == a.accepted + multiset{r}
  {
    hide Entry, Consistent, InputId;
  }

  lemma DiscardFields(a: Aggregator, now: int)
    ensures Discard(a, now).clock == now && Discard(a, now).accepted == a.accepted
  {
    hide Fresh, Held;
  }

  // ---- Five seconds -------------------------------------------------------------------------------------------

  ghost predicate Young(frames: seq<Frame>, now: int) {
    forall i :: 0 <= i < |frames| ==> now - frames[i].created < 5_000_000_000
  }

  /** Whatever happened before: a clean-up call at `now`, the last one that cleaned up having been
      at `last`, leaves only frames younger than the time-out. */
  ghost predicate AlwaysYoung(last: int, now: int, n: nat) {
    forall start: int, events: seq<Event> ::
      && Legal(start, events)
      && Run(Start(start), events, n).lastCleanup == last && Run(Start(start), events, n).clock <= now ==>
        Young(Discard(Run(Start(start), events, n), now).frames, now)
  }

  /** A result that makes a frame just before a clean-up that is a little too early for it. */
  function Lingering(last: int): seq<Event> {
    [Arrival(Result(0, 0, 0, 0, 1.0, 1.0, 0), last - FRAME_TIMEOUT + 1), Cleanup(last)]
  }

  lemma RunTwo(a: Aggregator, e0: Event, e1: Event, n: nat)
    ensures Run(a, [e0, e1], n) == Handle(Handle(a, e0, n), e1, n)
  {
    hide Handle;
    assert [e0, e1][..1] == [e0] && [e0][..0] == [];
    assert Run(a, [e0], n) == Handle(a, e0, n);
  }

  lemma FirstArrival(r: Result, start: int, n: nat)
    requires n >= 2
    ensures Accumulate(Start(start), r, start, n) ==
      Start(start).(frames := [Summed(NewFrame(r, start), r)], accepted := multiset{r})
  {
    hide InputId;
    assert InsertAt([], 0, NewFrame(r, start)) == [NewFrame(r, start)];
  }

  lemma FreshOne(f: Frame, now: int)
    requires !Expired(f, now)
    ensures Fresh([f], now) == [f]
  {
    hide Expired;
    assert [f][..0] == [];
  }

  /** The time-out the documentation promises fails: after this run and one more clean-up call
      within a second a frame is resident that is at least five seconds old. */
  lemma LingersPastTimeout(last: int, now: int, n: nat)
    requires n >= 2 && last < now < last + 1_000_000_000
    ensures var start := last - FRAME_TIMEOUT + 1; var a := Run(Start(start), Lingering(last), n);
      && Legal(start, Lingering(last)) && a.lastCleanup == last == a.clock
      && Discard(a, now).frames == a.frames && |a.frames| == 1 && now - a.frames[0].created >= 5_000_000_000
  {
    hide Fresh, Held, Accumulate, Run;
    var start, e := last - FRAME_TIMEOUT + 1, Lingering(last);
    var r := e[0].result;
    assert e == [e[0], e[1]];
    RunTwo(Start(start), e[0], e[1], n);
    FirstArrival(r, start, n);
    FreshOne(Summed(NewFrame(r, start), r), last);
  }

  /** When the five seconds hold: exactly when one input is expected (no frame ever waits), or the
      call really cleans up, or it is at the very instant of the last clean-up. */
  lemma FiveSecondsExact(last: int, now: int, n: nat)
    requires n >= 1
    ensures AlwaysYoung(last, now, n) <==> n == 1 || now <= last || now - last >= 1_000_000_000
  {
    hide Fresh, Held, Legal, Run, Spaced, FrameOk, RowOk, Balanced;
    if n == 1 || now <= last || now - last >= CLEANUP_INTERVAL {
      forall start: int, events: seq<Event> |
        && Legal(start, events)
        && Run(Start(start), events, n).lastCleanup == last && Run(Start(start), events, n).clock <= now
        ensures Young(Discard(Run(Start(start), events, n), now).frames, now)
      {
        RunOk(start, events, n);
        DiscardYoung(Run(Start(start), events, n), now, n);
      }
    } else {
      LingersPastTimeout(last, now, n);
      assert !Young(Discard(Run(Start(last - FRAME_TIMEOUT + 1), Lingering(last), n), now).frames, now);
    }
  }

  lemma DiscardYoung(a: Aggregator, now: int, n: nat)
    requires Ok(a, n) && a.clock <= now && (n == 1 || now <= a.lastCleanup || now - a.lastCleanup >= CLEANUP_INTERVAL)
    ensures Young(Discard(a, now).frames, now)
  {
    hide FrameOk, RowOk, Held, Fresh, Balanced;
    FreshKept(a.frames, now, n);
    var kept := Fresh(a.frames, now);
    assert forall i :: 0 <= i < |kept| ==> kept[i] in kept;
  }

  // ---- The worker's state ---------------------------------------------------------------------------------------

  lemma FreshStep(frames: seq<Frame>, now: int, k: nat)
    requires k < |frames|
    ensures Fresh(frames[..k + 1], now) ==
      Fresh(frames[..k], now) + (if Expired(frames[k], now) then [] else [frames[k]])
  {
    assert frames[..k + 1][..k] == frames[..k];
  }

  lemma EraseStep(all: seq<Frame>, kept: seq<Frame>, frames: seq<Frame>, seen: nat)
    requires seen <= |frames| && all == kept + frames[seen..] && |kept| < |all|
    ensures seen < |frames| && all[|kept|] == frames[seen] && RemoveAt(all, |kept|) == kept + frames[seen + 1..]
    ensures all == kept + [frames[seen]] + frames[seen + 1..] && kept + [] == kept
  {
  }

  /** `continuum_map` and `last_continuum_cleanup`, updated in place. */
  class ContinuumWorker {
    var continuumMap: seq<Frame>
    var lastContinuumCleanup: int
    const continuumInputs: nat
    ghost var ledger: Aggregator

    ghost predicate Valid()
      reads this
    {
      && continuumMap == ledger.frames && lastContinuumCleanup == ledger.lastCleanup
      && continuumInputs >= 1 && Ok(ledger, continuumInputs)
    }

    constructor (inputs: nat, now: int)
      requires 1 <= inputs <= 64
      ensures Valid() && ledger == Start(now) && continuumInputs == inputs
    {
      continuumMap, lastContinuumCleanup, continuumInputs := [], now, inputs;
      ledger := Start(now);
    }

    /** Finds the latest frame within tolerance, if there is one. */
    method FindContinuumFrame(timestamp: nat) returns (it: Option<nat>)
      requires Valid()
      ensures it.None? <==> forall i :: 0 <= i < |continuumMap| ==> !Near(continuumMap[i], timestamp)
      ensures it.Some? ==> it.value < |continuumMap| && Near(continuumMap[it.value], timestamp)
      ensures it.Some? ==> forall i :: it.value < i < |continuumMap| ==> !Near(continuumMap[i], timestamp)
      ensures it == FindFrame(continuumMap, timestamp)
    {
      hide FramesOk, RowOk, TimesOk, Balanced, LowerBound;
      FindFrameExact(continuumMap, timestamp);
      var lower := LowerBound(continuumMap, timestamp);
      if lower != |continuumMap| && Near(continuumMap[lower], timestamp) {
        return Some(lower);
      }
      if lower != 0 && Near(continuumMap[lower - 1], timestamp) {
        return Some(lower - 1);
      }
      it := None;
    }

    method AccumulateContinuum(result: Result, now: int)
      requires Valid() && Validated(result) && now >= ledger.clock
      modifies this
      ensures Valid() && ledger == Accumulate(old(ledger), result, now, continuumInputs)
    {
      hide Ok, LowerBound, Consistent, InputId, Held, Written, RemoveAt, InsertAt, NewFrame, FindFrame, Near, Validated,
        Accumulate;
      AccumulateOk(ledger, result, now, continuumInputs);
      AccumulateCases(ledger, result, now, continuumInputs);
      var inputId := InputId(result);
      var it := FindContinuumFrame(result.timestamp);
      var k: nat;
      if it.None? {
        k := LowerBound(continuumMap, result.timestamp);
        continuumMap := InsertAt(continuumMap, k, NewFrame(result, now));
      } else {
        k := it.value;
      }
      ledger := Accumulate(ledger, result, now, continuumInputs);
      var frame := continuumMap[k];
      if !Consistent(frame, result) {
        continuumMap := RemoveAt(continuumMap, k);
        return;
      }
      if inputId in frame.inputs {
        return;
      }
      frame := frame.(inputs := frame.inputs + {inputId}, results := frame.results + [result]);
      frame := frame.(power := frame.power + result.power);
      frame := frame.(received := frame.received + 1);
      RemoveUpdated(continuumMap, k, frame);
      continuumMap := continuumMap[k := frame];
      if frame.received == continuumInputs {
        // continuum_fits.write(frame)
        continuumMap := RemoveAt(continuumMap, k);
      }
    }

    /** Lines 522-533: erases the expired frames one by one. */
    method EraseExpired(now: int)
      modifies this`continuumMap
      ensures continuumMap == Fresh(old(continuumMap), now)
    {
      hide Fresh, Expired, RemoveAt;
      ghost var frames, seen := continuumMap, 0;
      NothingFresh(now);
      assert frames[..0] == [];
      var it := 0;
      while it != |continuumMap|
        invariant 0 <= seen <= |frames| && it == |Fresh(frames[..seen], now)|
        invariant continuumMap == Fresh(frames[..seen], now) + frames[seen..]
        decreases |frames| - seen
      {
        FreshStep(frames, now, seen);
        EraseStep(continuumMap, Fresh(frames[..seen], now), frames, seen);
        if Expired(continuumMap[it], now) {
          continuumMap := RemoveAt(continuumMap, it);
        } else {
          it := it + 1;
        }
        seen := seen + 1;
      }
      assert frames[seen..] == [] && frames[..seen] == frames;
    }

    /** After it, however long ago it last cleaned up, no frame is six seconds old. */
    method DiscardExpiredContinuumFrames(now: int)
      requires Valid() && now >= ledger.clock
      modifies this
      ensures Valid() && ledger == Discard(old(ledger), now)
      ensures forall i :: 0 <= i < |continuumMap| ==> now - continuumMap[i].created < 6_000_000_000
    {
      hide Ok, Held, Written, Fresh, Expired;
      DiscardOk(ledger, now, continuumInputs);
      if now - lastContinuumCleanup >= CLEANUP_INTERVAL {
        EraseExpired(now);
        lastContinuumCleanup := now;
      }
      ledger := Discard(ledger, now);
    }
  }

  lemma NothingFresh(now: int)
    ensures Fresh([], now) == []
  {
  }
}
