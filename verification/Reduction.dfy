/** The offline reduction of make_class_onoff.py over real numbers, with `None` for NaN and other
    non-finite values: integration, noise-diode calibration and NaN-aware smoothing. */
module Reduction {
  import opened Wrappers

  datatype Result<T> = Ok(value: T) | Err(message: string)

  type Spectrum = seq<Option<real>>

  datatype Pol = XX | YY

  /** A table row: a DATA cell of the wrong size, or the two receptors' channels with the columns
      EXPOSURE and NOISE (`None` when not a number) and the row's start and end time, if known. */
  datatype Row =
    | Malformed
    | Row(xx: Spectrum, yy: Spectrum, exposure: Option<real>, noise: Option<int>, times: Option<(real, real)>)

  /** The columns EXPOSURE and NOISE may be missing from a table altogether. */
  datatype Columns = Columns(nchan: nat, hasExposure: bool, hasNoise: bool)

  predicate Shaped(rows: seq<Row>, t: Columns) {
    forall i :: 0 <= i < |rows| && rows[i].Row? ==> |rows[i].xx| == |rows[i].yy| == t.nchan
  }

  // ---- Which rows count ---------------------------------------------------------------------

  function WeightOf(r: Row, t: Columns): Option<real> {
    if !t.hasExposure then Some(1.0)
    else if r.Row? && r.exposure.Some? && r.exposure.value > 0.0 then r.exposure
    else None
  }

  function StateOf(r: Row, t: Columns): Option<nat> {
    if !t.hasNoise then Some(0)
    else if r.Row? && r.noise.Some? && (r.noise.value == 0 || r.noise.value == 1) then Some(r.noise.value)
    else None
  }

  /** The row enters the average of diode state `state`. */
  predicate Used(r: Row, t: Columns, state: nat) {
    r.Row? && WeightOf(r, t).Some? && StateOf(r, t) == Some(state)
  }

  function Weight(r: Row, t: Columns): real { if WeightOf(r, t).Some? then WeightOf(r, t).value else 0.0 }

  function Value(r: Row, pol: Pol, c: nat): Option<real> {
    if r.Malformed? then None
    else
      var s := if pol == XX then r.xx else r.yy;
      if c < |s| then s[c] else None
  }

  /** The row adds to channel `c` of the average. */
  predicate Adds(r: Row, t: Columns, pol: Pol, state: nat, c: nat) { Used(r, t, state) && Value(r, pol, c).Some? }

  // ---- Sums over the rows -----------------------------------------------------------------------

  function Sum(rows: seq<Row>, t: Columns, pol: Pol, state: nat, c: nat): real {
    if rows == [] then 0.0
    else
      var r := rows[|rows| - 1];
      Sum(rows[..|rows| - 1], t, pol, state, c) + (if Adds(r, t, pol, state, c) then Value(r, pol, c).value else 0.0)
  }

  function TotalWeight(rows: seq<Row>, t: Columns, pol: Pol, state: nat, c: nat): real {
    if rows == [] then 0.0
    else
      var r := rows[|rows| - 1];
      TotalWeight(rows[..|rows| - 1], t, pol, state, c) + (if Adds(r, t, pol, state, c) then Weight(r, t) else 0.0)
  }

  function RowsUsed(rows: seq<Row>, t: Columns, state: nat): nat {
    if rows == [] then 0
    else RowsUsed(rows[..|rows| - 1], t, state) + (if Used(rows[|rows| - 1], t, state) then 1 else 0)
  }

  function Exposure(rows: seq<Row>, t: Columns, state: nat): real {
    if rows == [] then 0.0
    else Exposure(rows[..|rows| - 1], t, state)
         + (if Used(rows[|rows| - 1], t, state) then Weight(rows[|rows| - 1], t) else 0.0)
  }

  predicate Timed(r: Row, t: Columns) { Used(r, t, 0) && r.times.Some? }

  function SpanWith(before: Option<(real, real)>, r: Row, t: Columns): Option<(real, real)> {
    if !Timed(r, t) then before
    else if before.None? then r.times
    else Some((if r.times.value.0 < before.value.0 then r.times.value.0 else before.value.0,
               if r.times.value.1 > before.value.1 then r.times.value.1 else before.value.1))
  }

  /** `min` and `max` over the times of the rows with the diode off. */
  function Span(rows: seq<Row>, t: Columns): Option<(real, real)> {
    if rows == [] then None else SpanWith(Span(rows[..|rows| - 1], t), rows[|rows| - 1], t)
  }

  function Mean(rows: seq<Row>, t: Columns, pol: Pol, state: nat, c: nat): Option<real> {
    var w := TotalWeight(rows, t, pol, state, c);
    if w > 0.0 then Some(Sum(rows, t, pol, state, c) / w) else None
  }

  datatype Integrated = Integrated(
    xx: Spectrum, yy: Spectrum, calXX: Option<Spectrum>, calYY: Option<Spectrum>, span: Option<(real, real)>,
    rowsUsed: nat, exposure: Option<real>, calRowsUsed: nat, calExposure: Option<real>)

  function MeanSpectrum(rows: seq<Row>, t: Columns, pol: Pol, state: nat): (s: Spectrum)
    ensures |s| == t.nchan
  {
    seq(t.nchan, c requires 0 <= c < t.nchan => Mean(rows, t, pol, state, c))
  }

  /** What `integrate_sdfits` returns. */
  function Integration(rows: seq<Row>, t: Columns): Result<Integrated> {
    if RowsUsed(rows, t, 0) == 0 then Err("No valid spectra found")
    else Ok(Integrated(
      MeanSpectrum(rows, t, XX, 0), MeanSpectrum(rows, t, YY, 0),
      if RowsUsed(rows, t, 1) > 0 then Some(MeanSpectrum(rows, t, XX, 1)) else None,
      if RowsUsed(rows, t, 1) > 0 then Some(MeanSpectrum(rows, t, YY, 1)) else None,
      Span(rows, t), RowsUsed(rows, t, 0), if t.hasExposure then Some(Exposure(rows, t, 0)) else None,
      RowsUsed(rows, t, 1), if t.hasExposure then Some(Exposure(rows, t, 1)) else None))
  }

  // ---- Products and quotients, named to keep arithmetic out of the larger proofs ---------------------

  function Mul(a: real, b: real): real { a * b }

  function Div(a: real, b: real): real
    requires b > 0.0
  {
    a / b
  }

  function TotalOf(s: seq<real>): real { if s == [] then 0.0 else TotalOf(s[..|s| - 1]) + s[|s| - 1] }

  // ---- Integration told by the columns alone --------------------------------------------------------

  /** The row is well formed, its EXPOSURE, if the table has that column, is a positive number, and
      its NOISE is `state`, which is 0 when the table has no such column. */
  predicate Chooses(r: Row, t: Columns, state: nat) {
    && r.Row? && (t.hasExposure ==> r.exposure.Some? && r.exposure.value > 0.0)
    && (if t.hasNoise then r.noise.Some? && r.noise.value == state else state == 0)
  }

  /** The exposures of the rows with NOISE `state`, in order. */
  function Exposures(rows: seq<Row>, t: Columns, state: nat): seq<real> {
    if rows == [] then []
    else
      var r := rows[|rows| - 1];
      Exposures(rows[..|rows| - 1], t, state)
      + (if Chooses(r, t, state) then [if t.hasExposure then r.exposure.value else 1.0] else [])
  }

  /** What those rows hold in a channel, where finite, each with its exposure. */
  function Samples(rows: seq<Row>, t: Columns, pol: Pol, state: nat, c: nat): seq<(real, real)> {
    if rows == [] then []
    else
      var r := rows[|rows| - 1];
      Samples(rows[..|rows| - 1], t, pol, state, c) +
        if !Chooses(r, t, state) then []
        else
          var s := match pol case XX => r.xx case YY => r.yy;
          if c >= |s| || s[c].None? then [] else [(s[c].value, if t.hasExposure then r.exposure.value else 1.0)]
  }

  function Firsts(s: seq<(real, real)>): seq<real> { seq(|s|, i requires 0 <= i < |s| => s[i].0) }

  function Seconds(s: seq<(real, real)>): seq<real> { seq(|s|, i requires 0 <= i < |s| => s[i].1) }

  /** `m` is the sum of the samples divided by the sum of their exposures, NaN without samples. */
  ghost predicate Averages(m: Option<real>, s: seq<(real, real)>) {
    (m.Some? <==> s != []) && (m.Some? ==> m.value * TotalOf(Seconds(s)) == TotalOf(Firsts(s)))
  }

  /** The earliest start and the latest end of the rows with the diode off whose times are known. */
  ghost predicate Spans(span: Option<(real, real)>, rows: seq<Row>, t: Columns) {
    && (span.Some? <==> exists i :: 0 <= i < |rows| && Chooses(rows[i], t, 0) && rows[i].times.Some?)
    && (span.Some? ==>
          && (forall i :: 0 <= i < |rows| && Chooses(rows[i], t, 0) && rows[i].times.Some? ==>
                span.value.0 <= rows[i].times.value.0 && rows[i].times.value.1 <= span.value.1)
          && (exists i :: 0 <= i < |rows| && Chooses(rows[i], t, 0) && rows[i].times.Some?
                          && rows[i].times.value.0 == span.value.0)
          && (exists i :: 0 <= i < |rows| && Chooses(rows[i], t, 0) && rows[i].times.Some?
                          && rows[i].times.value.1 == span.value.1))
  }

  /** The average spectrum of one receptor and diode state. */
  ghost predicate AveragesAll(s: Spectrum, rows: seq<Row>, t: Columns, pol: Pol, state: nat) {
    |s| == t.nchan && forall c :: 0 <= c < t.nchan ==> Averages(s[c], Samples(rows, t, pol, state, c))
  }

  /** What the result of an integration says of the rows. */
  ghost predicate Reports(r: Result<Integrated>, rows: seq<Row>, t: Columns) {
    var off, on := Exposures(rows, t, 0), Exposures(rows, t, 1);
    && (r.Ok? <==> off != [])
    && (r.Ok? ==>
          var v := r.value;
          && AveragesAll(v.xx, rows, t, XX, 0) && AveragesAll(v.yy, rows, t, YY, 0)
          && v.rowsUsed == |off| && v.calRowsUsed == |on|
          && (v.calXX.Some? <==> on != []) && (v.calXX.Some? ==> AveragesAll(v.calXX.value, rows, t, XX, 1))
          && (v.calYY.Some? <==> on != []) && (v.calYY.Some? ==> AveragesAll(v.calYY.value, rows, t, YY, 1))
          && v.exposure == (if t.hasExposure then Some(TotalOf(off)) else None)
          && v.calExposure == (if t.hasExposure then Some(TotalOf(on)) else None)
          && Spans(v.span, rows, t))
  }

  /** Which rows enter the average of a diode state: exactly those of that NOISE with a positive
      finite exposure; a row of any other NOISE enters neither. */
  lemma UsedExact(r: Row, t: Columns, state: nat)
    requires state < 2
    ensures Used(r, t, state) <==> Chooses(r, t, state)
    ensures Used(r, t, state) ==> Weight(r, t) == if t.hasExposure then r.exposure.value else 1.0
  {
  }

  lemma ValueExact(r: Row, c: nat)
    ensures Value(r, XX, c) == if r.Row? && c < |r.xx| then r.xx[c] else None
    ensures Value(r, YY, c) == if r.Row? && c < |r.yy| then r.yy[c] else None
  {
  }

  lemma TotalSnoc(s: seq<real>, x: real)
    ensures TotalOf(s + [x]) == TotalOf(s) + x
  {
    assert (s + [x])[..|s|] == s;
  }

  lemma PairsSnoc(s: seq<(real, real)>, x: (real, real))
    ensures TotalOf(Firsts(s + [x])) == TotalOf(Firsts(s)) + x.0
    ensures TotalOf(Seconds(s + [x])) == TotalOf(Seconds(s)) + x.1
  {
    hide TotalOf;
    assert Firsts(s + [x]) == Firsts(s) + [x.0] && Seconds(s + [x]) == Seconds(s) + [x.1];
    TotalSnoc(Firsts(s), x.0);
    TotalSnoc(Seconds(s), x.1);
  }

  lemma {:induction false} SampleSums(rows: seq<Row>, t: Columns, pol: Pol, state: nat, c: nat)
    requires state < 2
    ensures var s := Samples(rows, t, pol, state, c);
      && Sum(rows, t, pol, state, c) == TotalOf(Firsts(s)) && TotalWeight(rows, t, pol, state, c) == TotalOf(Seconds(s))
      && (s != [] <==> exists i :: 0 <= i < |rows| && Adds(rows[i], t, pol, state, c))
    decreases |rows|
  {
    hide Used, Value, Weight, Chooses, Firsts, Seconds, TotalOf;
    if rows == [] {
      NoPairs();
    } else {
      var n, r := |rows| - 1, rows[|rows| - 1];
      SampleSums(rows[..n], t, pol, state, c);
      UsedExact(r, t, state);
      ValueExact(r, c);
      ChosenIsRow(r, t, state);
      var before := Samples(rows[..n], t, pol, state, c);
      if Adds(r, t, pol, state, c) {
        PairsSnoc(before, (Value(r, pol, c).value, Weight(r, t)));
      } else {
        assert Samples(rows, t, pol, state, c) == before;
        AddsBefore(rows[..n], r, t, pol, state, c);
        assert rows[..n] + [r] == rows;
      }
    }
  }

  lemma NoPairs()
    ensures TotalOf(Firsts([])) == 0.0 == TotalOf(Seconds([]))
  {
    assert Firsts([]) == [] && Seconds([]) == [];
  }

  lemma TotalNone()
    ensures TotalOf([]) == 0.0
  {
  }

  lemma ChosenIsRow(r: Row, t: Columns, state: nat)
    ensures Chooses(r, t, state) ==> r.Row?
  {
  }

  lemma AddsBefore(before: seq<Row>, r: Row, t: Columns, pol: Pol, state: nat, c: nat)
    requires !Adds(r, t, pol, state, c)
    ensures (exists i :: 0 <= i < |before + [r]| && Adds((before + [r])[i], t, pol, state, c)) <==>
      exists i :: 0 <= i < |before| && Adds(before[i], t, pol, state, c)
  {
    hide Adds;
    var rows := before + [r];
    assert forall i :: 0 <= i < |before| ==> rows[i] == before[i];
  }

  lemma MeanAverages(rows: seq<Row>, t: Columns, pol: Pol, state: nat, c: nat)
    requires state < 2
    ensures Averages(Mean(rows, t, pol, state, c), Samples(rows, t, pol, state, c))
  {
    hide Adds, Sum, TotalWeight, Samples, Firsts, Seconds, TotalOf;
    SampleSums(rows, t, pol, state, c);
    WeightPositive(rows, t, pol, state, c);
  }

  lemma {:induction false} ExposureSums(rows: seq<Row>, t: Columns, state: nat)
    requires state < 2
    ensures RowsUsed(rows, t, state) == |Exposures(rows, t, state)|
    ensures Exposure(rows, t, state) == TotalOf(Exposures(rows, t, state))
    decreases |rows|
  {
    hide Used, Weight, Chooses, TotalOf;
    if rows == [] {
      TotalNone();
    } else {
      var n, r := |rows| - 1, rows[|rows| - 1];
      ExposureSums(rows[..n], t, state);
      UsedExact(r, t, state);
      ChosenIsRow(r, t, state);
      if Used(r, t, state) {
        TotalSnoc(Exposures(rows[..n], t, state), Weight(r, t));
      } else {
        assert Exposures(rows, t, state) == Exposures(rows[..n], t, state);
      }
    }
  }

  lemma {:induction false} SpanExact(rows: seq<Row>, t: Columns)
    ensures Spans(Span(rows, t), rows, t)
    decreases |rows|
  {
    hide Used, Chooses;
    if rows != [] {
      var n, r := |rows| - 1, rows[|rows| - 1];
      SpanExact(rows[..n], t);
      UsedExact(r, t, 0);
      assert forall i :: 0 <= i < n ==> rows[..n][i] == rows[i];
    }
  }

  /** Integration, told by the columns alone. */
  lemma IntegrationExact(rows: seq<Row>, t: Columns)
    ensures Reports(Integration(rows, t), rows, t)
  {
    hide RowsUsed, Exposure, Exposures, Span, Spans, TotalOf, Mean, Averages, Samples;
    ExposureSums(rows, t, 0);
    ExposureSums(rows, t, 1);
    SpanExact(rows, t);
    forall pol, state: nat, c: nat | state < 2
      ensures Averages(Mean(rows, t, pol, state, c), Samples(rows, t, pol, state, c))
    {
      MeanAverages(rows, t, pol, state, c);
    }
  }

  // ---- What the averages mean -----------------------------------------------------------------------

  lemma {:induction false} WeightPositive(rows: seq<Row>, t: Columns, pol: Pol, state: nat, c: nat)
    ensures TotalWeight(rows, t, pol, state, c) >= 0.0
    ensures TotalWeight(rows, t, pol, state, c) > 0.0
      <==> exists i :: 0 <= i < |rows| && Adds(rows[i], t, pol, state, c)
    decreases |rows|
  {
    hide Used, Value, StateOf;
    if rows != [] {
      var n := |rows| - 1;
      WeightPositive(rows[..n], t, pol, state, c);
      WeightIsPositive(rows[n], t, state);
      if Adds(rows[n], t, pol, state, c) {
        assert TotalWeight(rows, t, pol, state, c) > 0.0;
      } else if exists i :: 0 <= i < |rows| && Adds(rows[i], t, pol, state, c) {
        var i :| 0 <= i < |rows| && Adds(rows[i], t, pol, state, c);
        assert rows[..n][i] == rows[i];
      } else {
        forall i | 0 <= i < n ensures !Adds(rows[..n][i], t, pol, state, c) { assert !Adds(rows[i], t, pol, state, c); }
      }
    }
  }

  lemma WeightIsPositive(r: Row, t: Columns, state: nat)
    ensures Used(r, t, state) ==> Weight(r, t) > 0.0
  {
  }

  /** A channel of an average is NaN exactly when no row that counts has a finite value there. */
  lemma MeanFiniteIff(rows: seq<Row>, t: Columns, pol: Pol, state: nat, c: nat)
    ensures Mean(rows, t, pol, state, c).Some? <==> exists i :: 0 <= i < |rows| && Adds(rows[i], t, pol, state, c)
  {
    hide Adds, Sum, TotalWeight;
    WeightPositive(rows, t, pol, state, c);
  }

  /** Every row that counts holds power `p` times its exposure. */
  ghost predicate SteadyPower(rows: seq<Row>, t: Columns, pol: Pol, state: nat, c: nat, p: real) {
    forall i :: 0 <= i < |rows| && Adds(rows[i], t, pol, state, c) ==>
      Value(rows[i], pol, c).value == Mul(p, Weight(rows[i], t))
  }

  lemma {:induction false} SumOfSteady(rows: seq<Row>, t: Columns, pol: Pol, state: nat, c: nat, p: real)
    requires SteadyPower(rows, t, pol, state, c, p)
    ensures Sum(rows, t, pol, state, c) == Mul(p, TotalWeight(rows, t, pol, state, c))
    decreases |rows|
  {
    hide Adds, Used, Value, StateOf, WeightOf, Weight, Mul;
    MulZero(p);
    if rows != [] {
      var n := |rows| - 1;
      assert forall i :: 0 <= i < n ==> rows[..n][i] == rows[i];
      SumOfSteady(rows[..n], t, pol, state, c, p);
      Distribute(p, TotalWeight(rows[..n], t, pol, state, c), Weight(rows[n], t));
    }
  }

  lemma Distribute(p: real, a: real, b: real)
    ensures Mul(p, a + b) == Mul(p, a) + Mul(p, b)
  {
  }

  lemma MulZero(x: real)
    ensures Mul(x, 0.0) == 0.0
  {
  }

  /** Integration over any rows, exposures and gaps recovers the power exactly. */
  lemma MeanOfSteady(rows: seq<Row>, t: Columns, pol: Pol, state: nat, c: nat, p: real)
    requires SteadyPower(rows, t, pol, state, c, p) && exists i :: 0 <= i < |rows| && Adds(rows[i], t, pol, state, c)
    ensures Mean(rows, t, pol, state, c) == Some(p)
  {
    hide Adds, Sum, TotalWeight;
    SumOfSteady(rows, t, pol, state, c, p);
    WeightPositive(rows, t, pol, state, c);
    Quotient(Sum(rows, t, pol, state, c), p, TotalWeight(rows, t, pol, state, c));
  }

  lemma Quotient(s: real, p: real, w: real)
    requires w > 0.0 && s == p * w
    ensures s / w == p
  {
  }

  // ---- The accumulation loop --------------------------------------------------------------------------

  /** `sum[state, valid] += values[valid]` and `weight[state, valid] += w`. */
  method AddChannels(sum: array2<real>, weight: array2<real>, state: nat, values: Spectrum, w: real)
    requires sum != weight && sum.Length0 == weight.Length0 == 2 && sum.Length1 == weight.Length1 == |values|
    requires state < 2
    modifies sum, weight
    ensures forall s, c :: 0 <= s < 2 && 0 <= c < |values| ==>
      sum[s, c] == old(sum[s, c]) + (if s == state && values[c].Some? then values[c].value else 0.0)
    ensures forall s, c :: 0 <= s < 2 && 0 <= c < |values| ==>
      weight[s, c] == old(weight[s, c]) + (if s == state && values[c].Some? then w else 0.0)
  {
    var k := 0;
    while k < |values|
      invariant 0 <= k <= |values|
      invariant forall s, c :: 0 <= s < 2 && 0 <= c < |values| ==>
        sum[s, c] == old(sum[s, c]) + (if c < k && s == state && values[c].Some? then values[c].value else 0.0)
      invariant forall s, c :: 0 <= s < 2 && 0 <= c < |values| ==>
        weight[s, c] == old(weight[s, c]) + (if c < k && s == state && values[c].Some? then w else 0.0)
    {
      if values[k].Some? {
        sum[state, k] := sum[state, k] + values[k].value;
        weight[state, k] := weight[state, k] + w;
      }
      k := k + 1;
    }
  }

  /** The sums of one receptor over the rows seen so far. */
  ghost predicate Holds(sum: array2<real>, weight: array2<real>, rows: seq<Row>, t: Columns, pol: Pol)
    reads sum, weight
  {
    && sum.Length0 == weight.Length0 == 2 && sum.Length1 == weight.Length1 == t.nchan
    && (forall s, c :: 0 <= s < 2 && 0 <= c < t.nchan ==> sum[s, c] == Sum(rows, t, pol, s, c))
    && (forall s, c :: 0 <= s < 2 && 0 <= c < t.nchan ==> weight[s, c] == TotalWeight(rows, t, pol, s, c))
  }

  lemma SumSnoc(rows: seq<Row>, k: nat, t: Columns, pol: Pol, state: nat, c: nat)
    requires k < |rows|
    ensures Sum(rows[..k + 1], t, pol, state, c) ==
      Sum(rows[..k], t, pol, state, c) + (if Adds(rows[k], t, pol, state, c) then Value(rows[k], pol, c).value else 0.0)
    ensures TotalWeight(rows[..k + 1], t, pol, state, c) ==
      TotalWeight(rows[..k], t, pol, state, c) + (if Adds(rows[k], t, pol, state, c) then Weight(rows[k], t) else 0.0)
  {
    assert rows[..k + 1][..k] == rows[..k];
  }

  lemma CountsSnoc(rows: seq<Row>, k: nat, t: Columns, state: nat)
    requires k < |rows|
    ensures RowsUsed(rows[..k + 1], t, state) ==
      RowsUsed(rows[..k], t, state) + (if Used(rows[k], t, state) then 1 else 0)
    ensures Exposure(rows[..k + 1], t, state) ==
      Exposure(rows[..k], t, state) + (if Used(rows[k], t, state) then Weight(rows[k], t) else 0.0)
  {
    assert rows[..k + 1][..k] == rows[..k];
  }

  lemma SpanSnoc(rows: seq<Row>, k: nat, t: Columns)
    requires k < |rows|
    ensures Span(rows[..k + 1], t) == SpanWith(Span(rows[..k], t), rows[k], t)
  {
    assert rows[..k + 1][..k] == rows[..k];
  }

  /** One receptor of one row. */
  method AddRow(
    sum: array2<real>, weight: array2<real>, rows: seq<Row>, k: nat, t: Columns, pol: Pol, state: nat, w: real)
    requires sum != weight && k < |rows| && Shaped(rows, t) && state < 2
    requires Used(rows[k], t, state) && w == Weight(rows[k], t) && Holds(sum, weight, rows[..k], t, pol)
    modifies sum, weight
    ensures Holds(sum, weight, rows[..k + 1], t, pol)
  {
    hide Used, Sum, TotalWeight;
    UsedIsRow(rows[k], t, state);
    var values := if pol == XX then rows[k].xx else rows[k].yy;
    AddChannels(sum, weight, state, values, w);
    forall s, c | 0 <= s < 2 && 0 <= c < t.nchan
      ensures sum[s, c] == Sum(rows[..k + 1], t, pol, s, c) && weight[s, c] == TotalWeight(rows[..k + 1], t, pol, s, c)
    {
      SumSnoc(rows, k, t, pol, s, c);
      OneState(rows[k], t, state, s);
    }
  }

  lemma UsedIsRow(r: Row, t: Columns, state: nat)
    requires Used(r, t, state)
    ensures r.Row?
  {
  }

  lemma OneState(r: Row, t: Columns, a: nat, b: nat)
    requires Used(r, t, a)
    ensures Used(r, t, b) <==> a == b
  {
  }

  /** A row that does not count changes no sum. */
  lemma SkipRow(rows: seq<Row>, k: nat, t: Columns)
    requires k < |rows| && !Used(rows[k], t, 0) && !Used(rows[k], t, 1)
    ensures forall pol, s, c :: s < 2 ==> Sum(rows[..k + 1], t, pol, s, c) == Sum(rows[..k], t, pol, s, c)
    ensures forall pol, s, c ::
      s < 2 ==> TotalWeight(rows[..k + 1], t, pol, s, c) == TotalWeight(rows[..k], t, pol, s, c)
    ensures forall s :: s < 2 ==> RowsUsed(rows[..k + 1], t, s) == RowsUsed(rows[..k], t, s)
    ensures forall s :: s < 2 ==> Exposure(rows[..k + 1], t, s) == Exposure(rows[..k], t, s)
    ensures Span(rows[..k + 1], t) == Span(rows[..k], t)
  {
    hide Used, Sum, TotalWeight, RowsUsed, Exposure, Span;
    forall pol, s: nat, c | s < 2
      ensures Sum(rows[..k + 1], t, pol, s, c) == Sum(rows[..k], t, pol, s, c)
      ensures TotalWeight(rows[..k + 1], t, pol, s, c) == TotalWeight(rows[..k], t, pol, s, c)
    {
      SumSnoc(rows, k, t, pol, s, c);
    }
    CountsSnoc(rows, k, t, 0);
    CountsSnoc(rows, k, t, 1);
    SpanSnoc(rows, k, t);
  }

  /** The counters beside the channel sums. */
  ghost predicate Counted(used: array<nat>, total: array<real>, span: Option<(real, real)>, rows: seq<Row>, t: Columns)
    reads used, total
  {
    && used.Length == 2 && total.Length == 2 && span == Span(rows, t)
    && used[0] == RowsUsed(rows, t, 0) && used[1] == RowsUsed(rows, t, 1)
    && total[0] == Exposure(rows, t, 0) && total[1] == Exposure(rows, t, 1)
  }

  method CountRow(used: array<nat>, total: array<real>, span: Option<(real, real)>, rows: seq<Row>, k: nat, t: Columns,
                  state: nat, w: real)
    returns (newSpan: Option<(real, real)>)
    requires k < |rows| && state < 2 && Used(rows[k], t, state) && w == Weight(rows[k], t)
    requires Counted(used, total, span, rows[..k], t)
    modifies used, total
    ensures Counted(used, total, newSpan, rows[..k + 1], t)
  {
    hide Used, RowsUsed, Exposure, Span;
    CountsSnoc(rows, k, t, 0);
    CountsSnoc(rows, k, t, 1);
    SpanSnoc(rows, k, t);
    OneState(rows[k], t, state, 0);
    OneState(rows[k], t, state, 1);
    UsedIsRow(rows[k], t, state);
    used[state] := used[state] + 1;
    total[state] := total[state] + w;
    newSpan := span;
    if state == 0 {
      var range := rows[k].times;
      if range.Some? {
        var (rowStart, rowEnd) := range.value;
        newSpan := if span.None? then range
                   else Some((if rowStart < span.value.0 then rowStart else span.value.0,
                              if rowEnd > span.value.1 then rowEnd else span.value.1));
      }
    }
  }

  /** `np.divide(sum, weight, where=weight > 0)` for one diode state. */
  method Divide(sum: array2<real>, weight: array2<real>, state: nat, ghost rows: seq<Row>, t: Columns, ghost pol: Pol)
    returns (mean: Spectrum)
    requires state < 2 && Holds(sum, weight, rows, t, pol)
    ensures mean == MeanSpectrum(rows, t, pol, state)
  {
    hide Sum, TotalWeight;
    mean := [];
    while |mean| < t.nchan
      invariant |mean| <= t.nchan && forall c :: 0 <= c < |mean| ==> mean[c] == Mean(rows, t, pol, state, c)
    {
      var c := |mean|;
      mean := mean + [if weight[state, c] > 0.0 then Some(sum[state, c] / weight[state, c]) else None];
    }
  }

  lemma SkipHolds(sum: array2<real>, weight: array2<real>, rows: seq<Row>, k: nat, t: Columns, pol: Pol)
    requires k < |rows| && !Used(rows[k], t, 0) && !Used(rows[k], t, 1) && Holds(sum, weight, rows[..k], t, pol)
    ensures Holds(sum, weight, rows[..k + 1], t, pol)
  {
    hide Used, Sum, TotalWeight;
    SkipRow(rows, k, t);
  }

  lemma SkipCounted(
    used: array<nat>, total: array<real>, span: Option<(real, real)>, rows: seq<Row>, k: nat, t: Columns)
    requires k < |rows| && !Used(rows[k], t, 0) && !Used(rows[k], t, 1) && Counted(used, total, span, rows[..k], t)
    ensures Counted(used, total, span, rows[..k + 1], t)
  {
    hide Used, RowsUsed, Exposure, Span;
    SkipRow(rows, k, t);
  }

  /** Lines 249-291: the row loop. */
  method Accumulate(rows: seq<Row>, t: Columns, xxSum: array2<real>, xxWeight: array2<real>, yySum: array2<real>,
                    yyWeight: array2<real>, rowsUsed: array<nat>, totalExposure: array<real>)
    returns (span: Option<(real, real)>)
    requires Shaped(rows, t) && xxSum != xxWeight && xxSum != yySum && xxSum != yyWeight
    requires xxWeight != yySum && xxWeight != yyWeight && yySum != yyWeight
    requires Holds(xxSum, xxWeight, [], t, XX) && Holds(yySum, yyWeight, [], t, YY)
    requires Counted(rowsUsed, totalExposure, None, [], t)
    modifies xxSum, xxWeight, yySum, yyWeight, rowsUsed, totalExposure
    ensures Holds(xxSum, xxWeight, rows, t, XX) && Holds(yySum, yyWeight, rows, t, YY)
    ensures Counted(rowsUsed, totalExposure, span, rows, t)
  {
    hide Holds, Counted, Used, WeightOf, StateOf, Weight;
    span := None;
    assert rows[..0] == [];
    var k := 0;
    while k < |rows|
      invariant 0 <= k <= |rows|
      invariant Holds(xxSum, xxWeight, rows[..k], t, XX) && Holds(yySum, yyWeight, rows[..k], t, YY)
      invariant Counted(rowsUsed, totalExposure, span, rows[..k], t)
    {
      var weight, state := WeightOf(rows[k], t), StateOf(rows[k], t);
      StateBound(rows[k], t);
      if rows[k].Row? && weight.Some? && state.Some? {
        AddRow(xxSum, xxWeight, rows, k, t, XX, state.value, weight.value);
        AddRow(yySum, yyWeight, rows, k, t, YY, state.value, weight.value);
        span := CountRow(rowsUsed, totalExposure, span, rows, k, t, state.value, weight.value);
      } else {
        SkipHolds(xxSum, xxWeight, rows, k, t, XX);
        SkipHolds(yySum, yyWeight, rows, k, t, YY);
        SkipCounted(rowsUsed, totalExposure, span, rows, k, t);
      }
      k := k + 1;
    }
    assert rows[..k] == rows;
  }

  method NewSums(t: Columns, ghost pol: Pol) returns (sum: array2<real>, weight: array2<real>)
    ensures fresh(sum) && fresh(weight) && sum != weight && Holds(sum, weight, [], t, pol)
  {
    sum, weight := new real[2, t.nchan]((s, c) => 0.0), new real[2, t.nchan]((s, c) => 0.0);
    NoRows(t);
  }

  /** Lines 238-316. */
  method IntegrateSdfits(rows: seq<Row>, t: Columns) returns (r: Result<Integrated>)
    requires Shaped(rows, t)
    ensures r == Integration(rows, t) && Reports(r, rows, t)
  {
    hide Holds, RowsUsed, Exposure, Span, Used, MeanSpectrum, Reports;
    IntegrationExact(rows, t);
    var xxSum, xxWeight := NewSums(t, XX);
    var yySum, yyWeight := NewSums(t, YY);
    var rowsUsed, totalExposure := new nat[2](_ => 0), new real[2](_ => 0.0);
    NoRows(t);
    var span := Accumulate(rows, t, xxSum, xxWeight, yySum, yyWeight, rowsUsed, totalExposure);
    if rowsUsed[0] == 0 {
      return Err("No valid spectra found");
    }
    var xx := Divide(xxSum, xxWeight, 0, rows, t, XX);
    var yy := Divide(yySum, yyWeight, 0, rows, t, YY);
    var calXX := Divide(xxSum, xxWeight, 1, rows, t, XX);
    var calYY := Divide(yySum, yyWeight, 1, rows, t, YY);
    r := Ok(Integrated(
      xx, yy, if rowsUsed[1] > 0 then Some(calXX) else None, if rowsUsed[1] > 0 then Some(calYY) else None,
      span, rowsUsed[0], if t.hasExposure then Some(totalExposure[0]) else None,
      rowsUsed[1], if t.hasExposure then Some(totalExposure[1]) else None));
  }

  lemma NoRows(t: Columns)
    ensures forall pol, s, c :: Sum([], t, pol, s, c) == 0.0 && TotalWeight([], t, pol, s, c) == 0.0
    ensures forall s :: RowsUsed([], t, s) == 0 && Exposure([], t, s) == 0.0
    ensures Span([], t) == None
  {
  }

  lemma StateBound(r: Row, t: Columns)
    ensures StateOf(r, t).Some? ==> StateOf(r, t).value < 2
    ensures r.Row? && WeightOf(r, t).Some? && StateOf(r, t).Some? <==> Used(r, t, 0) || Used(r, t, 1)
    ensures r.Row? && WeightOf(r, t).Some? && StateOf(r, t).Some? ==>
      Used(r, t, StateOf(r, t).value) && WeightOf(r, t) == Some(Weight(r, t))
  {
  }

  // ---- Calibration ------------------------------------------------------------------------------------

  function Ratio(on: Option<real>, off: Option<real>): Option<real> {
    if on.Some? && off.Some? && off.value > 0.0 then Some(Div(on.value - off.value, off.value)) else None
  }

  /** `on_off_ratio`. */
  function OnOffRatio(on: Spectrum, off: Spectrum): (r: Spectrum)
    requires |on| == |off|
    ensures |r| == |on|
  {
    seq(|on|, c requires 0 <= c < |on| => Ratio(on[c], off[c]))
  }

  function SystemTemperature(calOff: Option<real>, calOn: Option<real>, tcal: real): Option<real> {
    if calOff.Some? && calOn.Some? && calOff.value > 0.0 && calOn.value - calOff.value > 0.0 then
      Some(Div(Mul(tcal, calOff.value), calOn.value - calOff.value))
    else None
  }

  /** `diode_system_temperature`: an error without NOISE=1 rows or a usable Tcal. */
  function DiodeSystemTemperature(calOff: Spectrum, calOn: Option<Spectrum>, tcal: Option<real>): (r: Result<Spectrum>)
    requires calOn.Some? ==> |calOn.value| == |calOff|
    ensures r.Ok? ==> |r.value| == |calOff|
    ensures r.Ok? <==> calOn.Some? && tcal.Some? && tcal.value > 0.0
  {
    if calOn.None? then Err("no NOISE=1 rows were found")
    else if tcal.None? || tcal.value <= 0.0 then Err("Tcal must be finite and positive")
    else Ok(seq(|calOff|, c requires 0 <= c < |calOff| => SystemTemperature(calOff[c], calOn.value[c], tcal.value)))
  }

  function Product(a: Option<real>, b: Option<real>): Option<real> {
    if a.Some? && b.Some? then Some(Mul(a.value, b.value)) else None
  }

  function Times(a: Spectrum, b: Spectrum): (r: Spectrum)
    requires |a| == |b|
    ensures |r| == |a|
  {
    seq(|a|, c requires 0 <= c < |a| => Product(a[c], b[c]))
  }

  /** The mean of the two receptors, where both are finite. */
  function Average(a: Spectrum, b: Spectrum): (r: Spectrum)
    requires |a| == |b|
    ensures |r| == |a|
  {
    seq(|a|, c requires 0 <= c < |a| =>
      if a[c].Some? && b[c].Some? then Some(0.5 * (a[c].value + b[c].value)) else None)
  }

  predicate Matching(on: Integrated, off: Integrated) {
    && |on.xx| == |on.yy| == |off.xx| == |off.yy|
    && (off.calXX.Some? ==> |off.calXX.value| == |off.xx|) && (off.calYY.Some? ==> |off.calYY.value| == |off.yy|)
  }

  datatype Selection = SelectXX | SelectYY | StokesI

  /** One receptor of `noise_diode_temperature`: the antenna and the system temperature. A Tcal not
      given at all is `None`; one given but not finite is `Some(None)`. */
  function Receptor(
    on: Spectrum, off: Spectrum, calOff: Option<Spectrum>, tcal: Option<Option<real>>
  ): (r: Result<(Spectrum, Spectrum)>)
    requires |on| == |off| && (calOff.Some? ==> |calOff.value| == |off|)
    ensures r.Ok? ==> |r.value.0| == |r.value.1| == |on|
  {
    if tcal.None? then Err("calibration requires Tcal")
    else
      match DiodeSystemTemperature(off, calOff, tcal.value)
      case Err(e) => Err(e)
      case Ok(tsys) => Ok((Times(OnOffRatio(on, off), tsys), tsys))
  }

  function NoiseDiodeTemperature(
    on: Integrated, off: Integrated, selection: Selection, tcalXX: Option<Option<real>>, tcalYY: Option<Option<real>>
  ): Result<(Spectrum, Spectrum)>
    requires Matching(on, off)
  {
    match selection
    case SelectXX => Receptor(on.xx, off.xx, off.calXX, tcalXX)
    case SelectYY => Receptor(on.yy, off.yy, off.calYY, tcalYY)
    case StokesI =>
      match (Receptor(on.xx, off.xx, off.calXX, tcalXX), Receptor(on.yy, off.yy, off.calYY, tcalYY))
      case (Ok(x), Ok(y)) => Ok((Average(x.0, y.0), Average(x.1, y.1)))
      case (Err(e), _) => Err(e)
      case (Ok(_), Err(e)) => Err(e)
  }

  // ---- Exactness -----------------------------------------------------------------------------------------

  /** What one receptor measures in a channel: gain, system, diode and source temperature. */
  datatype Sky = Sky(gain: real, tsys: real, tcal: real, source: real)

  predicate Physical(k: Sky) { k.gain > 0.0 && k.tsys > 0.0 && k.tcal > 0.0 }

  function Power(k: Sky, diode: nat, onSource: bool): real {
    k.gain * (k.tsys + (if diode == 1 then k.tcal else 0.0) + (if onSource then k.source else 0.0))
  }

  /** The channel of the row is finite. */
  predicate FiniteAt(r: Row, pol: Pol, c: nat)
    requires r.Row?
  {
    var s := match pol case XX => r.xx case YY => r.yy;
    c < |s| && s[c].Some?
  }

  /** Where finite, the channel holds `p` times the exposure of the row. */
  predicate Accumulates(r: Row, t: Columns, pol: Pol, c: nat, p: real)
    requires r.Row? && (t.hasExposure ==> r.exposure.Some?)
  {
    var s := match pol case XX => r.xx case YY => r.yy;
    c < |s| && s[c].Some? ==> s[c].value == p * if t.hasExposure then r.exposure.value else 1.0
  }

  /** Every row with a positive exposure holds gain x (Tsys + source) x exposure when its NOISE is 0
      and gain x (Tsys + Tcal + source) x exposure when it is 1, or a gap. */
  ghost predicate Measures(rows: seq<Row>, t: Columns, pol: Pol, c: nat, k: Sky, onSource: bool) {
    forall i :: 0 <= i < |rows| ==>
      && (Chooses(rows[i], t, 0) ==> Accumulates(rows[i], t, pol, c, Power(k, 0, onSource)))
      && (Chooses(rows[i], t, 1) ==> Accumulates(rows[i], t, pol, c, Power(k, 1, onSource)))
  }

  /** Some row of that NOISE, with a positive exposure, is finite in the channel. */
  ghost predicate Seen(rows: seq<Row>, t: Columns, pol: Pol, state: nat, c: nat) {
    exists i :: 0 <= i < |rows| && Chooses(rows[i], t, state) && FiniteAt(rows[i], pol, c)
  }

  /** The hypotheses on the columns, told by the rows the code averages. */
  lemma SeenAdds(rows: seq<Row>, t: Columns, pol: Pol, state: nat, c: nat)
    requires state < 2 && Seen(rows, t, pol, state, c)
    ensures exists i :: 0 <= i < |rows| && Adds(rows[i], t, pol, state, c)
  {
    hide Used, Value;
    var i :| 0 <= i < |rows| && Chooses(rows[i], t, state) && FiniteAt(rows[i], pol, c);
    UsedExact(rows[i], t, state);
    ValueExact(rows[i], c);
    assert Adds(rows[i], t, pol, state, c);
  }

  lemma MeasuresSteady(rows: seq<Row>, t: Columns, pol: Pol, c: nat, k: Sky, onSource: bool)
    requires Measures(rows, t, pol, c, k, onSource)
    ensures SteadyPower(rows, t, pol, 0, c, Power(k, 0, onSource))
    ensures SteadyPower(rows, t, pol, 1, c, Power(k, 1, onSource))
  {
    hide Used, Value, Weight, Power;
    forall i | 0 <= i < |rows|
      ensures Adds(rows[i], t, pol, 0, c) ==>
                Value(rows[i], pol, c).value == Mul(Power(k, 0, onSource), Weight(rows[i], t))
      ensures Adds(rows[i], t, pol, 1, c) ==>
                Value(rows[i], pol, c).value == Mul(Power(k, 1, onSource), Weight(rows[i], t))
    {
      UsedExact(rows[i], t, 0);
      UsedExact(rows[i], t, 1);
      ValueExact(rows[i], c);
    }
  }

  lemma Positive(a: real, b: real)
    requires a > 0.0 && b > 0.0
    ensures a * b > 0.0
  {
  }

  lemma Fraction(g: real, ta: real, tsys: real)
    requires tsys > 0.0
    ensures g * ta == (ta / tsys) * (g * tsys)
  {
    assert ta / tsys * tsys == ta;
  }

  /** One receptor, one channel: whatever the numbers of rows, their exposures, order and gaps, the
      antenna temperature comes out exactly as the source's, and the system temperature exactly. */
  lemma ReceptorExact(on: seq<Row>, off: seq<Row>, t: Columns, pol: Pol, c: nat, k: Sky)
    requires c < t.nchan && Physical(k) && Measures(on, t, pol, c, k, true) && Measures(off, t, pol, c, k, false)
    requires Seen(on, t, pol, 0, c) && Seen(off, t, pol, 0, c) && Seen(off, t, pol, 1, c)
    ensures var r := Receptor(MeanSpectrum(on, t, pol, 0), MeanSpectrum(off, t, pol, 0),
                              Some(MeanSpectrum(off, t, pol, 1)), Some(Some(k.tcal)));
      r.Ok? && r.value.0[c] == Some(k.source) && r.value.1[c] == Some(k.tsys)
  {
    hide SteadyPower, Adds, Mean, Power, Measures, Seen;
    MeasuresSteady(on, t, pol, c, k, true);
    MeasuresSteady(off, t, pol, c, k, false);
    SeenAdds(on, t, pol, 0, c);
    SeenAdds(off, t, pol, 0, c);
    SeenAdds(off, t, pol, 1, c);
    MeanOfSteady(on, t, pol, 0, c, Power(k, 0, true));
    MeanOfSteady(off, t, pol, 0, c, Power(k, 0, false));
    MeanOfSteady(off, t, pol, 1, c, Power(k, 1, false));
    PowerAlgebra(k);
    var a, b, d := MeanSpectrum(on, t, pol, 0), MeanSpectrum(off, t, pol, 0), MeanSpectrum(off, t, pol, 1);
    assert a[c] == Some(Power(k, 0, true)) && b[c] == Some(Power(k, 0, false)) && d[c] == Some(Power(k, 1, false));
    ChannelOf(a, b, d, k.tcal, c);
  }

  /** Calibration works channel by channel. */
  lemma ChannelOf(on: Spectrum, off: Spectrum, cal: Spectrum, tcal: real, c: nat)
    requires c < |on| == |off| == |cal| && tcal > 0.0
    ensures var r := Receptor(on, off, Some(cal), Some(Some(tcal)));
      && r.Ok? && r.value.1[c] == SystemTemperature(off[c], cal[c], tcal)
      && r.value.0[c] == Product(Ratio(on[c], off[c]), SystemTemperature(off[c], cal[c], tcal))
  {
    hide Product, Ratio, SystemTemperature;
  }

  /** Which channels of one receptor come out finite: the system temperature where both diode
      states are, the off power is positive and the diode raises it; the antenna temperature where
      the on power is finite as well. */
  lemma CalibratedIff(on: Spectrum, off: Spectrum, cal: Spectrum, tcal: real, c: nat)
    requires c < |on| == |off| == |cal| && tcal > 0.0
    ensures var r := Receptor(on, off, Some(cal), Some(Some(tcal)));
      && r.Ok?
      && (r.value.1[c].Some? <==> off[c].Some? && cal[c].Some? && 0.0 < off[c].value < cal[c].value)
      && (r.value.0[c].Some? <==> on[c].Some? && r.value.1[c].Some?)
  {
    ChannelOf(on, off, cal, tcal, c);
  }

  /** `given` and, where so, finite and positive. */
  predicate Usable(tcal: Option<Option<real>>) { tcal.Some? && tcal.value.Some? && tcal.value.value > 0.0 }

  /** Which calibrations are refused, and how the two receptors combine: Stokes I is finite where
      both are, and their mean there. */
  lemma SelectionExact(
    on: Integrated, off: Integrated, tcalXX: Option<Option<real>>, tcalYY: Option<Option<real>>, c: nat)
    requires Matching(on, off) && c < |on.xx|
    ensures var rx := NoiseDiodeTemperature(on, off, SelectXX, tcalXX, tcalYY);
      var ry := NoiseDiodeTemperature(on, off, SelectYY, tcalXX, tcalYY);
      var ri := NoiseDiodeTemperature(on, off, StokesI, tcalXX, tcalYY);
      && (rx.Ok? <==> off.calXX.Some? && Usable(tcalXX)) && (ry.Ok? <==> off.calYY.Some? && Usable(tcalYY))
      && (ri.Ok? <==> rx.Ok? && ry.Ok?)
      && (ri.Ok? ==>
            var x, y, i := rx.value, ry.value, ri.value;
            && (i.0[c].Some? <==> x.0[c].Some? && y.0[c].Some?)
            && (i.0[c].Some? ==> i.0[c].value == 0.5 * (x.0[c].value + y.0[c].value))
            && (i.1[c].Some? <==> x.1[c].Some? && y.1[c].Some?)
            && (i.1[c].Some? ==> i.1[c].value == 0.5 * (x.1[c].value + y.1[c].value)))
  {
    hide OnOffRatio, Times, SystemTemperature;
  }

  lemma Calibrated(pOff: real, pOn: real, pCal: real, tcal: real, ta: real, tsys: real)
    requires pOff > 0.0 && pCal - pOff > 0.0 && tsys > 0.0
    requires tcal * pOff == tsys * (pCal - pOff) && pOn - pOff == ta / tsys * pOff
    ensures SystemTemperature(Some(pOff), Some(pCal), tcal) == Some(tsys)
    ensures Product(Ratio(Some(pOn), Some(pOff)), Some(tsys)) == Some(ta)
  {
    Quotient(tcal * pOff, tsys, pCal - pOff);
    Quotient(pOn - pOff, ta / tsys, pOff);
    assert Div(Mul(tcal, pOff), pCal - pOff) == tsys && Div(pOn - pOff, pOff) == ta / tsys;
    assert Mul(ta / tsys, tsys) == ta;
  }

  lemma PowerAlgebra(k: Sky)
    requires Physical(k)
    ensures var pOff, pOn, pCal := Power(k, 0, false), Power(k, 0, true), Power(k, 1, false);
      && Product(Ratio(Some(pOn), Some(pOff)), SystemTemperature(Some(pOff), Some(pCal), k.tcal)) == Some(k.source)
      && SystemTemperature(Some(pOff), Some(pCal), k.tcal) == Some(k.tsys)
  {
    hide Product, Ratio, SystemTemperature;
    var g, pOff, pOn, pCal := k.gain, Power(k, 0, false), Power(k, 0, true), Power(k, 1, false);
    Spread(g, k.tsys, k.source);
    Spread(g, k.tsys, k.tcal);
    assert pOff == g * k.tsys && pCal - pOff == g * k.tcal && pOn - pOff == g * k.source;
    Positive(g, k.tsys);
    Positive(g, k.tcal);
    Commute(k.tcal, g, k.tsys);
    Fraction(g, k.source, k.tsys);
    Calibrated(pOff, pOn, pCal, k.tcal, k.source, k.tsys);
  }

  lemma Spread(g: real, a: real, b: real)
    ensures g * (a + b) == g * a + g * b
  {
  }

  lemma Commute(a: real, g: real, b: real)
    ensures a * (g * b) == b * (g * a)
  {
  }

  /** A scan whose two receptors measure `x` and `y` in channel `c`, each state seen. */
  ghost predicate Scanned(on: seq<Row>, off: seq<Row>, t: Columns, pol: Pol, c: nat, k: Sky) {
    && Physical(k) && Measures(on, t, pol, c, k, true) && Measures(off, t, pol, c, k, false)
    && Seen(on, t, pol, 0, c) && Seen(off, t, pol, 0, c) && Seen(off, t, pol, 1, c)
  }

  lemma {:induction false} AddsUsed(rows: seq<Row>, t: Columns, pol: Pol, state: nat, c: nat)
    requires exists i :: 0 <= i < |rows| && Adds(rows[i], t, pol, state, c)
    ensures RowsUsed(rows, t, state) > 0
    decreases |rows|
  {
    hide Used, Value;
    var i :| 0 <= i < |rows| && Adds(rows[i], t, pol, state, c);
    if i < |rows| - 1 {
      assert rows[..|rows| - 1][i] == rows[i];
      AddsUsed(rows[..|rows| - 1], t, pol, state, c);
    }
  }

  lemma SeenUsed(rows: seq<Row>, t: Columns, pol: Pol, state: nat, c: nat)
    requires state < 2 && Seen(rows, t, pol, state, c)
    ensures RowsUsed(rows, t, state) > 0
  {
    hide Adds, Seen;
    SeenAdds(rows, t, pol, state, c);
    AddsUsed(rows, t, pol, state, c);
  }

  /** From the tables to the calibrated spectrum: in every channel where both receptors were seen
      in every state, the reduction returns exactly the source's temperature for one receptor, and
      the mean of the two for Stokes I. */
  lemma ReductionExact(on: seq<Row>, off: seq<Row>, t: Columns, c: nat, x: Sky, y: Sky)
    requires c < t.nchan && Scanned(on, off, t, XX, c, x) && Scanned(on, off, t, YY, c, y)
    ensures Integration(on, t).Ok? && Integration(off, t).Ok?
    ensures var a, b := Integration(on, t).value, Integration(off, t).value;
      && Matching(a, b)
      && var rx := NoiseDiodeTemperature(a, b, SelectXX, Some(Some(x.tcal)), None);
         var ry := NoiseDiodeTemperature(a, b, SelectYY, None, Some(Some(y.tcal)));
         var ri := NoiseDiodeTemperature(a, b, StokesI, Some(Some(x.tcal)), Some(Some(y.tcal)));
         && rx.Ok? && rx.value.0[c] == Some(x.source) && rx.value.1[c] == Some(x.tsys)
         && ry.Ok? && ry.value.0[c] == Some(y.source) && ry.value.1[c] == Some(y.tsys)
         && ri.Ok? && ri.value.0[c] == Some(0.5 * (x.source + y.source))
         && ri.value.1[c] == Some(0.5 * (x.tsys + y.tsys))
  {
    hide Measures, Seen, MeanSpectrum, OnOffRatio, Times, RowsUsed, Exposure, Span, DiodeSystemTemperature;
    ReceptorExact(on, off, t, XX, c, x);
    ReceptorExact(on, off, t, YY, c, y);
    SeenUsed(on, t, XX, 0, c);
    SeenUsed(off, t, XX, 0, c);
    SeenUsed(off, t, XX, 1, c);
  }

  // ---- Smoothing -------------------------------------------------------------------------------------------

  /** The methods of `smoothing_kernel`; the values of the Gaussian are a parameter. */
  datatype Method = NoSmoothing | Hanning | Boxcar(width: int) | Gaussian(values: seq<real>)

  function Kernel(m: Method): Result<seq<real>> {
    match m
    case NoSmoothing => Ok([1.0])
    case Hanning => Ok([0.25, 0.5, 0.25])
    case Boxcar(width) =>
      if width < 1 || width % 2 == 0 then Err("--smooth-width must be a positive odd integer")
      else Ok(seq(width, i => 1.0 / width as real))
    case Gaussian(values) => Ok(values)
  }

  /** Positive, symmetric, normalised, of odd length. */
  predicate Proper(k: seq<real>) {
    && |k| % 2 == 1 && (forall i :: 0 <= i < |k| ==> k[i] > 0.0) && TotalOf(k) == 1.0
    && (forall i :: 0 <= i < |k| ==> k[i] == k[|k| - 1 - i])
  }

  lemma {:induction false} TotalOfEqual(n: nat, x: real)
    ensures TotalOf(seq(n, i => x)) == n as real * x
    decreases n
  {
    if n > 0 {
      assert seq(n, i => x)[..n - 1] == seq(n - 1, i => x);
      TotalOfEqual(n - 1, x);
    }
  }

  lemma HanningProper()
    ensures Proper([0.25, 0.5, 0.25]) && Proper([1.0])
  {
    assert [0.25, 0.5, 0.25][..2] == [0.25, 0.5] && [0.25, 0.5][..1] == [0.25] && [0.25][..0] == [] && [1.0][..0] == [];
    assert TotalOf([0.25]) == 0.25 && TotalOf([0.25, 0.5]) == 0.75;
  }

  lemma BoxcarProper(width: nat)
    requires width % 2 == 1
    ensures Proper(seq(width, i => 1.0 / width as real))
  {
    var x := 1.0 / width as real;
    TotalOfEqual(width, x);
    assert width as real * x == 1.0;
    assert seq(width, i => 1.0 / width as real) == seq(width, i => x);
  }

  lemma KernelsProper(m: Method)
    requires m.Gaussian? ==> Proper(m.values)
    ensures Kernel(m).Ok? <==> (m.Boxcar? ==> m.width >= 1 && m.width % 2 == 1)
    ensures Kernel(m).Ok? ==> Proper(Kernel(m).value)
  {
    hide Proper;
    HanningProper();
    if m.Boxcar? && m.width >= 1 && m.width % 2 == 1 { BoxcarProper(m.width); }
  }

  /** `values[i]` where finite, 0 elsewhere and outside the spectrum. */
  function Filled(values: Spectrum, i: int): real {
    if 0 <= i < |values| && values[i].Some? then values[i].value else 0.0
  }

  function Finite(values: Spectrum, i: int): real { if 0 <= i < |values| && values[i].Some? then 1.0 else 0.0 }

  /** The first `n` terms of `np.convolve(.., mode="same")` at channel `i`, for odd kernel lengths. */
  function Convolved(values: Spectrum, k: seq<real>, i: int, n: nat, ones: bool): real
    requires n <= |k|
  {
    if n == 0 then 0.0
    else
      var j := i + |k| / 2 - (n - 1);
      Convolved(values, k, i, n - 1, ones) + Mul(k[n - 1], if ones then Finite(values, j) else Filled(values, j))
  }

  function Smoothed(values: Spectrum, k: seq<real>, i: int): Option<real> {
    var denominator := Convolved(values, k, i, |k|, true);
    if denominator > 0.0 then Some(Div(Convolved(values, k, i, |k|, false), denominator)) else None
  }

  /** `smooth_spectrum`. A kernel of one channel leaves the spectrum as it is. */
  function Smooth(values: Spectrum, m: Method): Result<Spectrum> {
    match Kernel(m)
    case Err(e) => Err(e)
    case Ok(k) =>
      if |k| == 1 then Ok(values)
      else if |k| > |values| then Err("Smoothing kernel is longer than the spectrum")
      else Ok(seq(|values|, i requires 0 <= i < |values| => Smoothed(values, k, i)))
  }

  /** Channel `j` is finite and in the kernel window of channel `i`. */
  predicate InWindow(values: Spectrum, k: seq<real>, i: int, j: int) {
    0 <= j < |values| && i - |k| / 2 <= j <= i + |k| / 2 && values[j].Some?
  }

  /** Among the first `n` kernel entries. */
  predicate Reached(values: Spectrum, k: seq<real>, i: int, n: nat, j: int) {
    0 <= j < |values| && i + |k| / 2 - n < j <= i + |k| / 2 && values[j].Some?
  }

  /** A sum of terms between `lo` and `hi` times their weights, with one more. */
  lemma OneMore(lo: real, hi: real, d: real, s: real, w: real, v: real)
    requires Mul(lo, d) <= s <= Mul(hi, d) && w > 0.0 && lo <= v <= hi
    ensures Mul(lo, d + w) <= s + Mul(w, v) <= Mul(hi, d + w)
  {
    assert w * (v - lo) >= 0.0 && w * (hi - v) >= 0.0;
  }

  predicate Inside(values: Spectrum, j: int) { 0 <= j < |values| && values[j].Some? }

  lemma LastTerm(values: Spectrum, k: seq<real>, i: int, n: nat)
    requires 0 < n <= |k|
    ensures var j := i + |k| / 2 - (n - 1);
      var d, s := Convolved(values, k, i, n - 1, true), Convolved(values, k, i, n - 1, false);
      && Convolved(values, k, i, n, true) == (if Inside(values, j) then d + k[n - 1] else d)
      && Convolved(values, k, i, n, false) == (if Inside(values, j) then s + Mul(k[n - 1], values[j].value) else s)
  {
    assert Mul(k[n - 1], 1.0) == k[n - 1] && Mul(k[n - 1], 0.0) == 0.0;
  }

  lemma ReachedStep(values: Spectrum, k: seq<real>, i: int, n: nat, j: int)
    requires 0 < n <= |k|
    ensures var last := i + |k| / 2 - (n - 1);
      Reached(values, k, i, n, j) <==> Reached(values, k, i, n - 1, j) || (j == last && Inside(values, last))
  {
  }

  lemma NoWeights(values: Spectrum, k: seq<real>, i: int)
    ensures Convolved(values, k, i, 0, true) == 0.0 == Convolved(values, k, i, 0, false)
    ensures forall j :: !Reached(values, k, i, 0, j)
  {
  }

  /** The weights met so far, and the weighted sum between bounds of the finite channels met. */
  lemma {:induction false} Weights(values: Spectrum, k: seq<real>, i: int, n: nat, lo: real, hi: real)
    requires n <= |k| && forall m :: 0 <= m < |k| ==> k[m] > 0.0
    requires forall j :: 0 <= j < |values| && Reached(values, k, i, n, j) ==>
      values[j].Some? && lo <= values[j].value <= hi
    ensures var d, s := Convolved(values, k, i, n, true), Convolved(values, k, i, n, false);
      && d >= 0.0 && (d > 0.0 <==> exists j :: Reached(values, k, i, n, j)) && Mul(lo, d) <= s <= Mul(hi, d)
    decreases n
  {
    hide Convolved, Reached, Mul;
    if n == 0 {
      NoWeights(values, k, i);
      MulZero(lo);
      MulZero(hi);
    } else {
      var j := i + |k| / 2 - (n - 1);
      var before := n - 1;
      forall m ensures Reached(values, k, i, before, m) ==> Reached(values, k, i, n, m) {
        ReachedStep(values, k, i, n, m);
      }
      Weights(values, k, i, before, lo, hi);
      LastTerm(values, k, i, n);
      ReachedStep(values, k, i, n, j);
      if exists m :: Reached(values, k, i, before, m) {
        var m :| Reached(values, k, i, before, m);
        ReachedStep(values, k, i, n, m);
      }
      if exists m :: Reached(values, k, i, n, m) {
        var m :| Reached(values, k, i, n, m);
        ReachedStep(values, k, i, n, m);
      }
      if Inside(values, j) {
        OneMore(
          lo, hi, Convolved(values, k, i, n - 1, true), Convolved(values, k, i, n - 1, false), k[n - 1],
          values[j].value);
      }
    }
  }

  /** A smoothed channel is NaN exactly when its window holds no finite channel; otherwise it is a
      mean of the finite ones with positive weights, and so within any bounds they are within. */
  lemma SmoothedIsMean(values: Spectrum, k: seq<real>, i: nat, lo: real, hi: real)
    requires Proper(k) && i < |values|
    requires forall j :: InWindow(values, k, i, j) ==> lo <= values[j].value <= hi
    ensures Smoothed(values, k, i).Some? <==> exists j :: InWindow(values, k, i, j)
    ensures Smoothed(values, k, i).Some? ==> lo <= Smoothed(values, k, i).value <= hi
  {
    hide Convolved;
    forall j ensures Reached(values, k, i, |k|, j) <==> InWindow(values, k, i, j) { }
    Weights(values, k, i, |k|, lo, hi);
    var d, s := Convolved(values, k, i, |k|, true), Convolved(values, k, i, |k|, false);
    if d > 0.0 { Bounded(s, d, lo, hi); }
  }

  lemma Bounded(s: real, d: real, lo: real, hi: real)
    requires d > 0.0 && Mul(lo, d) <= s <= Mul(hi, d)
    ensures lo <= Div(s, d) <= hi
  {
    var q := s / d;
    assert q * d == s;
    MulStrict(lo, q, d);
    MulStrict(q, hi, d);
  }

  lemma MulStrict(a: real, b: real, d: real)
    requires d > 0.0
    ensures a > b ==> a * d > b * d
  {
    if a > b { assert (a - b) * d > 0.0; }
  }

  // ---- The value of a smoothed channel ------------------------------------------------------------------

  /** The kernel entries that meet a finite channel, at channel `i`: entry `m` meets `i + |k| / 2 - m`. */
  function MetWeights(values: Spectrum, k: seq<real>, i: int): seq<real> {
    seq(|k|, m requires 0 <= m < |k| =>
      var j := i + |k| / 2 - m; if 0 <= j < |values| && values[j].Some? then k[m] else 0.0)
  }

  /** The same entries times the channels they meet. */
  function MetTerms(values: Spectrum, k: seq<real>, i: int): seq<real> {
    seq(|k|, m requires 0 <= m < |k| =>
      var j := i + |k| / 2 - m; if 0 <= j < |values| && values[j].Some? then k[m] * values[j].value else 0.0)
  }

  lemma {:induction false} ConvolvedIsTotal(values: Spectrum, k: seq<real>, i: int, n: nat)
    requires n <= |k|
    ensures Convolved(values, k, i, n, true) == TotalOf(MetWeights(values, k, i)[..n])
    ensures Convolved(values, k, i, n, false) == TotalOf(MetTerms(values, k, i)[..n])
    decreases n
  {
    hide MetWeights, MetTerms, Convolved, TotalOf;
    if n == 0 {
      NoWeights(values, k, i);
      TotalNone();
    } else {
      ConvolvedIsTotal(values, k, i, n - 1);
      LastTerm(values, k, i, n);
      MetAt(values, k, i, n - 1);
      var w, x := MetWeights(values, k, i), MetTerms(values, k, i);
      assert w[..n] == w[..n - 1] + [w[n - 1]] && x[..n] == x[..n - 1] + [x[n - 1]];
      TotalSnoc(w[..n - 1], w[n - 1]);
      TotalSnoc(x[..n - 1], x[n - 1]);
    }
  }

  lemma MetAt(values: Spectrum, k: seq<real>, i: int, m: nat)
    requires m < |k|
    ensures |MetWeights(values, k, i)| == |MetTerms(values, k, i)| == |k|
    ensures var j := i + |k| / 2 - m;
      && MetWeights(values, k, i)[m] == (if Inside(values, j) then k[m] else 0.0)
      && MetTerms(values, k, i)[m] == (if Inside(values, j) then Mul(k[m], values[j].value) else 0.0)
  {
  }

  /** Smoothing by any of the methods is refused exactly for a bad width or a kernel longer than the
      spectrum; a kernel of one channel changes nothing; otherwise a channel times the sum of the
      kernel entries that meet finite channels is the sum of those entries times those channels. */
  lemma SmoothExact(values: Spectrum, m: Method)
    requires m.Gaussian? ==> Proper(m.values)
    ensures Smooth(values, m).Ok? <==> Kernel(m).Ok? && (|Kernel(m).value| == 1 || |Kernel(m).value| <= |values|)
    ensures Smooth(values, m).Ok? && |Kernel(m).value| == 1 ==> Smooth(values, m).value == values
    ensures Smooth(values, m).Ok? && |Kernel(m).value| > 1 ==>
      && |Smooth(values, m).value| == |values|
      && forall i :: 0 <= i < |values| && Smooth(values, m).value[i].Some? ==>
           Smooth(values, m).value[i].value * TotalOf(MetWeights(values, Kernel(m).value, i))
             == TotalOf(MetTerms(values, Kernel(m).value, i))
  {
    hide Convolved, MetWeights, MetTerms, Proper, Kernel;
    if Smooth(values, m).Ok? && |Kernel(m).value| > 1 {
      var k := Kernel(m).value;
      forall i | 0 <= i < |values| && Smooth(values, m).value[i].Some?
        ensures Smooth(values, m).value[i].value * TotalOf(MetWeights(values, k, i)) == TotalOf(MetTerms(values, k, i))
      {
        ConvolvedIsTotal(values, k, i, |k|);
        MetAt(values, k, i, 0);
        assert MetWeights(values, k, i)[..|k|] == MetWeights(values, k, i);
        assert MetTerms(values, k, i)[..|k|] == MetTerms(values, k, i);
        QuotientTimes(Convolved(values, k, i, |k|, false), Convolved(values, k, i, |k|, true));
      }
    }
  }

  lemma QuotientTimes(s: real, d: real)
    requires d > 0.0
    ensures Div(s, d) * d == s
  {
  }

  /** Which methods are refused for which spectra, and which change nothing. */
  lemma MethodsExact(values: Spectrum, width: int)
    ensures Smooth(values, NoSmoothing) == Ok(values) && Smooth(values, Boxcar(1)) == Ok(values)
    ensures Smooth(values, Hanning).Ok? <==> |values| >= 3
    ensures Smooth(values, Boxcar(width)).Ok? <==>
      width >= 1 && width % 2 == 1 && (width == 1 || width <= |values|)
  {
    hide Smoothed;
  }

  /** Hanning on three finite neighbours. */
  lemma HanningExact(values: Spectrum, i: nat)
    requires 1 <= i < |values| - 1 && values[i - 1].Some? && values[i].Some? && values[i + 1].Some?
    ensures Smooth(values, Hanning).Ok?
    ensures Smooth(values, Hanning).value[i] ==
      Some(values[i - 1].value / 4.0 + values[i].value / 2.0 + values[i + 1].value / 4.0)
  {
    hide Convolved;
    var k := [0.25, 0.5, 0.25];
    NoWeights(values, k, i);
    LastTerm(values, k, i, 1);
    LastTerm(values, k, i, 2);
    LastTerm(values, k, i, 3);
    assert Convolved(values, k, i, 3, true) == 1.0;
  }

  /** The finite ones of the `n` channels up to `last`, from the last down. */
  function FiniteOnes(values: Spectrum, last: int, n: nat): seq<real> {
    if n == 0 then []
    else
      var j := last - (n - 1);
      FiniteOnes(values, last, n - 1) + (if 0 <= j < |values| && values[j].Some? then [values[j].value] else [])
  }

  lemma {:induction false} BoxcarSums(values: Spectrum, k: seq<real>, i: int, n: nat, x: real)
    requires n <= |k| && forall m :: 0 <= m < |k| ==> k[m] == x
    ensures var f := FiniteOnes(values, i + |k| / 2, n);
      && Convolved(values, k, i, n, true) == Mul(x, |f| as real)
      && Convolved(values, k, i, n, false) == Mul(x, TotalOf(f))
    decreases n
  {
    hide Convolved, TotalOf, Mul;
    if n == 0 {
      NoWeights(values, k, i);
      TotalNone();
      MulZero(x);
    } else {
      BoxcarSums(values, k, i, n - 1, x);
      LastTerm(values, k, i, n);
      var f, j := FiniteOnes(values, i + |k| / 2, n - 1), i + |k| / 2 - (n - 1);
      if Inside(values, j) {
        TotalSnoc(f, values[j].value);
        Distribute(x, TotalOf(f), values[j].value);
        Distribute(x, |f| as real, 1.0);
        MulOne(x);
        assert |f + [values[j].value]| as real == |f| as real + 1.0;
      } else {
        assert f + [] == f;
      }
    }
  }

  lemma MulOne(x: real)
    ensures Mul(x, 1.0) == x
  {
  }

  lemma SameFactor(x: real, n: real, s: real)
    requires x > 0.0 && Mul(x, n) > 0.0
    ensures Div(Mul(x, s), Mul(x, n)) * n == s
  {
    var q := Div(Mul(x, s), Mul(x, n));
    assert q * (x * n) == x * s;
    assert x * (q * n - s) == 0.0;
  }

  /** A boxcar of `width` channels returns the plain mean of the finite channels of its window. */
  lemma BoxcarExact(values: Spectrum, width: nat, i: nat)
    requires 1 < width <= |values| && width % 2 == 1 && i < |values|
    ensures Smooth(values, Boxcar(width)).Ok?
    ensures var f := FiniteOnes(values, i + width / 2, width); var r := Smooth(values, Boxcar(width)).value[i];
      (r.Some? <==> f != []) && (r.Some? ==> r.value * |f| as real == TotalOf(f))
  {
    hide Convolved, Mul, Div, TotalOf, FiniteOnes;
    var x := 1.0 / width as real;
    var k := seq(width, i => 1.0 / width as real);
    assert Kernel(Boxcar(width)) == Ok(k);
    BoxcarSums(values, k, i, width, x);
    var f := FiniteOnes(values, i + width / 2, width);
    assert x > 0.0;
    if f == [] { MulZero(x); } else { Scaled(x, |f| as real); SameFactor(x, |f| as real, TotalOf(f)); }
  }

  lemma Scaled(x: real, n: real)
    requires x > 0.0 && n > 0.0
    ensures Mul(x, n) > 0.0
  {
  }

  /** Every finite channel of the window is `c`. */
  predicate OnlyHolds(values: Spectrum, k: seq<real>, i: int, c: real) {
    forall j :: 0 <= j < |values| && InWindow(values, k, i, j) ==> values[j].value == c
  }

  /** Smoothing by any of the methods: NaN exactly where the window has no finite channel, and a
      constant is kept wherever it is all the window holds. */
  lemma SmoothKeeps(values: Spectrum, m: Method, c: real)
    requires (m.Gaussian? ==> Proper(m.values)) && Smooth(values, m).Ok?
    ensures |Smooth(values, m).value| == |values|
    ensures forall i :: 0 <= i < |values| ==>
      (Smooth(values, m).value[i].Some? <==> exists j :: InWindow(values, Kernel(m).value, i, j))
    ensures forall i ::
      0 <= i < |values| && Smooth(values, m).value[i].Some? && OnlyHolds(values, Kernel(m).value, i, c) ==>
      Smooth(values, m).value[i] == Some(c)
  {
    hide Smoothed;
    KernelsProper(m);
    var k := Kernel(m).value;
    forall i | 0 <= i < |values|
      ensures Smooth(values, m).value[i].Some? <==> exists j :: InWindow(values, k, i, j)
      ensures Smooth(values, m).value[i].Some? && OnlyHolds(values, k, i, c) ==> Smooth(values, m).value[i] == Some(c)
    {
      if |k| == 1 {
        assert values[i].Some? ==> InWindow(values, k, i, i);
      } else {
        var lo, hi := Bounds(values);
        SmoothedIsMean(values, k, i, lo, hi);
        if OnlyHolds(values, k, i, c) { SmoothedIsMean(values, k, i, c, c); }
      }
    }
  }

  lemma {:induction false} Bounds(values: Spectrum) returns (lo: real, hi: real)
    ensures forall j :: 0 <= j < |values| && values[j].Some? ==> lo <= values[j].value <= hi
    decreases |values|
  {
    lo, hi := 0.0, 0.0;
    if values != [] {
      lo, hi := Bounds(values[..|values| - 1]);
      assert forall j :: 0 <= j < |values| - 1 ==> values[j] == values[..|values| - 1][j];
      var v := values[|values| - 1];
      if v.Some? {
        if v.value < lo { lo := v.value; }
        if v.value > hi { hi := v.value; }
      }
    }
  }
}
