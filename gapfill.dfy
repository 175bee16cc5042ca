/**
 * The missing-data heuristic of the chart decoder. A series of column
 * readings marks a column without a reading with NOVALUE; the heuristic
 * copies the first reading over the leading gap and the last reading over
 * the trailing gap, then replaces every run of missing readings by the
 * straight line between the readings on either side of it. The scan that
 * finds the end of a run does not stop at the end of the series, and the
 * interpolation reads the column before the run without a check: a run at
 * either end of the series makes the decoder index outside the series,
 * which the functions here report as None.
 */
module GapFill {
  import opened Options
  import opened Layout
  import opened Sampling
  import Calibration

  /** The value of a column without a reading. */
  const MISSING: real := NOVALUE as real

  // ---------------------------------------------------------------------
  // Finding readings

  /** The first column r >= j with a reading. */
  function FirstReal(t: seq<real>, j: nat): (r: Option<nat>)
    ensures r.Some? ==> j <= r.value < |t| && t[r.value] != MISSING
    decreases |t| - j
  {
    if j >= |t| then None
    else if t[j] != MISSING then Some(j)
    else FirstReal(t, j + 1)
  }

  /** The first reading from j on has only missing columns before it, and None means there is none. */
  lemma {:induction false} FirstRealMeaning(t: seq<real>, j: nat)
    ensures match FirstReal(t, j)
      case None => forall i | j <= i < |t| :: t[i] == MISSING
      case Some(r) => forall i | j <= i < r :: t[i] == MISSING
    decreases |t| - j
  {
    if j < |t| && t[j] == MISSING {
      FirstRealMeaning(t, j + 1);
    }
  }

  /** A reading preceded from j on only by missing columns is the first reading from j. */
  lemma {:induction false} FirstRealIs(t: seq<real>, j: nat, r: nat)
    requires j <= r < |t| && t[r] != MISSING
    requires forall i | j <= i < r :: t[i] == MISSING
    ensures FirstReal(t, j) == Some(r)
    decreases r - j
  {
    if j < r {
      FirstRealIs(t, j + 1, r);
    }
  }

  /** The last column p < j with a reading. */
  function LastRealBelow(t: seq<real>, j: nat): (p: Option<nat>)
    requires j <= |t|
    ensures p.Some? ==> p.value < j && t[p.value] != MISSING
  {
    if j == 0 then None
    else if t[j - 1] != MISSING then Some(j - 1)
    else LastRealBelow(t, j - 1)
  }

  /** The last reading below j has only missing columns after it, and None means there is none. */
  lemma {:induction false} LastRealBelowMeaning(t: seq<real>, j: nat)
    requires j <= |t|
    ensures match LastRealBelow(t, j)
      case None => forall i | 0 <= i < j :: t[i] == MISSING
      case Some(p) => forall i | p < i < j :: t[i] == MISSING
  {
    if j > 0 && t[j - 1] == MISSING {
      LastRealBelowMeaning(t, j - 1);
    }
  }

  /** A reading followed below j only by missing columns is the last reading below j. */
  lemma {:induction false} LastRealBelowIs(t: seq<real>, j: nat, p: nat)
    requires p < j <= |t| && t[p] != MISSING
    requires forall i | p < i < j :: t[i] == MISSING
    ensures LastRealBelow(t, j) == Some(p)
    decreases j - p
  {
    if p + 1 < j {
      LastRealBelowIs(t, j - 1, p);
    }
  }

  // ---------------------------------------------------------------------
  // Edges

  /** The series with the first reading copied over every column before it. */
  function LeftEdgeFilled(t: seq<real>): (u: seq<real>)
    ensures |u| == |t|
  {
    match FirstReal(t, 0)
    case None => t
    case Some(x) => seq(|t|, i requires 0 <= i < |t| => if i < x then t[x] else t[i])
  }

  /** The series with the last reading copied over every column after it. */
  function RightEdgeFilled(t: seq<real>): (u: seq<real>)
    ensures |u| == |t|
  {
    match LastRealBelow(t, |t|)
    case None => t
    case Some(x) => seq(|t|, i requires 0 <= i < |t| => if i > x then t[x] else t[i])
  }

  /** Both edges filled, left edge first. */
  function EdgesFilled(t: seq<real>): (u: seq<real>)
    ensures |u| == |t|
  {
    RightEdgeFilled(LeftEdgeFilled(t))
  }

  /**
   * A series without readings is left alone. Otherwise, with x0 its first
   * and x1 its last reading, the columns before x0 take the reading at x0,
   * the columns after x1 the reading at x1, and the columns in between are
   * unchanged; so both ends then hold readings.
   */
  lemma EdgesMeaning(t: seq<real>)
    ensures FirstReal(t, 0).None? <==> LastRealBelow(t, |t|).None?
    ensures FirstReal(t, 0).None? ==> (forall i | 0 <= i < |t| :: t[i] == MISSING) && EdgesFilled(t) == t
    ensures FirstReal(t, 0).Some? && LastRealBelow(t, |t|).Some? ==>
      var x0, x1, u := FirstReal(t, 0).value, LastRealBelow(t, |t|).value, EdgesFilled(t);
      && x0 <= x1
      && (forall i | 0 <= i < |t| :: u[i] == if i < x0 then t[x0] else if i > x1 then t[x1] else t[i])
      && u[0] != MISSING && u[|t| - 1] != MISSING
  {
    FirstRealMeaning(t, 0);
    LastRealBelowMeaning(t, |t|);
    var l := LeftEdgeFilled(t);
    match FirstReal(t, 0)
    case None =>
      assert l == t;
    case Some(x0) =>
      var x1 := LastRealBelow(t, |t|).value;
      assert forall i | x0 <= i < |t| :: l[i] == t[i];
      LastRealBelowIs(l, |l|, x1);
  }

  // ---------------------------------------------------------------------
  // Holes

  /**
   * The series with the run of columns leftx .. rightx - 1 replaced by the
   * line from column leftx - 1 to column rightx.
   */
  function Interpolate(t: seq<real>, leftx: int, rightx: int): (u: seq<real>)
    requires 1 <= leftx < rightx < |t|
    ensures |u| == |t|
  {
    seq(|t|, i requires 0 <= i < |t| => if leftx <= i < rightx then LinePoint(t[leftx - 1], t[rightx], leftx - 1, rightx, i) else t[i])
  }

  /**
   * The value at column i of the line from value a at column p to value b
   * at column q: a plus i - p steps of the per-column difference.
   */
  function LinePoint(a: real, b: real, p: int, q: int, i: int): real
    requires p < q
  {
    var diff := (b - a) / (q - p) as real;
    a + diff * (i - p) as real
  }

  /**
   * What the hole scan does at column k: nothing at a reading; at a missing
   * column, find the next reading and interpolate up to it. None when the
   * search runs past the end or the run starts at column 0.
   */
  function HoleStep(t: seq<real>, k: nat): (s: Option<seq<real>>)
    requires k < |t|
    ensures s.Some? ==> |s.value| == |t|
  {
    if t[k] != MISSING then Some(t)
    else match FirstReal(t, k + 1)
      case None => None
      case Some(r) => if k == 0 then None else Some(Interpolate(t, k, r))
  }

  /** The hole scan from column k to the end of the series. */
  function FillHolesFrom(t: seq<real>, k: nat): (s: Option<seq<real>>)
    ensures s.Some? ==> |s.value| == |t|
    decreases |t| - k
  {
    if k >= |t| then Some(t)
    else match HoleStep(t, k)
      case None => None
      case Some(u) => FillHolesFrom(u, k + 1)
  }

  /** The whole temperature repair: edges, then holes. */
  function FixedTemperature(t: seq<real>): Option<seq<real>>
  {
    FillHolesFrom(EdgesFilled(t), 0)
  }

  // ---------------------------------------------------------------------
  // The reference definition of the repaired series

  /**
   * Column i of the repaired series: its reading, or, for a missing column
   * between the readings at p and q, the value at i of the line through
   * (p, t[p]) and (q, t[q]).
   */
  function RepairedAt(t: seq<real>, i: nat): real
    requires i < |t|
  {
    if t[i] != MISSING then t[i]
    else match (LastRealBelow(t, i), FirstReal(t, i))
      case (Some(p), Some(q)) => LinePoint(t[p], t[q], p, q, i)
      case _ => t[i]
  }

  function Repaired(t: seq<real>): (u: seq<real>)
    ensures |u| == |t|
  {
    seq(|t|, i requires 0 <= i < |t| => RepairedAt(t, i))
  }

  /** Both ends hold readings and no reading is above the missing marker. */
  ghost predicate Repairable(t: seq<real>)
  {
    && |t| >= 1 && t[0] != MISSING && t[|t| - 1] != MISSING
    && forall i | 0 <= i < |t| :: t[i] <= MISSING
  }

  /** A point of the line, from the per-column difference computed once. */
  lemma LinePointStep(a: real, b: real, p: int, q: int, i: int, diff: real)
    requires p < q && diff == (b - a) / (q - p + 0) as real
    ensures LinePoint(a, b, p, q, i) == a + diff * (i - (p + 1) + 1) as real
  {
  }

  /** A point of the line strictly between its two ends lies between their values. */
  lemma Between(a: real, b: real, p: int, q: int, i: int)
    requires p < i < q
    ensures var v := LinePoint(a, b, p, q, i);
      (a <= b ==> a <= v <= b) && (b <= a ==> b <= v <= a)
  {
    var n, d := (q - p) as real, (i - p) as real;
    var w := d / n;
    assert 0.0 < w < 1.0;
    assert (b - a) / n * d == (b - a) * w;
    if a <= b {
      assert 0.0 <= (b - a) * w <= b - a;
    } else {
      assert b - a <= (b - a) * w <= 0.0;
    }
  }

  /**
   * In a series with readings at both ends, the repaired series keeps every
   * reading, and a missing column i between the readings at p and q (only
   * missing columns between them) gets a value between t[p] and t[q]; so
   * nothing in it is missing.
   */
  lemma RepairedMeaning(t: seq<real>)
    requires Repairable(t)
    ensures var u := Repaired(t);
      && (forall i | 0 <= i < |t| && t[i] != MISSING :: u[i] == t[i])
      && (forall i | 0 <= i < |t| :: u[i] < MISSING)
      && (forall i | 0 <= i < |t| && t[i] == MISSING ::
            exists p, q | 0 <= p < i < q < |t| ::
              && t[p] != MISSING && t[q] != MISSING
              && (forall j | p < j < q :: t[j] == MISSING)
              && (t[p] <= t[q] ==> t[p] <= u[i] <= t[q])
              && (t[q] <= t[p] ==> t[q] <= u[i] <= t[p]))
  {
    forall i | 0 <= i < |t| && t[i] == MISSING
      ensures RepairedAt(t, i) < MISSING
      ensures exists p, q | 0 <= p < i < q < |t| ::
        && t[p] != MISSING && t[q] != MISSING
        && (forall j | p < j < q :: t[j] == MISSING)
        && (t[p] <= t[q] ==> t[p] <= RepairedAt(t, i) <= t[q])
        && (t[q] <= t[p] ==> t[q] <= RepairedAt(t, i) <= t[p])
    {
      HoleNeighbours(t, i);
      var p, q := LastRealBelow(t, i).value, FirstReal(t, i).value;
      Between(t[p], t[q], p, q, i);
    }
  }

  /** A missing column of a repairable series has a reading on either side. */
  lemma HoleNeighbours(t: seq<real>, i: nat)
    requires Repairable(t) && i < |t| && t[i] == MISSING
    ensures LastRealBelow(t, i).Some? && FirstReal(t, i).Some?
    ensures var p, q := LastRealBelow(t, i).value, FirstReal(t, i).value;
      && p < i < q && (forall j | p < j < q :: t[j] == MISSING)
  {
    LastRealBelowMeaning(t, i);
    FirstRealMeaning(t, i);
  }

  // ---------------------------------------------------------------------
  // The hole scan computes the reference definition

  /** Column i is a missing one whose run began before column k - 1. */
  ghost predicate Started(t: seq<real>, i: nat, k: int)
    requires i < |t|
  {
    t[i] == MISSING && match LastRealBelow(t, i)
      case Some(p) => p + 1 < k
      case None => false
  }

  /** The scan of t has reached column k with cur: exactly the runs begun before k are repaired. */
  ghost predicate FillState(t: seq<real>, cur: seq<real>, k: int)
  {
    && |cur| == |t|
    && forall i | 0 <= i < |t| :: cur[i] == if Started(t, i, k) then RepairedAt(t, i) else t[i]
  }

  /** A step of the scan at a column of t with a reading, or inside a run already repaired. */
  lemma FillStepSkip(t: seq<real>, cur: seq<real>, k: nat)
    requires Repairable(t) && FillState(t, cur, k) && k < |t|
    requires t[k] != MISSING || Started(t, k, k)
    ensures cur[k] != MISSING && FillState(t, cur, k + 1)
    ensures forall i | 0 <= i < |t| :: Started(t, i, k) == Started(t, i, k + 1)
  {
    if t[k] == MISSING {
      RepairedMeaning(t);
    }
    forall i | 0 <= i < |t| && t[i] == MISSING
      ensures Started(t, i, k) == Started(t, i, k + 1)
    {
      HoleNeighbours(t, i);
      var p := LastRealBelow(t, i).value;
      if p + 1 == k {
        assert k <= i;
        assert t[k] == MISSING;
        HoleNeighbours(t, k);
        LastRealBelowIs(t, k, p);
      }
    }
  }

  /** A step of the scan at the first column of a run: the run is interpolated. */
  lemma FillStepRun(t: seq<real>, cur: seq<real>, k: nat)
    requires Repairable(t) && FillState(t, cur, k) && k < |t|
    requires t[k] == MISSING && !Started(t, k, k)
    ensures 1 <= k && cur[k] == MISSING && cur[k - 1] == t[k - 1]
    ensures FirstReal(cur, k + 1) == FirstReal(t, k) && FirstReal(t, k).Some?
    ensures var q := FirstReal(t, k).value;
      && FillState(t, Interpolate(cur, k, q), k + 1)
      && forall i | 0 <= i < |t| :: (k <= i < q <==> Started(t, i, k + 1) && !Started(t, i, k))
  {
    HoleNeighbours(t, k);
    var p, q := LastRealBelow(t, k).value, FirstReal(t, k).value;
    assert p == k - 1;
    assert !Started(t, p, k);
    assert cur[k - 1] == t[k - 1];
    forall j | k + 1 <= j < q
      ensures cur[j] == MISSING
    {
      LastRealBelowIs(t, j, p);
    }
    assert !Started(t, q, k);
    FirstRealIs(cur, k + 1, q);
    var u := Interpolate(cur, k, q);
    forall i | 0 <= i < |t|
      ensures u[i] == if Started(t, i, k + 1) then RepairedAt(t, i) else t[i]
      ensures k <= i < q <==> Started(t, i, k + 1) && !Started(t, i, k)
    {
      if k <= i < q {
        LastRealBelowIs(t, i, p);
        FirstRealIs(t, i, q);
      } else if t[i] == MISSING {
        HoleNeighbours(t, i);
        assert LastRealBelow(t, i).value != p;
      }
    }
  }

  /** A repairable series' hole scan, from any state it can reach, ends in the repaired series. */
  lemma {:induction false} FillHolesFromState(t: seq<real>, cur: seq<real>, k: nat)
    requires Repairable(t) && FillState(t, cur, k) && k <= |t|
    ensures FillHolesFrom(cur, k) == Some(Repaired(t))
    decreases |t| - k
  {
    if k == |t| {
      forall i | 0 <= i < |t|
        ensures cur[i] == RepairedAt(t, i)
      {
        if t[i] == MISSING {
          HoleNeighbours(t, i);
        }
      }
      assert cur == Repaired(t);
    } else if t[k] != MISSING || Started(t, k, k) {
      FillStepSkip(t, cur, k);
      assert HoleStep(cur, k) == Some(cur);
      FillHolesFromState(t, cur, k + 1);
    } else {
      FillStepRun(t, cur, k);
      var next := Interpolate(cur, k, FirstReal(t, k).value);
      assert HoleStep(cur, k) == Some(next);
      FillHolesFromState(t, next, k + 1);
    }
  }

  /**
   * On a series with readings at both ends, the hole scan succeeds and
   * yields the reference repaired series.
   */
  lemma FillHolesRepairs(t: seq<real>)
    requires Repairable(t)
    ensures FillHolesFrom(t, 0) == Some(Repaired(t))
  {
    FillHolesFromState(t, t, 0);
  }

  /** A scan state whose last column is missing keeps it missing and fails. */
  lemma {:induction false} FillHolesFromFails(cur: seq<real>, k: nat)
    requires k < |cur| && cur[|cur| - 1] == MISSING
    ensures FillHolesFrom(cur, k) == None
    decreases |cur| - k
  {
    if cur[k] != MISSING {
      FillHolesFromFails(cur, k + 1);
    } else if FirstReal(cur, k + 1).Some? && k != 0 {
      FillHolesFromFails(Interpolate(cur, k, FirstReal(cur, k + 1).value), k + 1);
    }
  }

  /** A series that starts or ends with a missing column makes the hole scan fail. */
  lemma FillHolesFailsAtEdges(t: seq<real>)
    requires |t| >= 1 && (t[0] == MISSING || t[|t| - 1] == MISSING)
    ensures FillHolesFrom(t, 0) == None
  {
    if t[0] != MISSING {
      FillHolesFromFails(t, 0);
    }
  }

  /**
   * The temperature repair fails exactly when the series holds no reading;
   * otherwise it keeps every reading, leaves nothing missing and is the
   * repaired series of the edge-filled series.
   */
  lemma FixedTemperatureMeaning(t: seq<real>)
    requires |t| >= 1 && forall i | 0 <= i < |t| :: t[i] <= MISSING
    ensures FixedTemperature(t).None? <==> forall i | 0 <= i < |t| :: t[i] == MISSING
    ensures FixedTemperature(t).Some? ==>
      var u := FixedTemperature(t).value;
      && u == Repaired(EdgesFilled(t))
      && (forall i | 0 <= i < |t| && t[i] != MISSING :: u[i] == t[i])
      && (forall i | 0 <= i < |t| :: u[i] < MISSING)
  {
    EdgesMeaning(t);
    var e := EdgesFilled(t);
    if forall i | 0 <= i < |t| :: t[i] == MISSING {
      FillHolesFailsAtEdges(e);
    } else {
      FirstRealMeaning(t, 0);
      LastRealBelowMeaning(t, |t|);
      assert Repairable(e);
      FillHolesRepairs(e);
      RepairedMeaning(e);
    }
  }

  /**
   * The temperature curve sampled with the scale read from the image never
   * exceeds NOVALUE, so its repair fails exactly when no column has a
   * reading, and otherwise keeps every reading and leaves nothing missing.
   */
  lemma PanelTemperatureRepair(pixels: seq<int>)
    requires |pixels| == PIXEL_COUNT
    ensures var s := Calibration.PanelScale(pixels, Calibration.Temperature);
      s.Linear? ==>
        var t := SampledTemperatures(pixels, s.row0, s.precision);
        && (forall i | 0 <= i < |t| :: t[i] <= MISSING)
        && (FixedTemperature(t).None? <==> forall i | 0 <= i < |t| :: t[i] == MISSING)
        && (FixedTemperature(t).Some? ==>
              var u := FixedTemperature(t).value;
              && (forall i | 0 <= i < |t| && t[i] != MISSING :: u[i] == t[i])
              && (forall i | 0 <= i < |t| :: u[i] < MISSING))
  {
    var s := Calibration.PanelScale(pixels, Calibration.Temperature);
    if s.Linear? {
      Calibration.TemperatureScaleBounds(pixels);
      SampledTemperatureBounds(pixels, s.row0, s.precision);
      FixedTemperatureMeaning(SampledTemperatures(pixels, s.row0, s.precision));
    }
  }

  // ---------------------------------------------------------------------
  // Pressure: the hPa series is repaired without edge filling, and every
  // interpolated column's mmHg value is the converted hPa value.

  datatype PressureSeries = PressureSeries(hPa: seq<real>, mmHg: seq<real>)

  /** The mmHg series with columns leftx .. rightx - 1 converted from the hPa series. */
  function ConvertRun(h: seq<real>, m: seq<real>, leftx: int, rightx: int): (u: seq<real>)
    requires |m| == |h|
    ensures |u| == |h|
  {
    seq(|h|, i requires 0 <= i < |h| => if leftx <= i < rightx then ToMmHg(h[i]) else m[i])
  }

  /** What the hole scan does at column k of the pressure series. */
  function PressureHoleStep(s: PressureSeries, k: nat): (r: Option<PressureSeries>)
    requires k < |s.hPa| == |s.mmHg|
    ensures r.Some? ==> |r.value.hPa| == |r.value.mmHg| == |s.hPa|
  {
    if s.hPa[k] != MISSING then Some(s)
    else match FirstReal(s.hPa, k + 1)
      case None => None
      case Some(rightx) =>
        if k == 0 then None
        else
          var h := Interpolate(s.hPa, k, rightx);
          Some(PressureSeries(h, ConvertRun(h, s.mmHg, k, rightx)))
  }

  /** The pressure hole scan from column k to the end of the series. */
  function PressureHolesFrom(s: PressureSeries, k: nat): (r: Option<PressureSeries>)
    requires |s.hPa| == |s.mmHg|
    ensures r.Some? ==> |r.value.hPa| == |r.value.mmHg| == |s.hPa|
    decreases |s.hPa| - k
  {
    if k >= |s.hPa| then Some(s)
    else match PressureHoleStep(s, k)
      case None => None
      case Some(u) => PressureHolesFrom(u, k + 1)
  }

  /** The scan of the pressure series (h, m) has reached column k with cur. */
  ghost predicate PressureState(h: seq<real>, m: seq<real>, cur: PressureSeries, k: int)
  {
    && |m| == |h| && FillState(h, cur.hPa, k) && |cur.mmHg| == |h|
    && forall i | 0 <= i < |h| :: cur.mmHg[i] == if Started(h, i, k) then ToMmHg(RepairedAt(h, i)) else m[i]
  }

  /** The pressure series an hPa series with readings at both ends is repaired into. */
  function RepairedPressure(h: seq<real>, m: seq<real>): (r: PressureSeries)
    requires |m| == |h|
    ensures |r.hPa| == |r.mmHg| == |h|
  {
    PressureSeries(Repaired(h), seq(|h|, i requires 0 <= i < |h| => if h[i] == MISSING then ToMmHg(RepairedAt(h, i)) else m[i]))
  }

  /** At the end of the pressure scan every run has been repaired. */
  lemma PressureStateDone(h: seq<real>, m: seq<real>, cur: PressureSeries)
    requires Repairable(h) && PressureState(h, m, cur, |h|)
    ensures cur == RepairedPressure(h, m)
  {
    forall i | 0 <= i < |h| && h[i] == MISSING
      ensures Started(h, i, |h|)
    {
      HoleNeighbours(h, i);
    }
    FillHolesFromState(h, cur.hPa, |h|);
    assert cur.hPa == RepairedPressure(h, m).hPa;
    assert cur.mmHg == RepairedPressure(h, m).mmHg;
  }

  /** A step of the pressure scan at a reading or inside a repaired run changes nothing. */
  lemma PressureStepSkip(h: seq<real>, m: seq<real>, cur: PressureSeries, k: nat)
    requires Repairable(h) && PressureState(h, m, cur, k) && k < |h|
    requires h[k] != MISSING || Started(h, k, k)
    ensures PressureHoleStep(cur, k) == Some(cur) && PressureState(h, m, cur, k + 1)
  {
    FillStepSkip(h, cur.hPa, k);
  }

  /** A step of the pressure scan at the first column of a run: both series are updated over the run. */
  lemma PressureStepRun(h: seq<real>, m: seq<real>, cur: PressureSeries, k: nat)
    requires Repairable(h) && PressureState(h, m, cur, k) && k < |h|
    requires h[k] == MISSING && !Started(h, k, k)
    ensures PressureHoleStep(cur, k).Some? && PressureState(h, m, PressureHoleStep(cur, k).value, k + 1)
  {
    FillStepRun(h, cur.hPa, k);
    var q := FirstReal(h, k).value;
    var u := Interpolate(cur.hPa, k, q);
    var c := ConvertRun(u, cur.mmHg, k, q);
    assert PressureHoleStep(cur, k) == Some(PressureSeries(u, c));
    forall i | 0 <= i < |h|
      ensures c[i] == if Started(h, i, k + 1) then ToMmHg(RepairedAt(h, i)) else m[i]
    {
    }
  }

  /** Any step of the pressure scan of a repairable series succeeds and keeps the scan state. */
  lemma PressureStep(h: seq<real>, m: seq<real>, cur: PressureSeries, k: nat)
    requires Repairable(h) && PressureState(h, m, cur, k) && k < |h|
    ensures PressureHoleStep(cur, k).Some? && PressureState(h, m, PressureHoleStep(cur, k).value, k + 1)
  {
    if h[k] != MISSING || Started(h, k, k) {
      PressureStepSkip(h, m, cur, k);
    } else {
      PressureStepRun(h, m, cur, k);
    }
  }

  lemma {:induction false} PressureHolesFromState(h: seq<real>, m: seq<real>, cur: PressureSeries, k: nat)
    requires Repairable(h) && PressureState(h, m, cur, k) && k <= |h|
    ensures PressureHolesFrom(cur, k) == Some(RepairedPressure(h, m))
    decreases |h| - k
  {
    if k == |h| {
      PressureStateDone(h, m, cur);
      assert PressureHolesFrom(cur, k) == Some(cur);
    } else {
      PressureStep(h, m, cur, k);
      var next := PressureHoleStep(cur, k).value;
      PressureHolesFromState(h, m, next, k + 1);
      assert PressureHolesFrom(cur, k) == PressureHolesFrom(next, k + 1);
    }
  }

  /**
   * On an hPa series with readings at both ends, the pressure scan succeeds:
   * the hPa series becomes its repaired series, the mmHg value of every
   * formerly missing column is its repaired hPa value converted, and every
   * other mmHg value is kept.
   */
  lemma PressureHolesRepair(h: seq<real>, m: seq<real>)
    requires Repairable(h) && |m| == |h|
    ensures PressureHolesFrom(PressureSeries(h, m), 0) == Some(RepairedPressure(h, m))
  {
    PressureHolesFromState(h, m, PressureSeries(h, m), 0);
  }

  lemma {:induction false} PressureHolesFromFails(cur: PressureSeries, k: nat)
    requires k < |cur.hPa| == |cur.mmHg| && cur.hPa[|cur.hPa| - 1] == MISSING
    ensures PressureHolesFrom(cur, k) == None
    decreases |cur.hPa| - k
  {
    if cur.hPa[k] != MISSING {
      PressureHolesFromFails(cur, k + 1);
    } else if FirstReal(cur.hPa, k + 1).Some? && k != 0 {
      PressureHolesFromFails(PressureHoleStep(cur, k).value, k + 1);
    }
  }

  /**
   * The pressure series gets no edge filling, so a missing first or last
   * hPa column makes the pressure scan fail.
   */
  lemma PressureHolesFailAtEdges(h: seq<real>, m: seq<real>)
    requires |h| >= 1 && |m| == |h| && (h[0] == MISSING || h[|h| - 1] == MISSING)
    ensures PressureHolesFrom(PressureSeries(h, m), 0) == None
  {
    if h[0] != MISSING {
      PressureHolesFromFails(PressureSeries(h, m), 0);
    }
  }

  // ---------------------------------------------------------------------
  // The in-place repair

  /** Copies the first reading of a over every column before it. */
  method FillLeftEdge(a: array<real>)
    modifies a
    ensures a[..] == LeftEdgeFilled(old(a[..]))
  {
    ghost var t := a[..];
    for x := 0 to a.Length
      invariant a[..] == t
      invariant FirstReal(t, x) == FirstReal(t, 0)
    {
      if a[x] != MISSING {
        if x > 0 {
          for fixx := 0 to x
            invariant forall i | 0 <= i < a.Length :: a[i] == if i < fixx then t[x] else t[i]
          {
            a[fixx] := a[x];
          }
        }
        assert a[..] == LeftEdgeFilled(t);
        return;
      }
    }
  }

  /** Copies the last reading of a over every column after it. */
  method FillRightEdge(a: array<real>)
    modifies a
    ensures a[..] == RightEdgeFilled(old(a[..]))
  {
    ghost var t := a[..];
    for x := a.Length downto 0
      invariant a[..] == t
      invariant LastRealBelow(t, x) == LastRealBelow(t, a.Length)
    {
      if a[x] != MISSING {
        if x < a.Length - 1 {
          for fixx := a.Length downto x + 1
            invariant forall i | 0 <= i < a.Length :: a[i] == if i >= fixx then t[x] else t[i]
          {
            a[fixx] := a[x];
          }
        }
        assert a[..] == RightEdgeFilled(t);
        return;
      }
    }
  }

  /** The series the run loop leaves behind is the interpolated series. */
  lemma RunIsInterpolation(t: seq<real>, leftx: int, rightx: int, diff: real, u: seq<real>)
    requires 1 <= leftx < rightx < |t| == |u|
    requires diff == (t[rightx] - t[leftx - 1]) / (rightx - leftx + 1) as real
    requires forall i | 0 <= i < |t| ::
      u[i] == if leftx <= i < rightx then t[leftx - 1] + diff * (i - leftx + 1) as real else t[i]
    ensures u == Interpolate(t, leftx, rightx)
  {
    forall i | leftx <= i < rightx
      ensures u[i] == LinePoint(t[leftx - 1], t[rightx], leftx - 1, rightx, i)
    {
      LinePointStep(t[leftx - 1], t[rightx], leftx - 1, rightx, i, diff);
    }
  }

  /**
   * Scans from leftx + 1 for the end of a run of missing columns: the next
   * reading, or a.Length where the decoder reads past the end of a.
   */
  method FindRunEnd(a: array<real>, leftx: int) returns (rightx: int)
    requires 0 <= leftx < a.Length
    ensures match FirstReal(a[..], leftx + 1)
      case None => rightx == a.Length
      case Some(r) => rightx == r
  {
    rightx := leftx + 1;
    while rightx < a.Length && a[rightx] == MISSING
      invariant leftx < rightx <= a.Length
      invariant FirstReal(a[..], rightx) == FirstReal(a[..], leftx + 1)
      decreases a.Length - rightx
    {
      rightx := rightx + 1;
    }
  }

  /** Replaces columns leftx .. rightx - 1 of a by the line from column leftx - 1 to column rightx. */
  method InterpolateRun(a: array<real>, leftx: int, rightx: int)
    requires 1 <= leftx < rightx < a.Length
    modifies a
    ensures a[..] == Interpolate(old(a[..]), leftx, rightx)
  {
    ghost var t := a[..];
    var diff := (a[rightx] - a[leftx - 1]) / (rightx - leftx + 1) as real;
    for workx := leftx to rightx
      invariant forall i | 0 <= i < a.Length ::
        a[i] == if leftx <= i < workx then t[leftx - 1] + diff * (i - leftx + 1) as real else t[i]
    {
      a[workx] := a[leftx - 1] + diff * (workx - leftx + 1) as real;
    }
    RunIsInterpolation(t, leftx, rightx, diff, a[..]);
  }

  /**
   * Replaces hPa columns leftx .. rightx - 1 by the line from column
   * leftx - 1 to column rightx, and converts each new value to mmHg.
   */
  method InterpolatePressureRun(hPa: array<real>, mmHg: array<real>, leftx: int, rightx: int)
    requires hPa != mmHg && hPa.Length == mmHg.Length
    requires 1 <= leftx < rightx < hPa.Length
    modifies hPa, mmHg
    ensures hPa[..] == Interpolate(old(hPa[..]), leftx, rightx)
    ensures mmHg[..] == ConvertRun(hPa[..], old(mmHg[..]), leftx, rightx)
  {
    ghost var h, m := hPa[..], mmHg[..];
    var diff := (hPa[rightx] - hPa[leftx - 1]) / (rightx - leftx + 1) as real;
    for workx := leftx to rightx
      invariant forall i | 0 <= i < hPa.Length ::
        hPa[i] == if leftx <= i < workx then h[leftx - 1] + diff * (i - leftx + 1) as real else h[i]
      invariant forall i | 0 <= i < hPa.Length ::
        mmHg[i] == if leftx <= i < workx then ToMmHg(h[leftx - 1] + diff * (i - leftx + 1) as real) else m[i]
    {
      hPa[workx] := hPa[leftx - 1] + diff * (workx - leftx + 1) as real;
      mmHg[workx] := ToMmHg(hPa[workx]);
    }
    RunIsInterpolation(h, leftx, rightx, diff, hPa[..]);
    assert mmHg[..] == ConvertRun(hPa[..], m, leftx, rightx);
  }

  /** Interpolates the run of missing columns that starts at leftx; false where the decoder indexes outside a. */
  method FillHole(a: array<real>, leftx: int) returns (ok: bool)
    requires 0 <= leftx < a.Length && a[leftx] == MISSING
    modifies a
    ensures ok <==> HoleStep(old(a[..]), leftx).Some?
    ensures ok ==> a[..] == HoleStep(old(a[..]), leftx).value
  {
    var rightx := FindRunEnd(a, leftx);
    if rightx == a.Length || leftx == 0 {
      return false;
    }
    InterpolateRun(a, leftx, rightx);
    return true;
  }

  /** Interpolates the run of missing hPa columns that starts at leftx and converts the new values to mmHg. */
  method FillPressureHole(hPa: array<real>, mmHg: array<real>, leftx: int) returns (ok: bool)
    requires hPa != mmHg && hPa.Length == mmHg.Length
    requires 0 <= leftx < hPa.Length && hPa[leftx] == MISSING
    modifies hPa, mmHg
    ensures var s := PressureHoleStep(PressureSeries(old(hPa[..]), old(mmHg[..])), leftx);
      (ok <==> s.Some?) && (ok ==> PressureSeries(hPa[..], mmHg[..]) == s.value)
  {
    var rightx := FindRunEnd(hPa, leftx);
    if rightx == hPa.Length || leftx == 0 {
      return false;
    }
    InterpolatePressureRun(hPa, mmHg, leftx, rightx);
    return true;
  }

  /**
   * The missing-data repair of the temperature-only decoder: both edges of
   * the temperature series, then its holes. False where the decoder indexes
   * outside the series.
   */
  method FixMissingTemperature(temperature: array<real>) returns (ok: bool)
    modifies temperature
    ensures ok <==> FixedTemperature(old(temperature[..])).Some?
    ensures ok ==> temperature[..] == FixedTemperature(old(temperature[..])).value
  {
    FillLeftEdge(temperature);
    FillRightEdge(temperature);
    ghost var e := temperature[..];
    for leftx := 0 to temperature.Length
      invariant FillHolesFrom(temperature[..], leftx) == FillHolesFrom(e, 0)
    {
      if temperature[leftx] == MISSING {
        var filled := FillHole(temperature, leftx);
        if !filled {
          return false;
        }
      }
    }
    return true;
  }

  /**
   * The missing-data repair of the full decoder: both edges of the
   * temperature series, then one pass over the columns repairing the holes
   * of the temperature series and of the pressure series. False where the
   * decoder indexes outside a series.
   */
  method FixMissingData(temperature: array<real>, hPa: array<real>, mmHg: array<real>) returns (ok: bool)
    requires temperature != hPa && temperature != mmHg && hPa != mmHg
    requires temperature.Length == hPa.Length == mmHg.Length
    modifies temperature, hPa, mmHg
    ensures var t, p := FixedTemperature(old(temperature[..])), PressureHolesFrom(PressureSeries(old(hPa[..]), old(mmHg[..])), 0);
      && (ok <==> t.Some? && p.Some?)
      && (ok ==> temperature[..] == t.value && PressureSeries(hPa[..], mmHg[..]) == p.value)
  {
    ghost var p0 := PressureSeries(hPa[..], mmHg[..]);
    FillLeftEdge(temperature);
    FillRightEdge(temperature);
    ghost var e := temperature[..];
    for leftx := 0 to temperature.Length
      invariant FillHolesFrom(temperature[..], leftx) == FillHolesFrom(e, 0)
      invariant PressureHolesFrom(PressureSeries(hPa[..], mmHg[..]), leftx) == PressureHolesFrom(p0, 0)
    {
      if temperature[leftx] == MISSING {
        var filled := FillHole(temperature, leftx);
        if !filled {
          return false;
        }
      }
      if hPa[leftx] == MISSING {
        var filled := FillPressureHole(hPa, mmHg, leftx);
        if !filled {
          return false;
        }
      }
    }
    return true;
  }
}
