/**
 * The per-tick update of the CPU frequency graph (src/cmd/show/cpu.rs) as a
 * function of the series contents, the axes, the elapsed time and the sensor
 * readings, with the properties one tick and a run of ticks keep.
 */
module CpuTick {
  import opened Common

  /** Added to every sampled frequency before it widens the y bounds. */
  const Margin: real := 100000.0

  /** f64::MAX, written out: 2^1024 - 2^971. */
  const F64Max: real := 179769313486231570814527423731704356798070567525844996598917476803157260780028538760589558632766878171540458953514382464234321326889464182768467546703537516986049910576551282076245490090389328944075868508455133942304583236903222948165808559332123348274797826204144723168738177180919299881250404026184124858368.0

  /** The initial x window (0, 30) and y bounds (f64::MAX, 0). */
  const XAxis: (real, real) := (0.0, 30.0)
  const YAxis: (real, real) := (F64Max, 0.0)

  /** The axis state a freshly built CPU monitor starts from. */
  const InitialAxes := Axes(XAxis.0, XAxis.1, YAxis.0, YAxis.1, 0.0)

  /** One core as the sensor library reports it. */
  datatype Core = Core(id: nat, curFreq: nat)

  /** What one sensor read of one core gives: a frequency, or a failure. */
  datatype Reading = Freq(hz: nat) | Failed(cause: string)

  datatype Result<T, E> = Ok(value: T) | Err(error: E)

  /** The error a core's update reports when its sensor read fails. */
  datatype CoreError = UpdateFailed(core: nat, cause: string)

  /**
   * How a tick ends: normally, in the panic of `unwrap` on the `index`-th
   * core's failed read, or in the panic of indexing `stats[0]` with no cores.
   */
  datatype Outcome = Completed | SensorPanic(index: nat) | IndexPanic

  /** The series of all cores (in `stats` order) and the axes. */
  datatype Snapshot = Snapshot(series: seq<seq<Point>>, axes: Axes)

  datatype TickResult = TickResult(outcome: Outcome, after: Snapshot)

  /**
   * The readings the sensor would give for the cores with the given ids, in
   * the order of the ids.
   */
  function Readings(ids: seq<nat>, sensor: nat -> Reading): seq<Reading>
  {
    seq(|ids|, i requires 0 <= i < |ids| => sensor(ids[i]))
  }

  /** The index of the first failed reading, or the number of readings if none failed. */
  function FirstFailure(rs: seq<Reading>): (k: nat)
    ensures k <= |rs|
    ensures forall j :: 0 <= j < k ==> rs[j].Freq?
    ensures k < |rs| ==> rs[k].Failed?
  {
    if |rs| == 0 then 0
    else if rs[0].Failed? then 0
    else 1 + FirstFailure(rs[1..])
  }

  /** The first failure is at `k` exactly when the readings before `k` succeeded and the one at `k` (if any) failed. */
  lemma FirstFailureAt(rs: seq<Reading>, k: nat)
    requires k <= |rs| && (forall j :: 0 <= j < k ==> rs[j].Freq?) && (k < |rs| ==> rs[k].Failed?)
    ensures FirstFailure(rs) == k
  {
  }

  predicate AllRead(rs: seq<Reading>)
  {
    forall j :: 0 <= j < |rs| ==> rs[j].Freq?
  }

  /** The frequencies of successful readings, as reals. */
  function Freqs(rs: seq<Reading>): seq<real>
    requires AllRead(rs)
  {
    seq(|rs|, j requires 0 <= j < |rs| => rs[j].hz as real)
  }

  /**
   * The frequency each core stores after the first `k` reads succeeded: the
   * read value for those cores, the previous one for the rest.
   */
  function Stored(cur: seq<nat>, rs: seq<Reading>, k: nat): (r: seq<nat>)
    requires k <= |rs| == |cur| && forall j :: 0 <= j < k ==> rs[j].Freq?
    ensures |r| == |cur|
    ensures forall j :: 0 <= j < |cur| ==> r[j] == if j < k then rs[j].hz else cur[j]
  {
    if k == 0 then cur else Stored(cur, rs, k - 1)[k - 1 := rs[k - 1].hz]
  }

  /** The first `|fs|` series each with the point (t, fs[j]) appended; the rest unchanged. */
  function Sample(s: seq<seq<Point>>, t: real, fs: seq<real>): (r: seq<seq<Point>>)
    requires |fs| <= |s|
    ensures |r| == |s|
  {
    seq(|s|, j requires 0 <= j < |s| => if j < |fs| then s[j] + [Point(t, fs[j])] else s[j])
  }

  /** The axes after each frequency, plus the margin, has been offered to both y watermarks in turn. */
  function Widen(ax: Axes, fs: seq<real>): (r: Axes)
    ensures r.minY <= ax.minY && r.maxY >= ax.maxY
    ensures r == ax.(minY := r.minY, maxY := r.maxY)
    decreases |fs|
  {
    if fs == [] then ax
    else
      var y := fs[|fs| - 1] + Margin;
      Widen(ax, fs[..|fs| - 1]).RaiseMax(y).LowerMin(y)
  }

  /** Every series with its head evicted. */
  function PopAll(s: seq<seq<Point>>): (r: seq<seq<Point>>)
    ensures |r| == |s|
  {
    seq(|s|, j requires 0 <= j < |s| => PopFront(s[j]).1)
  }

  /**
   * The eviction phase: past the end of the x window, every series loses its
   * head and the window slides by the gap between the first series' evicted
   * point and its new head (not at all if that series is now empty). None when
   * there is no first series to index.
   */
  function Evict(s: seq<seq<Point>>, ax: Axes, t: real): (r: Option<Snapshot>)
    ensures r.None? <==> t > ax.maxX && |s| == 0
    ensures t <= ax.maxX ==> r == Some(Snapshot(s, ax))
    ensures r.Some? && t > ax.maxX ==>
      |r.value.series| == |s| &&
      (forall j :: 0 <= j < |s| ==> r.value.series[j] == PopFront(s[j]).1) &&
      r.value.axes.Width() == ax.Width() && r.value.axes.minY == ax.minY &&
      r.value.axes.maxY == ax.maxY && r.value.axes.total == ax.total
  {
    if t <= ax.maxX then Some(Snapshot(s, ax))
    else if |s| == 0 then None
    else
      var removed := PopFront(s[0]).0;
      var rest := PopFront(s[0]).1;
      Some(Snapshot(PopAll(s), if |rest| > 0 then ax.Translate(rest[0].time - removed.time) else ax))
  }

  /**
   * One tick at elapsed time `t` with the readings `rs` of the cores in order:
   * sample every core up to the first failed read, then evict if the tick completed
   * sampling.
   */
  function Tick(before: Snapshot, t: real, rs: seq<Reading>): (r: TickResult)
    requires |rs| == |before.series|
    ensures |r.after.series| == |before.series|
  {
    var k := FirstFailure(rs);
    var fs := Freqs(rs[..k]);
    var sampled := Snapshot(Sample(before.series, t, fs), Widen(before.axes, fs));
    if k < |rs| then TickResult(SensorPanic(k), sampled)
    else match Evict(sampled.series, sampled.axes, t)
      case None => TickResult(IndexPanic, sampled)
      case Some(after) => TickResult(Completed, after)
  }

  // ---------------------------------------------------------------------------
  // Watermarks

  /**
   * After offering `fs` to the watermarks: the bounds only widened, each offered
   * value lies within them, each bound is its old value or one of the offered
   * values, and the x window and elapsed time are untouched.
   */
  lemma {:induction false} WidenBounds(ax: Axes, fs: seq<real>)
    ensures var r := Widen(ax, fs);
      r.minX == ax.minX && r.maxX == ax.maxX && r.total == ax.total &&
      r.minY <= ax.minY && r.maxY >= ax.maxY &&
      (forall j :: 0 <= j < |fs| ==> r.minY <= fs[j] + Margin <= r.maxY) &&
      (r.maxY == ax.maxY || exists j :: 0 <= j < |fs| && r.maxY == fs[j] + Margin) &&
      (r.minY == ax.minY || exists j :: 0 <= j < |fs| && r.minY == fs[j] + Margin)
    decreases |fs|
  {
    if fs != [] {
      var init := fs[..|fs| - 1];
      WidenBounds(ax, init);
      var r := Widen(ax, fs);
      assert forall j :: 0 <= j < |init| ==> init[j] == fs[j];
      if r.maxY != ax.maxY && r.maxY != fs[|fs| - 1] + Margin {
        var j :| 0 <= j < |init| && Widen(ax, init).maxY == init[j] + Margin;
        assert r.maxY == fs[j] + Margin;
      }
      if r.minY != ax.minY && r.minY != fs[|fs| - 1] + Margin {
        var j :| 0 <= j < |init| && Widen(ax, init).minY == init[j] + Margin;
        assert r.minY == fs[j] + Margin;
      }
    }
  }

  /** Once at least one value has been offered, the lower y bound is at most the upper one. */
  lemma WidenOrdersY(ax: Axes, fs: seq<real>)
    requires fs != []
    ensures Widen(ax, fs).minY <= Widen(ax, fs).maxY
  {
    WidenBounds(ax, fs);
    assert Widen(ax, fs).minY <= fs[0] + Margin <= Widen(ax, fs).maxY;
  }

  // ---------------------------------------------------------------------------
  // One tick

  /**
   * Sampling keeps every series' old points as a prefix: each of the first
   * `|fs|` series gains exactly the point (t, fs[j]) and the others are
   * unchanged.
   */
  lemma SampleLengths(s: seq<seq<Point>>, t: real, fs: seq<real>)
    requires |fs| <= |s|
    ensures forall j :: 0 <= j < |s| ==> |Sample(s, t, fs)[j]| == |s[j]| + (if j < |fs| then 1 else 0)
    ensures forall j :: 0 <= j < |s| ==> Sample(s, t, fs)[j][..|s[j]|] == s[j]
    ensures forall j :: 0 <= j < |fs| ==> Sample(s, t, fs)[j][|s[j]|] == Point(t, fs[j])
  {
    forall j | 0 <= j < |fs|
      ensures Sample(s, t, fs)[j][..|s[j]|] == s[j]
    {
      assert Sample(s, t, fs)[j] == s[j] + [Point(t, fs[j])];
    }
  }

  /**
   * A failed read of the k-th core ends the tick in a panic after cores 0..k-1
   * have each gained their point and widened the y bounds; core k and later
   * are untouched and nothing is evicted, so the x window stays put.
   */
  lemma TickSensorFailure(before: Snapshot, t: real, rs: seq<Reading>, k: nat)
    requires |rs| == |before.series|
    requires k < |rs| && rs[k].Failed? && forall j :: 0 <= j < k ==> rs[j].Freq?
    ensures var r := Tick(before, t, rs);
      r.outcome == SensorPanic(k) &&
      (forall j :: 0 <= j < k ==> r.after.series[j] == before.series[j] + [Point(t, rs[j].hz as real)]) &&
      (forall j :: k <= j < |rs| ==> r.after.series[j] == before.series[j]) &&
      r.after.axes == Widen(before.axes, Freqs(rs[..k])) &&
      r.after.axes.minX == before.axes.minX && r.after.axes.maxX == before.axes.maxX
  {
    assert FirstFailure(rs) == k;
    WidenBounds(before.axes, Freqs(rs[..k]));
  }

  /**
   * Within the window (t <= max_x) every core gains exactly its point (t, f)
   * and nothing is evicted; the x window does not move.
   */
  lemma TickInWindow(before: Snapshot, t: real, rs: seq<Reading>)
    requires |rs| == |before.series| && AllRead(rs)
    requires t <= before.axes.maxX
    ensures var r := Tick(before, t, rs);
      r.outcome == Completed &&
      (forall j :: 0 <= j < |rs| ==> r.after.series[j] == before.series[j] + [Point(t, rs[j].hz as real)]) &&
      r.after.axes.minX == before.axes.minX && r.after.axes.maxX == before.axes.maxX
  {
    assert FirstFailure(rs) == |rs|;
    assert rs[..|rs|] == rs;
    WidenBounds(before.axes, Freqs(rs));
  }

  /**
   * Past the window (t > max_x) with at least one core: every core gains its
   * point and then loses exactly its oldest one, and the window slides by the
   * gap between the first core's two oldest points (the one evicted and the
   * new head), or stays if the first core is left empty.
   */
  lemma TickSlides(before: Snapshot, t: real, rs: seq<Reading>)
    requires |rs| == |before.series| && AllRead(rs) && |rs| > 0
    requires t > before.axes.maxX
    ensures var r := Tick(before, t, rs);
      var s0 := before.series[0] + [Point(t, rs[0].hz as real)];
      r.outcome == Completed &&
      (forall j :: 0 <= j < |rs| ==> r.after.series[j] == (before.series[j] + [Point(t, rs[j].hz as real)])[1..]) &&
      r.after.axes.Width() == before.axes.Width() &&
      r.after.axes.minX == before.axes.minX + (if |s0| > 1 then s0[1].time - s0[0].time else 0.0)
  {
    assert FirstFailure(rs) == |rs|;
    assert rs[..|rs|] == rs;
    WidenBounds(before.axes, Freqs(rs));
  }

  /** With no cores, a tick past the window panics on `stats[0]`. */
  lemma TickNoCores(before: Snapshot, t: real)
    requires before.series == []
    ensures Tick(before, t, []).outcome == (if t > before.axes.maxX then IndexPanic else Completed)
  {
  }

  /**
   * Lock-step lengths: if every series holds L points before a completed tick,
   * every series holds L + 1 points after it (t within the window) or still L
   * (t past the window).
   */
  lemma TickKeepsLockStep(before: Snapshot, t: real, rs: seq<Reading>, L: nat)
    requires |rs| == |before.series|
    requires forall j :: 0 <= j < |rs| ==> |before.series[j]| == L
    requires Tick(before, t, rs).outcome == Completed
    ensures forall j :: 0 <= j < |rs| ==>
      |Tick(before, t, rs).after.series[j]| == if t > before.axes.maxX then L else L + 1
  {
    var k := FirstFailure(rs);
    assert rs[..k] == rs;
    if t > before.axes.maxX {
      TickSlides(before, t, rs);
    } else {
      TickInWindow(before, t, rs);
    }
  }

  /** No tick, whatever its outcome, changes the width of the x window. */
  lemma TickKeepsWidth(before: Snapshot, t: real, rs: seq<Reading>)
    requires |rs| == |before.series|
    ensures Tick(before, t, rs).after.axes.Width() == before.axes.Width()
  {
    var k := FirstFailure(rs);
    var fs := Freqs(rs[..k]);
    WidenBounds(before.axes, fs);
  }

  /**
   * The y bounds of a tick are watermarks: they never shrink, and after a
   * completed tick every sampled frequency plus the margin lies within them,
   * so with at least one core the lower bound is at most the upper one, even
   * though the initial bounds are (f64::MAX, 0).
   */
  lemma TickWatermarks(before: Snapshot, t: real, rs: seq<Reading>)
    requires |rs| == |before.series|
    ensures var r := Tick(before, t, rs);
      r.after.axes.minY <= before.axes.minY && r.after.axes.maxY >= before.axes.maxY &&
      r.after.axes.total == before.axes.total
    ensures var r := Tick(before, t, rs);
      r.outcome == Completed ==>
        (forall j :: 0 <= j < |rs| ==>
           rs[j].Freq? && r.after.axes.minY <= rs[j].hz as real + Margin <= r.after.axes.maxY) &&
        (|rs| > 0 ==> r.after.axes.minY <= r.after.axes.maxY)
  {
    var k := FirstFailure(rs);
    var fs := Freqs(rs[..k]);
    WidenBounds(before.axes, fs);
    if Tick(before, t, rs).outcome == Completed {
      assert k == |rs| && rs[..k] == rs;
      assert forall j :: 0 <= j < |rs| ==> fs[j] == rs[j].hz as real;
    }
  }

  /** A series whose timestamps never decrease and none of which exceeds `t`. */
  predicate TimeOrdered(s: seq<Point>, t: real)
  {
    (forall i, j :: 0 <= i < j < |s| ==> s[i].time <= s[j].time) &&
    (forall i :: 0 <= i < |s| ==> s[i].time <= t)
  }

  /**
   * When the first series' timestamps never decrease and none is later than
   * the tick's, a completed tick never slides the window backwards.
   */
  lemma TickShiftNonNegative(before: Snapshot, t: real, rs: seq<Reading>)
    requires |rs| == |before.series| && |rs| > 0
    requires TimeOrdered(before.series[0], t)
    requires Tick(before, t, rs).outcome == Completed
    ensures Tick(before, t, rs).after.axes.minX >= before.axes.minX
  {
    var k := FirstFailure(rs);
    assert rs[..k] == rs;
    if t > before.axes.maxX {
      TickSlides(before, t, rs);
    } else {
      TickInWindow(before, t, rs);
    }
  }

  lemma AppendKeepsTimeOrder(s: seq<Point>, t: real, v: real, t': real)
    requires TimeOrdered(s, t) && t <= t'
    ensures TimeOrdered(s + [Point(t, v)], t')
  {
  }

  lemma PopKeepsTimeOrder(s: seq<Point>, t: real)
    requires TimeOrdered(s, t)
    ensures TimeOrdered(PopFront(s).1, t)
  {
  }

  /**
   * Appending at a time no earlier than every stored point keeps every series
   * time-ordered, and so does evicting.
   */
  lemma TickKeepsTimeOrder(before: Snapshot, t: real, rs: seq<Reading>, t': real)
    requires |rs| == |before.series| && t <= t'
    requires forall j :: 0 <= j < |rs| ==> TimeOrdered(before.series[j], t)
    ensures forall j :: 0 <= j < |rs| ==> TimeOrdered(Tick(before, t, rs).after.series[j], t')
  {
    var k := FirstFailure(rs);
    var fs := Freqs(rs[..k]);
    var sampled := Sample(before.series, t, fs);
    var after := Tick(before, t, rs).after.series;
    forall j | 0 <= j < |rs|
      ensures TimeOrdered(after[j], t')
    {
      if j < |fs| {
        assert sampled[j] == before.series[j] + [Point(t, fs[j])];
        AppendKeepsTimeOrder(before.series[j], t, fs[j], t');
      } else {
        assert sampled[j] == before.series[j];
      }
      assert TimeOrdered(sampled[j], t');
      PopKeepsTimeOrder(sampled[j], t');
      assert after[j] == sampled[j] || after[j] == PopFront(sampled[j]).1;
    }
  }

  // ---------------------------------------------------------------------------
  // A run of ticks

  /** The elapsed time and the readings of one tick. */
  datatype TickInput = TickInput(t: real, readings: seq<Reading>)

  predicate Fits(ins: seq<TickInput>, cores: nat)
  {
    forall i :: 0 <= i < |ins| ==> |ins[i].readings| == cores
  }

  /** Successive ticks, stopping at the first one that panics. */
  function Run(s: Snapshot, ins: seq<TickInput>): (r: TickResult)
    requires Fits(ins, |s.series|)
    ensures |r.after.series| == |s.series|
    decreases |ins|
  {
    if ins == [] then TickResult(Completed, s)
    else
      var r := Tick(s, ins[0].t, ins[0].readings);
      if r.outcome != Completed then r else Run(r.after, ins[1..])
  }

  /** All series of equal length. */
  predicate LockStep(s: seq<seq<Point>>)
  {
    forall i, j :: 0 <= i < |s| && 0 <= j < |s| ==> |s[i]| == |s[j]|
  }

  /** Series that start in lock-step stay in lock-step through every completed run. */
  lemma {:induction false} RunKeepsLockStep(s: Snapshot, ins: seq<TickInput>)
    requires Fits(ins, |s.series|) && LockStep(s.series)
    requires Run(s, ins).outcome == Completed
    ensures LockStep(Run(s, ins).after.series)
    decreases |ins|
  {
    if ins != [] && s.series != [] {
      var L := |s.series[0]|;
      TickKeepsLockStep(s, ins[0].t, ins[0].readings, L);
      RunKeepsLockStep(Tick(s, ins[0].t, ins[0].readings).after, ins[1..]);
    }
  }

  /** The x window keeps its width through any run, whatever its outcome. */
  lemma {:induction false} RunKeepsWidth(s: Snapshot, ins: seq<TickInput>)
    requires Fits(ins, |s.series|)
    ensures Run(s, ins).after.axes.Width() == s.axes.Width()
    decreases |ins|
  {
    if ins != [] {
      TickKeepsWidth(s, ins[0].t, ins[0].readings);
      if Tick(s, ins[0].t, ins[0].readings).outcome == Completed {
        RunKeepsWidth(Tick(s, ins[0].t, ins[0].readings).after, ins[1..]);
      }
    }
  }

  /** Through any run the upper y bound never decreases and the lower one never increases. */
  lemma {:induction false} RunWatermarksMonotone(s: Snapshot, ins: seq<TickInput>)
    requires Fits(ins, |s.series|)
    ensures Run(s, ins).after.axes.maxY >= s.axes.maxY
    ensures Run(s, ins).after.axes.minY <= s.axes.minY
    decreases |ins|
  {
    if ins != [] {
      TickWatermarks(s, ins[0].t, ins[0].readings);
      if Tick(s, ins[0].t, ins[0].readings).outcome == Completed {
        RunWatermarksMonotone(Tick(s, ins[0].t, ins[0].readings).after, ins[1..]);
      }
    }
  }

  /** Tick times that never decrease. */
  predicate Chronological(ins: seq<TickInput>)
  {
    forall i, j :: 0 <= i < j < |ins| ==> ins[i].t <= ins[j].t
  }

  /**
   * With non-decreasing tick times, every series stays time-ordered and the
   * window never slides backwards, through every completed tick of the run.
   */
  lemma {:induction false} RunKeepsTimeOrder(s: Snapshot, ins: seq<TickInput>, t0: real)
    requires Fits(ins, |s.series|) && Chronological(ins)
    requires ins != [] ==> t0 <= ins[0].t
    requires forall j :: 0 <= j < |s.series| ==> TimeOrdered(s.series[j], t0)
    ensures var last := if ins == [] then t0 else ins[|ins| - 1].t;
      forall j :: 0 <= j < |s.series| ==> TimeOrdered(Run(s, ins).after.series[j], last)
    ensures |s.series| > 0 ==> Run(s, ins).after.axes.minX >= s.axes.minX
    decreases |ins|
  {
    if ins != [] {
      var t := ins[0].t;
      var rs := ins[0].readings;
      var next := if |ins| > 1 then ins[1].t else t;
      forall j | 0 <= j < |s.series| ensures TimeOrdered(s.series[j], t) {
        assert TimeOrdered(s.series[j], t0);
      }
      TickKeepsTimeOrder(s, t, rs, next);
      var r := Tick(s, t, rs);
      if r.outcome == Completed {
        if |s.series| > 0 {
          TickShiftNonNegative(s, t, rs);
        }
        RunKeepsTimeOrder(r.after, ins[1..], next);
      } else {
        TickKeepsTimeOrder(s, t, rs, ins[|ins| - 1].t);
        TickKeepsWidth(s, t, rs);
        var k := FirstFailure(rs);
        if k < |rs| {
          TickSensorFailure(s, t, rs, k);
        }
      }
    }
  }

  // ---------------------------------------------------------------------------
  // Scenarios

  /** One tick of the run, then the rest. */
  lemma RunStep(s: Snapshot, ins: seq<TickInput>)
    requires ins != [] && Fits(ins, |s.series|)
    requires Tick(s, ins[0].t, ins[0].readings).outcome == Completed
    ensures Run(s, ins) == Run(Tick(s, ins[0].t, ins[0].readings).after, ins[1..])
  {
  }

  /**
   * A single core sampled at t = 0, 1, 2 on the initial (0, 30) window: three
   * points, no eviction, window unchanged.
   */
  lemma SteadyStream(a: nat, b: nat, c: nat)
    ensures var r := Run(Snapshot([[]], InitialAxes),
                         [TickInput(0.0, [Freq(a)]), TickInput(1.0, [Freq(b)]), TickInput(2.0, [Freq(c)])]);
      r.outcome == Completed &&
      r.after.series == [[Point(0.0, a as real), Point(1.0, b as real), Point(2.0, c as real)]] &&
      r.after.axes.minX == 0.0 && r.after.axes.maxX == 30.0
  {
    var ins := [TickInput(0.0, [Freq(a)]), TickInput(1.0, [Freq(b)]), TickInput(2.0, [Freq(c)])];
    var s0 := Snapshot([[]], InitialAxes);
    TickInWindow(s0, 0.0, [Freq(a)]);
    var s1 := Tick(s0, 0.0, [Freq(a)]).after;
    assert s1.series[0] == [Point(0.0, a as real)];
    assert s1.series == [[Point(0.0, a as real)]];
    TickInWindow(s1, 1.0, [Freq(b)]);
    var s2 := Tick(s1, 1.0, [Freq(b)]).after;
    assert s2.series[0] == [Point(0.0, a as real), Point(1.0, b as real)];
    assert s2.series == [[Point(0.0, a as real), Point(1.0, b as real)]];
    TickInWindow(s2, 2.0, [Freq(c)]);
    var s3 := Tick(s2, 2.0, [Freq(c)]).after;
    assert s3.series[0] == [Point(0.0, a as real), Point(1.0, b as real), Point(2.0, c as real)];
    assert s3.series == [[Point(0.0, a as real), Point(1.0, b as real), Point(2.0, c as real)]];
    RunStep(s0, ins);
    RunStep(s1, ins[1..]);
    RunStep(s2, ins[1..][1..]);
    assert ins[1..][1..][1..] == [];
  }

  /** Two cores whose last two points sit one second apart at the end of a window of width 1. */
  predicate TwoCoresFull(s: Snapshot, t: real, a: real, b: real)
  {
    s.series == [[Point(t - 1.0, a), Point(t, a)], [Point(t - 1.0, b), Point(t, b)]] &&
    s.axes.minX == t - 1.0 && s.axes.maxX == t
  }

  /** One tick a second later on such a state evicts from both cores and slides the window by one second. */
  lemma TwoCoresSlideStep(s: Snapshot, t: real, a: nat, b: nat)
    requires TwoCoresFull(s, t, a as real, b as real)
    ensures Tick(s, t + 1.0, [Freq(a), Freq(b)]).outcome == Completed
    ensures TwoCoresFull(Tick(s, t + 1.0, [Freq(a), Freq(b)]).after, t + 1.0, a as real, b as real)
  {
    var rs := [Freq(a), Freq(b)];
    TickSlides(s, t + 1.0, rs);
    var after := Tick(s, t + 1.0, rs).after;
    assert after.series[0] == [Point(t, a as real), Point(t + 1.0, a as real)];
    assert after.series[1] == [Point(t, b as real), Point(t + 1.0, b as real)];
  }

  /** The first two ticks, at t = 0 and t = 1, only append. */
  lemma TwoCoresFill(a: nat, b: nat)
    ensures var s0 := Snapshot([[], []], Axes(0.0, 1.0, F64Max, 0.0, 0.0));
      var r0 := Tick(s0, 0.0, [Freq(a), Freq(b)]);
      r0.outcome == Completed &&
      Tick(r0.after, 1.0, [Freq(a), Freq(b)]).outcome == Completed &&
      TwoCoresFull(Tick(r0.after, 1.0, [Freq(a), Freq(b)]).after, 1.0, a as real, b as real)
  {
    var rs := [Freq(a), Freq(b)];
    var s0 := Snapshot([[], []], Axes(0.0, 1.0, F64Max, 0.0, 0.0));
    TickInWindow(s0, 0.0, rs);
    var s1 := Tick(s0, 0.0, rs).after;
    assert s1.series[0] == [Point(0.0, a as real)];
    assert s1.series[1] == [Point(0.0, b as real)];
    TickInWindow(s1, 1.0, rs);
    var s2 := Tick(s1, 1.0, rs).after;
    assert s2.series[0] == [Point(0.0, a as real), Point(1.0, a as real)];
    assert s2.series[1] == [Point(0.0, b as real), Point(1.0, b as real)];
  }

  /**
   * Two cores on a window of width 1, sampled every second from t = 0 to 3:
   * from t = 2 on, each tick evicts one point from both cores, which stay at
   * two points each, and the window slides by one second per tick.
   */
  lemma WindowSlides(a: nat, b: nat)
    ensures var rs := [Freq(a), Freq(b)];
      var r := Run(Snapshot([[], []], Axes(0.0, 1.0, F64Max, 0.0, 0.0)),
                   [TickInput(0.0, rs), TickInput(1.0, rs), TickInput(2.0, rs), TickInput(3.0, rs)]);
      r.outcome == Completed &&
      r.after.series == [[Point(2.0, a as real), Point(3.0, a as real)],
                         [Point(2.0, b as real), Point(3.0, b as real)]] &&
      r.after.axes.minX == 2.0 && r.after.axes.maxX == 3.0
  {
    var rs := [Freq(a), Freq(b)];
    var ins := [TickInput(0.0, rs), TickInput(1.0, rs), TickInput(2.0, rs), TickInput(3.0, rs)];
    var s0 := Snapshot([[], []], Axes(0.0, 1.0, F64Max, 0.0, 0.0));
    TwoCoresFill(a, b);
    var s1 := Tick(s0, 0.0, rs).after;
    var s2 := Tick(s1, 1.0, rs).after;
    TwoCoresSlideStep(s2, 1.0, a, b);
    var s3 := Tick(s2, 2.0, rs).after;
    TwoCoresSlideStep(s3, 2.0, a, b);
    var s4 := Tick(s3, 3.0, rs).after;
    RunStep(s0, ins);
    RunStep(s1, ins[1..]);
    RunStep(s2, ins[1..][1..]);
    RunStep(s3, ins[1..][1..][1..]);
    assert ins[1..][1..][1..][1..] == [];
  }
}
