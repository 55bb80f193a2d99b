/**
 * The CPU frequency monitor (src/cmd/show/cpu.rs): one series per core, kept
 * in ascending core-id order, and the per-tick update that samples every core
 * and slides the graph's window. Each state change is proved to follow
 * CpuTick.Tick.
 */
module Cpu {
  import opened Common
  import opened CpuTick

  /** The statistics of one core: its sensor state and its graph series. */
  class CoreStat {
    var core: Core
    const data: DataSeries

    /** A core's statistics start with an empty series. */
    constructor (core: Core)
      ensures this.core == core && fresh(data) && data.Valid() && data.data == []
    {
      this.core := core;
      data := new DataSeries();
    }

    /**
     * Reads the core's sensor once. On failure nothing changes and the error
     * names the core; on success the new frequency is stored, one point (time,
     * frequency) is appended and the frequency is returned.
     */
    method Update(time: real, sensor: nat -> Reading) returns (r: Result<real, CoreError>)
      requires data.Valid()
      modifies this, data
      ensures data.Valid()
      ensures match sensor(old(core.id))
        case Failed(cause) =>
          r == Err(UpdateFailed(old(core.id), cause)) && core == old(core) && data.data == old(data.data)
        case Freq(hz) =>
          r == Ok(hz as real) && core == old(core).(curFreq := hz) &&
          data.data == old(data.data) + [Point(time, hz as real)]
    {
      var reading := sensor(core.id);
      if reading.Failed? {
        return Err(UpdateFailed(core.id, reading.cause));
      }
      core := core.(curFreq := reading.hz);
      AddCurrent(time);
      r := Ok(core.curFreq as real);
    }

    /** Appends the stored current frequency at `time`. */
    method AddCurrent(time: real)
      requires data.Valid()
      modifies data
      ensures data.Valid()
      ensures data.data == old(data.data) + [Point(time, core.curFreq as real)]
    {
      data.Add(time, core.curFreq as real);
    }
  }

  /** Core statistics in ascending core-id order. */
  ghost predicate SortedById(stats: seq<CoreStat>)
    reads set i | 0 <= i < |stats| :: stats[i]
  {
    forall i, j :: 0 <= i < j < |stats| ==> stats[i].core.id <= stats[j].core.id
  }

  /** Pairwise different objects. */
  ghost predicate Distinct(stats: seq<CoreStat>)
  {
    forall i, j :: 0 <= i < j < |stats| ==> stats[i] != stats[j]
  }

  ghost function CoresOf(stats: seq<CoreStat>): seq<Core>
    reads set i | 0 <= i < |stats| :: stats[i]
  {
    seq(|stats|, i requires 0 <= i < |stats| reads set k | 0 <= k < |stats| :: stats[k] => stats[i].core)
  }

  /**
   * Inserts `x` into statistics already ordered by id, after every entry whose
   * id is not greater than its own: the result is still ordered by id and
   * holds exactly one more object, `x`, and one more core, `x.core`.
   */
  method InsertById(sorted: seq<CoreStat>, x: CoreStat) returns (r: seq<CoreStat>)
    requires SortedById(sorted)
    ensures SortedById(r)
    ensures multiset(r) == multiset(sorted) + multiset{x}
    ensures multiset(CoresOf(r)) == multiset(CoresOf(sorted)) + multiset{x.core}
    ensures Distinct(sorted) && x !in sorted ==> Distinct(r)
  {
    var k := |sorted|;
    while k > 0 && sorted[k - 1].core.id > x.core.id
      invariant 0 <= k <= |sorted|
      invariant forall j :: k <= j < |sorted| ==> sorted[j].core.id > x.core.id
    {
      k := k - 1;
    }
    r := sorted[..k] + [x] + sorted[k..];
    forall a, b | 0 <= a < b < |r|
      ensures r[a].core.id <= r[b].core.id
    {
      if b < k {
        assert r[a] == sorted[a] && r[b] == sorted[b];
      } else if b == k {
        assert r[a] == sorted[a];
      } else if a < k {
        assert r[a] == sorted[a] && r[b] == sorted[b - 1];
      } else if a == k {
        assert r[b] == sorted[b - 1];
      } else {
        assert r[a] == sorted[a - 1] && r[b] == sorted[b - 1];
      }
    }
    InsertKeepsContents(sorted, k, x);
    if Distinct(sorted) && x !in sorted {
      InsertKeepsDistinct(sorted, k, x);
    }
  }

  /** Inserting an object not yet present keeps the objects pairwise different. */
  lemma InsertKeepsDistinct(s: seq<CoreStat>, k: nat, x: CoreStat)
    requires k <= |s| && Distinct(s) && x !in s
    ensures Distinct(s[..k] + [x] + s[k..])
  {
    var r := s[..k] + [x] + s[k..];
    forall a, b | 0 <= a < b < |r|
      ensures r[a] != r[b]
    {
      var ia := if a < k then a else a - 1;
      var ib := if b < k then b else b - 1;
      if a != k && b != k {
        assert r[a] == s[ia] && r[b] == s[ib];
      } else if a == k {
        assert r[b] == s[ib];
      } else {
        assert r[a] == s[ia];
      }
    }
  }

  /** Inserting a core's statistics adds exactly that object, and that core, to the multisets. */
  lemma InsertKeepsContents(s: seq<CoreStat>, k: nat, x: CoreStat)
    requires k <= |s|
    ensures multiset(s[..k] + [x] + s[k..]) == multiset(s) + multiset{x}
    ensures multiset(CoresOf(s[..k] + [x] + s[k..])) == multiset(CoresOf(s)) + multiset{x.core}
  {
    var t := s[..k] + [x] + s[k..];
    assert s == s[..k] + s[k..];
    assert CoresOf(t) == CoresOf(s)[..k] + [x.core] + CoresOf(s)[k..];
    assert CoresOf(s) == CoresOf(s)[..k] + CoresOf(s)[k..];
  }

  /**
   * The next object of a sequence of different objects is not among those
   * already taken, and taking it adds exactly it and its core to the multisets.
   */
  lemma TakeNext(stats: seq<CoreStat>, i: nat, prev: seq<CoreStat>)
    requires i < |stats| && Distinct(stats) && multiset(prev) == multiset(stats[..i])
    ensures stats[i] !in prev
    ensures multiset(stats[..i + 1]) == multiset(stats[..i]) + multiset{stats[i]}
    ensures multiset(CoresOf(stats[..i + 1])) == multiset(CoresOf(stats[..i])) + multiset{stats[i].core}
  {
    var x := stats[i];
    assert x !in prev by {
      assert forall j :: 0 <= j < i ==> stats[j] != x;
      assert x !in multiset(stats[..i]);
    }
    assert stats[..i + 1] == stats[..i] + [x];
    assert CoresOf(stats[..i + 1]) == CoresOf(stats[..i]) + [x.core];
  }

  /** `sorted` is the first `i` of `stats`, ordered by id. */
  ghost predicate SortedPrefix(stats: seq<CoreStat>, i: nat, sorted: seq<CoreStat>)
    reads (set k | 0 <= k < |stats| :: stats[k]), (set k | 0 <= k < |sorted| :: sorted[k])
  {
    i <= |stats| &&
    SortedById(sorted) && Distinct(sorted) &&
    multiset(sorted) == multiset(stats[..i]) &&
    multiset(CoresOf(sorted)) == multiset(CoresOf(stats[..i]))
  }

  /** One step of the insertion sort: the next object joins the sorted prefix. */
  method InsertNext(stats: seq<CoreStat>, i: nat, sorted: seq<CoreStat>) returns (r: seq<CoreStat>)
    requires i < |stats| && Distinct(stats) && SortedPrefix(stats, i, sorted)
    ensures SortedPrefix(stats, i + 1, r)
  {
    TakeNext(stats, i, sorted);
    r := InsertById(sorted, stats[i]);
  }

  /**
   * Sorts core statistics by core id, ascending: the result is ordered by id
   * and holds the same objects, and so the same cores.
   */
  method SortById(stats: seq<CoreStat>) returns (sorted: seq<CoreStat>)
    requires Distinct(stats)
    ensures SortedById(sorted) && Distinct(sorted)
    ensures multiset(sorted) == multiset(stats)
    ensures multiset(CoresOf(sorted)) == multiset(CoresOf(stats))
  {
    sorted := [];
    for i := 0 to |stats|
      invariant SortedPrefix(stats, i, sorted)
    {
      sorted := InsertNext(stats, i, sorted);
    }
    assert stats[..|stats|] == stats;
  }

  /** Sequences holding the same multiset hold the same members. */
  lemma SameMembers(a: seq<CoreStat>, b: seq<CoreStat>)
    requires multiset(a) == multiset(b)
    ensures forall x :: x in a <==> x in b
  {
    forall x
      ensures x in a <==> x in b
    {
      assert x in a <==> x in multiset(a);
    }
  }

  /** Statistics objects that never share a series. */
  ghost predicate SeparateSeries(stats: seq<CoreStat>)
  {
    forall a, b :: a in stats && b in stats && a != b ==> a.data != b.data
  }

  /** Creates one statistics object, with a fresh empty series, per core, in the order given. */
  method NewStats(cores: seq<Core>) returns (created: seq<CoreStat>)
    ensures CoresOf(created) == cores
    ensures Distinct(created) && SeparateSeries(created)
    ensures forall a :: a in created ==> fresh(a) && fresh(a.data) && a.data.Valid() && a.data.data == []
  {
    created := [];
    for i := 0 to |cores|
      invariant CoresOf(created) == cores[..i]
      invariant Distinct(created) && SeparateSeries(created)
      invariant forall a :: a in created ==> fresh(a) && fresh(a.data) && a.data.Valid() && a.data.data == []
    {
      var stat := new CoreStat(cores[i]);
      created := created + [stat];
    }
    assert cores[..|cores|] == cores;
  }

  /**
   * Fresh statistics with empty series for the given cores, sorted by core
   * id, no two sharing an object or a series.
   */
  method NewSortedStats(cores: seq<Core>) returns (sorted: seq<CoreStat>)
    ensures SortedById(sorted) && multiset(CoresOf(sorted)) == multiset(cores)
    ensures forall i, j :: 0 <= i < j < |sorted| ==> sorted[i] != sorted[j] && sorted[i].data != sorted[j].data
    ensures forall i :: 0 <= i < |sorted| ==>
      fresh(sorted[i]) && fresh(sorted[i].data) && sorted[i].data.Valid() && sorted[i].data.data == []
  {
    var created := NewStats(cores);
    sorted := SortById(created);
    SameMembers(sorted, created);
    assert forall i :: 0 <= i < |sorted| ==> sorted[i] in created;
  }

  /** The CPU frequency graph: the per-core statistics and the shared axes. */
  class CpuMonitor {
    const stats: seq<CoreStat>
    const m: Monitor

    ghost function Cores(): set<CoreStat>
    {
      set i | 0 <= i < |stats| :: stats[i]
    }

    ghost function Series(): set<DataSeries>
    {
      set i | 0 <= i < |stats| :: stats[i].data
    }

    /**
     * Every series keeps its count, no two cores share statistics or a series,
     * and the cores are in ascending id order, so stats[0] is the lowest-id core.
     */
    ghost predicate Valid()
      reads Cores(), Series()
    {
      m.Valid() &&
      (forall i :: 0 <= i < |stats| ==> stats[i].data.Valid()) &&
      (forall i, j :: 0 <= i < j < |stats| ==> stats[i] != stats[j] && stats[i].data != stats[j].data) &&
      SortedById(stats)
    }

    /** The ids of the cores, in `stats` order. */
    ghost function Ids(): seq<nat>
      reads Cores()
    {
      seq(|stats|, i requires 0 <= i < |stats| reads Cores() => stats[i].core.id)
    }

    /** The points of every core's series, in `stats` order. */
    ghost function SeriesData(): seq<seq<Point>>
      reads Series()
    {
      seq(|stats|, i requires 0 <= i < |stats| reads Series() => stats[i].data.data)
    }

    /** The current frequency each core last stored, in `stats` order. */
    ghost function CurFreqs(): seq<nat>
      reads Cores()
    {
      seq(|stats|, i requires 0 <= i < |stats| reads Cores() => stats[i].core.curFreq)
    }

    ghost function Snap(): Snapshot
      reads Series(), m, m.xAxis, m.yAxis
      requires m.Valid()
    {
      Snapshot(SeriesData(), m.View())
    }

    /**
     * One statistics object per reported core, ordered by core id, every
     * series empty; the window is (0, 30) and the y bounds (f64::MAX, 0).
     */
    constructor (cores: seq<Core>)
      ensures Valid()
      ensures fresh(m) && fresh(m.xAxis) && fresh(m.yAxis) && fresh(Cores()) && fresh(Series())
      ensures multiset(CoresOf(stats)) == multiset(cores)
      ensures forall i :: 0 <= i < |stats| ==> stats[i].data.data == []
      ensures m.View() == InitialAxes
    {
      var sorted := NewSortedStats(cores);
      stats := sorted;
      m := new Monitor(XAxis, YAxis);
    }

    /**
     * One tick at elapsed time `t`, with `sensor` giving each core's reading
     * (by core id): every core in order is read, gains the point (t, frequency)
     * and widens the y bounds by it plus the margin; a failed read panics
     * there. Past the end of the window the lowest-id core's oldest point is
     * evicted, the window slides by the gap to its new oldest point, and every
     * other core's oldest point is evicted too. The resulting state and
     * outcome are those of CpuTick.Tick.
     */
    method Update(t: real, sensor: nat -> Reading) returns (outcome: Outcome)
      requires Valid()
      modifies m.xAxis, m.yAxis, Cores(), Series()
      ensures Valid() && Ids() == old(Ids())
      ensures var r := Tick(old(Snap()), t, Readings(old(Ids()), sensor));
        outcome == r.outcome && Snap() == r.after
      ensures var rs := Readings(old(Ids()), sensor);
        CurFreqs() == Stored(old(CurFreqs()), rs, FirstFailure(rs))
    {
      var failed := SampleAll(t, sensor);
      if failed.Some? {
        outcome := SensorPanic(failed.value);
        return;
      }
      if t > m.MaxX() {
        if |stats| == 0 {
          outcome := IndexPanic;
          return;
        }
        EvictOldest(t);
      }
      outcome := Completed;
    }

    /**
     * The sampling loop of `CpuMonitor::update`: the cores are read in
     * order, each gaining its point and widening the y bounds, until the
     * first failed read, whose index is returned. The state reached is the sampled snapshot of
     * CpuTick.Tick.
     */
    method SampleAll(t: real, sensor: nat -> Reading) returns (failed: Option<nat>)
      requires Valid()
      modifies m.yAxis, Cores(), Series()
      ensures Ids() == old(Ids())
      ensures var rs := Readings(old(Ids()), sensor);
        var k := FirstFailure(rs);
        (failed.Some? <==> k < |rs|) && (failed.Some? ==> failed.value == k) &&
        SampledUpTo(old(Snap()), old(CurFreqs()), rs, t, k)
    {
      ghost var before := Snap();
      ghost var rs := Readings(Ids(), sensor);
      var i := 0;
      while i < |stats|
        invariant 0 <= i <= |stats|
        invariant Ids() == old(Ids())
        invariant SampledUpTo(before, old(CurFreqs()), rs, t, i)
        modifies m.yAxis, Cores(), Series()
      {
        var freq := SampleNext(i, t, sensor, before, old(CurFreqs()), rs);
        if freq.Err? {
          FirstFailureAt(rs, i);
          return Some(i);
        }
        i := i + 1;
      }
      FirstFailureAt(rs, |rs|);
      failed := None;
    }

    /**
     * The state after the first `i` of the readings `rs` succeeded, starting
     * from the snapshot `before` and the stored frequencies `cur`.
     */
    ghost predicate SampledUpTo(before: Snapshot, cur: seq<nat>, rs: seq<Reading>, t: real, i: nat)
      reads Cores(), Series(), m, m.xAxis, m.yAxis
    {
      Valid() && i <= |stats| == |rs| == |cur| == |before.series| &&
      (forall j :: 0 <= j < i ==> rs[j].Freq?) &&
      Snap() == Snapshot(Sample(before.series, t, Freqs(rs[..i])), Widen(before.axes, Freqs(rs[..i]))) &&
      CurFreqs() == Stored(cur, rs, i)
    }

    /**
     * One turn of the sampling loop, seen against CpuTick: if the first `i`
     * cores have been sampled, a successful read of core `i` extends the
     * sampled snapshot and the stored frequencies to the first `i + 1`, and a
     * failed one changes nothing.
     */
    method SampleNext(i: nat, t: real, sensor: nat -> Reading,
                      ghost before: Snapshot, ghost cur: seq<nat>, ghost rs: seq<Reading>)
      returns (freq: Result<real, CoreError>)
      requires i < |stats| && SampledUpTo(before, cur, rs, t, i) && rs[i] == sensor(Ids()[i])
      modifies m.yAxis, stats[i], stats[i].data
      ensures Valid() && Ids() == old(Ids())
      ensures freq.Err? ==> rs[i].Failed? && SampledUpTo(before, cur, rs, t, i)
      ensures freq.Ok? ==> SampledUpTo(before, cur, rs, t, i + 1)
    {
      freq := SampleCore(i, t, sensor);
      if freq.Ok? {
        SampleStep(before, t, rs, i);
      }
    }

    /**
     * One pass of the sampling loop of `CpuMonitor::update`, for the i-th
     * core: its reading is taken; on success its series gains the point
     * (t, frequency) and the y bounds take in the frequency plus the
     * margin, and on failure nothing changes.
     */
    method SampleCore(i: nat, t: real, sensor: nat -> Reading) returns (freq: Result<real, CoreError>)
      requires Valid() && i < |stats|
      modifies m.yAxis, stats[i], stats[i].data
      ensures Valid() && Ids() == old(Ids())
      ensures match sensor(old(Ids())[i])
        case Failed(cause) =>
          freq == Err(UpdateFailed(old(Ids())[i], cause)) && Snap() == old(Snap()) &&
          CurFreqs() == old(CurFreqs())
        case Freq(hz) =>
          var y := hz as real + Margin;
          freq == Ok(hz as real) && CurFreqs() == old(CurFreqs())[i := hz] &&
          Snap() == Snapshot(old(SeriesData())[i := old(SeriesData())[i] + [Point(t, hz as real)]],
                             old(m.View()).RaiseMax(y).LowerMin(y))
    {
      freq := ReadCore(i, t, sensor);
      if freq.Ok? {
        WidenY(freq.value + Margin);
      }
    }

    /**
     * The eviction step of `CpuMonitor::update`: the lowest-id core's oldest
     * point is removed, the window slides by the gap to its new oldest point
     * if it has one, then every other core's oldest point is removed.
     */
    method EvictOldest(t: real)
      requires Valid() && |stats| > 0 && t > m.View().maxX
      modifies m.xAxis, Series()
      ensures Valid() && Ids() == old(Ids())
      ensures Some(Snap()) == Evict(old(SeriesData()), old(m.View()), t)
      ensures CurFreqs() == old(CurFreqs())
    {
      ghost var sampled := SeriesData();
      ghost var target := Evict(sampled, m.View(), t);
      PopFirst();
      assert target.Some? && target.value.axes == m.View();
      PopOthers();
      assert SeriesData() == PopAll(sampled);
      assert target.value.series == PopAll(sampled);
    }

    /**
     * The lowest-id core loses its oldest point and the window slides by the
     * gap between that point and the new oldest one, if any is left.
     */
    method PopFirst()
      requires Valid() && |stats| > 0
      modifies m.xAxis, stats[0].data
      ensures Valid() && Ids() == old(Ids()) && CurFreqs() == old(CurFreqs())
      ensures stats[0].data.data == PopFront(old(stats[0].data.data)).1
      ensures forall k :: 0 < k < |stats| ==> stats[k].data.data == old(stats[k].data.data)
      ensures var (removed, rest) := PopFront(old(stats[0].data.data));
        m.View() == if |rest| > 0 then old(m.View()).Translate(rest[0].time - removed.time) else old(m.View())
    {
      var removed := stats[0].data.Pop();
      FrameSeries(0);
      var first := stats[0].data.First();
      if first.Some? {
        m.IncXAxis(first.value.time - removed.time);
      }
    }

    /**
     * The second half of the eviction step of `CpuMonitor::update`: every
     * core but the lowest-id one loses its oldest point.
     */
    method PopOthers()
      requires Valid() && |stats| > 0
      modifies Series()
      ensures Valid() && Ids() == old(Ids()) && CurFreqs() == old(CurFreqs())
      ensures stats[0].data.data == old(stats[0].data.data)
      ensures forall k :: 0 < k < |stats| ==> stats[k].data.data == PopFront(old(stats[k].data.data)).1
    {
      var j := 1;
      while j < |stats|
        invariant 1 <= j <= |stats|
        invariant Valid() && Ids() == old(Ids()) && CurFreqs() == old(CurFreqs())
        invariant forall k :: 0 <= k < |stats| ==>
          stats[k].data.data == if 0 < k < j then PopFront(old(stats[k].data.data)).1 else old(stats[k].data.data)
      {
        label BeforePop:
        var dropped := stats[j].data.Pop();
        FrameSeries@BeforePop(j);
        j := j + 1;
      }
    }

    /**
     * The bound updates of the sampling loop of `CpuMonitor::update`: the y
     * bounds widened to take in `y`; no series changes.
     */
    method WidenY(y: real)
      requires Valid()
      modifies m.yAxis
      ensures Valid() && Ids() == old(Ids()) && SeriesData() == old(SeriesData())
      ensures m.View() == old(m.View()).RaiseMax(y).LowerMin(y)
    {
      m.SetIfYMax(y);
      m.SetIfYMin(y);
    }

    /** Changing one core's series leaves every other series and all the ids as they were. */
    twostate lemma FrameSeries(i: nat)
      requires old(Valid()) && i < |stats| && unchanged(Cores())
      requires unchanged(set k | 0 <= k < |stats| && k != i :: stats[k].data)
      requires stats[i].data.Valid()
      ensures Valid() && Ids() == old(Ids()) && CurFreqs() == old(CurFreqs())
      ensures forall k :: 0 <= k < |stats| && k != i ==> stats[k].data.data == old(stats[k].data.data)
    {
    }

    /**
     * `core.update(t)` on the i-th core, in the sampling loop of
     * `CpuMonitor::update` before the unwrap, seen from the monitor: only
     * that core's series and stored frequency can change, by the one point
     * and the frequency its successful read brings.
     */
    method ReadCore(i: nat, t: real, sensor: nat -> Reading) returns (freq: Result<real, CoreError>)
      requires Valid() && i < |stats|
      modifies stats[i], stats[i].data
      ensures Valid() && Ids() == old(Ids())
      ensures match sensor(old(Ids())[i])
        case Failed(cause) =>
          freq == Err(UpdateFailed(old(Ids())[i], cause)) && SeriesData() == old(SeriesData()) &&
          CurFreqs() == old(CurFreqs())
        case Freq(hz) =>
          freq == Ok(hz as real) && CurFreqs() == old(CurFreqs())[i := hz] &&
          SeriesData() == old(SeriesData())[i := old(SeriesData())[i] + [Point(t, hz as real)]]
    {
      freq := stats[i].Update(t, sensor);
      assert forall k :: 0 <= k < |stats| && k != i ==> SeriesData()[k] == old(SeriesData())[k];
      assert forall k :: 0 <= k < |stats| && k != i ==> CurFreqs()[k] == old(CurFreqs())[k];
    }
  }

  /** Sampling core i extends the sampled prefix by one frequency. */
  lemma SampleStep(before: Snapshot, t: real, rs: seq<Reading>, i: nat)
    requires i < |rs| == |before.series| && forall j :: 0 <= j <= i ==> rs[j].Freq?
    ensures var fs := Freqs(rs[..i]);
      var fs' := Freqs(rs[..i + 1]);
      var y := rs[i].hz as real + Margin;
      |fs| == i &&
      Sample(before.series, t, fs') ==
        Sample(before.series, t, fs)[i := Sample(before.series, t, fs)[i] + [Point(t, rs[i].hz as real)]] &&
      Widen(before.axes, fs') == Widen(before.axes, fs).RaiseMax(y).LowerMin(y)
  {
    var fs := Freqs(rs[..i]);
    var fs' := Freqs(rs[..i + 1]);
    assert fs'[..i] == fs;
  }
}
