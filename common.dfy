/**
 * The building blocks of a live graph: datapoints, the FIFO series buffer that
 * holds one line of the graph, and the axis state shared by all lines
 * (src/cmd/graph/common.rs).
 */
module Common {

  datatype Option<T> = None | Some(value: T)

  /** One graph datapoint: a timestamp in seconds and the sampled value. */
  datatype Point = Point(time: real, value: real)

  /** What `pop` hands back when there is nothing to evict: the point (0, 0). */
  const Sentinel := Point(0.0, 0.0)

  /**
   * Evicting the head of a series: the removed point and the remaining points,
   * or the sentinel and the unchanged (empty) series.
   */
  function PopFront(s: seq<Point>): (r: (Point, seq<Point>))
    ensures |s| > 0 ==> [r.0] + r.1 == s
    ensures |s| == 0 ==> r == (Sentinel, s)
  {
    if |s| > 0 then (s[0], s[1..]) else (Sentinel, s)
  }

  /** The points returned by `n` successive evictions from `s`, in the order returned. */
  function PopMany(s: seq<Point>, n: nat): (r: seq<Point>)
    ensures |r| == n
    decreases n
  {
    if n == 0 then [] else [PopFront(s).0] + PopMany(PopFront(s).1, n - 1)
  }

  /**
   * Eviction is FIFO: `n` evictions return the `n` oldest points in insertion
   * order, and once the series is drained every further eviction returns the
   * sentinel.
   */
  lemma {:induction false} PopManyIsFifo(s: seq<Point>, n: nat)
    ensures n <= |s| ==> PopMany(s, n) == s[..n]
    ensures n > |s| ==> PopMany(s, n) == s + seq(n - |s|, _ => Sentinel)
    decreases n
  {
    if n == 0 {
    } else if |s| == 0 {
      PopManyIsFifo(s, n - 1);
      assert PopMany(s, n) == [Sentinel] + seq(n - 1, _ => Sentinel);
    } else {
      PopManyIsFifo(s[1..], n - 1);
      if n <= |s| {
        assert s[..n] == [s[0]] + s[1..][..n - 1];
      } else {
        assert s == [s[0]] + s[1..];
      }
    }
  }

  /** Appending at the tail never changes which points the next evictions return. */
  lemma {:induction false} PopManyIgnoresLaterAdds(s: seq<Point>, later: seq<Point>, n: nat)
    requires n <= |s|
    ensures PopMany(s + later, n) == PopMany(s, n)
  {
    PopManyIsFifo(s + later, n);
    PopManyIsFifo(s, n);
    assert (s + later)[..n] == s[..n];
  }

  /** The buffer of one line of the graph: a vector of points with a cached count. */
  class DataSeries {
    var data: seq<Point>
    var len: nat

    /** The cached count always matches the buffer. */
    ghost predicate Valid()
      reads this
    {
      len == |data|
    }

    constructor ()
      ensures Valid() && data == [] && len == 0
    {
      data := [];
      len := 0;
    }

    /** The stored points, oldest first: exactly `len` of them. */
    function Data(): (r: seq<Point>)
      reads this
      requires Valid()
      ensures |r| == len
    {
      data
    }

    /** Appends a point at the tail; earlier points are untouched. */
    method Add(time: real, value: real)
      requires Valid()
      modifies this
      ensures Valid()
      ensures data == old(data) + [Point(time, value)] && len == old(len) + 1
    {
      data := data + [Point(time, value)];
      len := len + 1;
    }

    /** Removes and returns the oldest point, or returns (0, 0) when empty. */
    method Pop() returns (p: Point)
      requires Valid()
      modifies this
      ensures Valid()
      ensures (p, data) == PopFront(old(data))
      ensures old(len) > 0 ==> p == old(data)[0] && data == old(data)[1..] && len == old(len) - 1
      ensures old(len) == 0 ==> p == Sentinel && data == [] && len == 0
    {
      if len > 0 {
        len := len - 1;
        p := data[0];
        data := data[1..];
        return;
      }
      p := Sentinel;
    }

    /** The `n`-th point (0 = oldest) if the series holds one. */
    function Nth(n: nat): (r: Option<Point>)
      reads this
      requires Valid()
      ensures r.Some? <==> n < |data|
      ensures r.Some? ==> r.value == data[n]
    {
      if n < len then Some(data[n]) else None
    }

    /** The oldest point if the series is not empty. */
    function First(): (r: Option<Point>)
      reads this
      requires Valid()
      ensures r == Nth(0)
      ensures r.Some? <==> data != []
      ensures r.Some? ==> r.value == data[0]
    {
      Nth(0)
    }
  }

  /** Two appends then two pops on a fresh series return the two points in order. */
  method FifoPair(a: Point, b: Point) returns (first: Point, second: Point, third: Point)
    ensures first == a && second == b && third == Sentinel
  {
    var series := new DataSeries();
    series.Add(a.time, a.value);
    series.Add(b.time, b.value);
    first := series.Pop();
    second := series.Pop();
    third := series.Pop();
  }

  /** The abstract value of the axis state: x window, y bounds and elapsed time. */
  datatype Axes = Axes(minX: real, maxX: real, minY: real, maxY: real, total: real)
  {
    function Width(): real { maxX - minX }

    /** The x window slid by `n`: both bounds move, the width stays. */
    function Translate(n: real): (r: Axes)
      ensures r.Width() == Width()
      ensures r.minX == minX + n
      ensures r.minY == minY && r.maxY == maxY && r.total == total
    {
      this.(minX := minX + n, maxX := maxX + n)
    }

    /** The elapsed time advanced by `d`; the window is untouched. */
    function Elapse(d: real): (r: Axes)
      ensures r.total == total + d
      ensures r.minX == minX && r.maxX == maxX && r.minY == minY && r.maxY == maxY
    {
      this.(total := total + d)
    }

    /** The upper y watermark raised to `y` if `y` is above it: the maximum of the two. */
    function RaiseMax(y: real): (r: Axes)
      ensures r.maxY >= maxY && r.maxY >= y && (r.maxY == maxY || r.maxY == y)
      ensures r == this.(maxY := r.maxY)
    {
      if y > maxY then this.(maxY := y) else this
    }

    /** The lower y watermark lowered to `y` if `y` is below it: the minimum of the two. */
    function LowerMin(y: real): (r: Axes)
      ensures r.minY <= minY && r.minY <= y && (r.minY == minY || r.minY == y)
      ensures r == this.(minY := r.minY)
    {
      if y < minY then this.(minY := y) else this
    }
  }

  /** Axis state of a graph: `x_axis` and `y_axis` are two-element arrays [low, high]. */
  class Monitor {
    const xAxis: array<real>
    const yAxis: array<real>
    var totalTime: real

    ghost predicate Valid()
    {
      xAxis.Length == 2 && yAxis.Length == 2 && xAxis != yAxis
    }

    ghost function View(): Axes
      reads this, xAxis, yAxis
      requires Valid()
    {
      Axes(xAxis[0], xAxis[1], yAxis[0], yAxis[1], totalTime)
    }

    constructor (x: (real, real), y: (real, real))
      ensures Valid() && fresh(xAxis) && fresh(yAxis)
      ensures View() == Axes(x.0, x.1, y.0, y.1, 0.0)
    {
      xAxis := new real[] [x.0, x.1];
      yAxis := new real[] [y.0, y.1];
      totalTime := 0.0;
    }

    method AddTime(time: real)
      requires Valid()
      modifies this`totalTime
      ensures View() == old(View()).Elapse(time)
    {
      totalTime := totalTime + time;
    }

    function Time(): real
      reads this
    {
      totalTime
    }

    /** Slides the x window by `n`, keeping its width. */
    method IncXAxis(n: real)
      requires Valid()
      modifies xAxis
      ensures View() == old(View()).Translate(n)
    {
      xAxis[0] := xAxis[0] + n;
      xAxis[1] := xAxis[1] + n;
    }

    method SetYMax(y: real)
      requires Valid()
      modifies yAxis
      ensures View() == old(View()).(maxY := y)
    {
      yAxis[1] := y;
    }

    method SetYMin(y: real)
      requires Valid()
      modifies yAxis
      ensures View() == old(View()).(minY := y)
    {
      yAxis[0] := y;
    }

    /** Raises the upper y bound to `y` when `y` exceeds it. */
    method SetIfYMax(y: real)
      requires Valid()
      modifies yAxis
      ensures View() == old(View()).RaiseMax(y)
    {
      if y > MaxY() {
        SetYMax(y);
      }
    }

    /** Lowers the lower y bound to `y` when `y` is below it. */
    method SetIfYMin(y: real)
      requires Valid()
      modifies yAxis
      ensures View() == old(View()).LowerMin(y)
    {
      if y < MinY() {
        SetYMin(y);
      }
    }

    function MaxY(): real
      reads yAxis
      requires Valid()
    {
      yAxis[1]
    }

    function MinY(): real
      reads yAxis
      requires Valid()
    {
      yAxis[0]
    }

    function MaxX(): real
      reads xAxis
      requires Valid()
    {
      xAxis[1]
    }

    function MinX(): real
      reads xAxis
      requires Valid()
    {
      xAxis[0]
    }

    /** A copy of the y bounds as [low, high]. */
    function Y(): (r: seq<real>)
      reads yAxis
      requires Valid()
      ensures |r| == 2 && r[0] == MinY() && r[1] == MaxY()
    {
      yAxis[..]
    }

    /** A copy of the x window as [low, high]. */
    function X(): (r: seq<real>)
      reads xAxis
      requires Valid()
      ensures |r| == 2 && r[0] == MinX() && r[1] == MaxX()
    {
      xAxis[..]
    }
  }
}
