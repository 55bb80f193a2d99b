# CPU frequency graph: sliding-window series engine

This project models the engine behind the live CPU-frequency graph in Dafny. It covers:

- `DataSeries`, the FIFO buffer of `(time, value)` points with a cached length;
- `Monitor`, the axis state: an x window that slides, y bounds that only widen, and the total elapsed time;
- the per-tick update of the CPU monitor: every core is sampled, its point appended, the y bounds widened, and once the elapsed time passes the end of the window the oldest point of every series is evicted and the window slides;
- the sort by core id performed when the monitor is built.

There are three modules.

- `Common` (`common.dfy`) holds `DataSeries` and `Monitor` as classes whose methods update their fields in place. Next to them are the value-level views those methods are proved against: `PopFront`, and the `Axes` datatype with `Translate`, `RaiseMax` and `LowerMin`.
- `CpuTick` (`cpu_tick.dfy`) states one tick as a function, `Tick`, on a `Snapshot` (all series plus the axes). `Run` chains ticks. The lemmas prove the properties a tick and a run of ticks keep.
- `Cpu` (`cpu.dfy`) holds the classes `CoreStat` and `CpuMonitor`. `CpuMonitor.Update` is an imperative loop over the cores followed by the eviction, and its contract ties the new state and the outcome to `CpuTick.Tick`.

Modelling choices:

- `f64` is modelled as `real`, and `f64::MAX` is written out exactly (2^1024 - 2^971).
- A core's sensor read is a parameter `sensor: nat -> Reading` from core id to `Freq(hz)` or `Failed(cause)`.
- The elapsed time a tick reads is the parameter `t`.
- A failed read, which the source `unwrap`s, is the outcome `SensorPanic(i)`. The state reached so far is kept.
- Indexing `stats[0]` with no cores past the window is the outcome `IndexPanic`.
- The `self.m.elapsed_since_start()` called in src/cmd/show/cpu.rs is the parameter `t`. It is unrelated to `Monitor.totalTime`, which no tick reads or advances. `elapsed_since_start` is defined outside src/cmd/graph/common.rs and src/cmd/show/cpu.rs and is not part of this model.

## Model

| member | source | states |
|---|---|---|
| Common.PopFront | src/cmd/graph/common.rs:25-31 | on a non-empty series the evicted point followed by the rest is the old series; on an empty one the result is the (0, 0) sentinel and the series is unchanged |
| Common.PopMany | src/cmd/graph/common.rs:25-31 | n successive evictions return exactly n points |
| Common.PopManyIsFifo | src/cmd/graph/common.rs:18-31 | n evictions return the n oldest points in insertion order; past the end of the series every eviction returns the sentinel |
| Common.PopManyIgnoresLaterAdds | src/cmd/graph/common.rs:18-31 | points appended at the tail never change what the next n ≤ length evictions return |
| Common.DataSeries.constructor | src/cmd/graph/common.rs:7-12 | a new series is empty, with cached length 0 |
| Common.DataSeries.Data | src/cmd/graph/common.rs:13-15 | the stored points number exactly the cached length |
| Common.DataSeries.Add | src/cmd/graph/common.rs:18-21 | appends exactly (time, value) at the tail, increments the length, keeps every earlier point and the length invariant |
| Common.DataSeries.Pop | src/cmd/graph/common.rs:25-31 | non-empty: returns the old head, removes it, keeps the rest in order and decrements the length; empty: returns (0, 0) and changes nothing |
| Common.DataSeries.Nth | src/cmd/graph/common.rs:34-39 | Some exactly when n is below the length, and then holds the n-th point |
| Common.DataSeries.First | src/cmd/graph/common.rs:42-44 | equals Nth(0): Some exactly when the series is non-empty, holding its head |
| Common.FifoPair | src/cmd/graph/common.rs:18-31 | on a fresh series, add a then add b, then three pops return a, b and the sentinel |
| Common.Axes.Translate | src/cmd/graph/common.rs:70-73 | both x bounds move by n, the width is kept, the y bounds and elapsed time are untouched |
| Common.Axes.Elapse | src/cmd/graph/common.rs:62-64 | the elapsed time grows by exactly d; every bound is untouched |
| Common.Axes.RaiseMax | src/cmd/graph/common.rs:83-87 | the upper y bound becomes the maximum of the old bound and y; nothing else changes |
| Common.Axes.LowerMin | src/cmd/graph/common.rs:89-93 | the lower y bound becomes the minimum of the old bound and y; nothing else changes |
| Common.Monitor.constructor | src/cmd/graph/common.rs:54-60 | stores the given pairs as [low, high] with elapsed time 0 |
| Common.Monitor.AddTime | src/cmd/graph/common.rs:62-64 | adds exactly the given time to the elapsed time; the axes are untouched |
| Common.Monitor.IncXAxis | src/cmd/graph/common.rs:70-73 | the axis state becomes its Translate(n): window slid, width kept, y and time untouched |
| Common.Monitor.SetYMax | src/cmd/graph/common.rs:75-77 | the upper y bound becomes y; nothing else changes |
| Common.Monitor.SetYMin | src/cmd/graph/common.rs:79-81 | the lower y bound becomes y; nothing else changes |
| Common.Monitor.SetIfYMax | src/cmd/graph/common.rs:83-87 | the axis state becomes its RaiseMax(y), so the upper bound never decreases |
| Common.Monitor.SetIfYMin | src/cmd/graph/common.rs:89-93 | the axis state becomes its LowerMin(y), so the lower bound never increases |
| Common.Monitor.Y | src/cmd/graph/common.rs:112-114 | a two-element copy [min_y, max_y] |
| Common.Monitor.X | src/cmd/graph/common.rs:116-118 | a two-element copy [min_x, max_x] |
| CpuTick.FirstFailure | src/cmd/show/cpu.rs:62-64 | the index of the first failed read: every earlier read succeeded and the one at that index (if any) failed |
| CpuTick.FirstFailureAt | src/cmd/show/cpu.rs:62-64 | a position with only successes before it and a failure (or the end) at it is the first failure |
| CpuTick.Stored | src/cmd/show/cpu.rs:41-47 | after the first k reads succeed, core j holds the frequency of its read if j < k and its previous frequency otherwise |
| CpuTick.Sample | src/cmd/show/cpu.rs:62-64 | sampling keeps one series per core |
| CpuTick.Widen | src/cmd/show/cpu.rs:65-66 | the y bounds only widen (min_y never rises, max_y never falls); the x window and the elapsed time are untouched |
| CpuTick.Evict | src/cmd/show/cpu.rs:70-77 | no result exactly when t is past the window and there are no cores (the stats[0] panic); within the window nothing changes; past it every series loses exactly its head, the window keeps its width, and the y bounds and elapsed time are untouched |
| CpuTick.PopAll | src/cmd/show/cpu.rs:71-77 | eviction keeps one series per core |
| CpuTick.Tick | src/cmd/show/cpu.rs:60-78 | a tick keeps one series per core (its outcomes and effects are the Tick lemmas below) |
| CpuTick.WidenBounds | src/cmd/show/cpu.rs:62-67 | after the sampling loop the y bounds have only widened, every sampled frequency plus 100000 lies within them, each bound is its old value or one of those values, and the x window and elapsed time are untouched |
| CpuTick.WidenOrdersY | src/cmd/show/cpu.rs:65-66 | once one value has been offered, min_y ≤ max_y, despite the initial bounds (f64::MAX, 0) |
| CpuTick.SampleLengths | src/cmd/show/cpu.rs:62-67 | each sampled core's series grows by exactly one point, (t, f), after its old points kept in order; the rest are unchanged in length |
| CpuTick.TickSensorFailure | src/cmd/show/cpu.rs:62-67 | a failed read of core k panics after cores 0..k-1 each gained (t, f) and widened the y bounds; core k onwards and the x window are untouched |
| CpuTick.TickInWindow | src/cmd/show/cpu.rs:60-78 | with t ≤ max_x every core gains exactly (t, f), nothing is evicted and the x window stays |
| CpuTick.TickSlides | src/cmd/show/cpu.rs:70-77 | with t > max_x every core gains (t, f) and loses its oldest point; the window keeps its width and slides by the gap between the first core's evicted point and its new head, or not at all if that series is left empty |
| CpuTick.TickNoCores | src/cmd/show/cpu.rs:70-71 | with no cores a tick past the window panics on stats[0]; within the window it completes |
| CpuTick.TickKeepsLockStep | src/cmd/show/cpu.rs:60-78 | series all of length L before a completed tick are all of length L + 1 (within the window) or L (past it) after |
| CpuTick.TickKeepsWidth | src/cmd/show/cpu.rs:70-74 | no tick, whatever its outcome, changes the window width |
| CpuTick.TickWatermarks | src/cmd/show/cpu.rs:62-67 | y bounds never shrink and elapsed time is untouched; after a completed tick every sampled frequency plus 100000 lies within the bounds, and with a core min_y ≤ max_y |
| CpuTick.TickShiftNonNegative | src/cmd/show/cpu.rs:71-74 | if the first series' timestamps are non-decreasing and not later than t, the window never slides backwards |
| CpuTick.AppendKeepsTimeOrder | src/cmd/graph/common.rs:18-21 | appending a point no earlier than every stored one keeps a series time-ordered |
| CpuTick.PopKeepsTimeOrder | src/cmd/graph/common.rs:25-31 | evicting the head keeps a series time-ordered |
| CpuTick.TickKeepsTimeOrder | src/cmd/show/cpu.rs:60-78 | a tick at t keeps every series time-ordered |
| CpuTick.Run | src/cmd/show/cpu.rs:60-78 | successive ticks keep one series per core |
| CpuTick.RunKeepsLockStep | src/cmd/show/cpu.rs:60-78 | series that start of equal length stay of equal length through every completed run |
| CpuTick.RunKeepsWidth | src/cmd/show/cpu.rs:70-74 | the window width is constant through any run |
| CpuTick.RunWatermarksMonotone | src/cmd/show/cpu.rs:62-67 | through any run max_y never decreases and min_y never increases |
| CpuTick.RunKeepsTimeOrder | src/cmd/show/cpu.rs:60-78 | with non-decreasing tick times every series stays time-ordered and the window never slides backwards |
| CpuTick.RunStep | src/cmd/show/cpu.rs:60-78 | a run whose first tick completes is that tick followed by the rest of the run |
| CpuTick.SteadyStream | src/cmd/show/cpu.rs:60-78 | one core sampled at t = 0, 1, 2 on the initial (0, 30) window holds the three points in order and the window stays put |
| CpuTick.TwoCoresSlideStep | src/cmd/show/cpu.rs:70-77 | two cores with two points each at the end of a width-1 window: a tick one second later evicts from both and slides the window by one second |
| CpuTick.TwoCoresFill | src/cmd/show/cpu.rs:60-78 | on a width-1 window, ticks at t = 0 and t = 1 only append |
| CpuTick.WindowSlides | src/cmd/show/cpu.rs:60-78 | two cores sampled each second from 0 to 3 on a width-1 window end with the points at 2 and 3 and the window (2, 3) |
| Cpu.CoreStat.constructor | src/cmd/show/cpu.rs:29-38 | a core's statistics start with that core and an empty series |
| Cpu.CoreStat.Update | src/cmd/show/cpu.rs:41-47 | a failed read returns an error naming the core and changes nothing; a successful one stores the frequency, appends exactly (time, frequency) and returns the frequency |
| Cpu.CoreStat.AddCurrent | src/cmd/show/cpu.rs:49-51 | appends exactly (time, current frequency) |
| Cpu.InsertById | src/cmd/show/cpu.rs:129 | inserting into id-sorted statistics keeps the order by id, adds exactly that object and that core to the contents, and keeps the objects pairwise different when the object was absent |
| Cpu.InsertKeepsDistinct | src/cmd/show/cpu.rs:129 | inserting an absent object keeps the objects pairwise different |
| Cpu.InsertKeepsContents | src/cmd/show/cpu.rs:129 | an insertion adds exactly that object and that core to the multisets |
| Cpu.TakeNext | src/cmd/show/cpu.rs:129 | with pairwise different input objects, the next object is not yet in the sorted prefix, and taking it extends the prefix's contents by exactly that object and core |
| Cpu.InsertNext | src/cmd/show/cpu.rs:129 | one step of the sort: the sorted, duplicate-free prefix that is a permutation of the first i inputs becomes one of the first i + 1 |
| Cpu.SortById | src/cmd/show/cpu.rs:129 | the result is sorted by core id ascending and is a permutation of the input, of objects and of cores |
| Cpu.NewStats | src/cmd/show/cpu.rs:125-128 | one fresh statistics object with an empty series per core, in the order given, no two sharing a series |
| Cpu.NewSortedStats | src/cmd/show/cpu.rs:125-129 | fresh statistics for exactly the given cores (as a multiset), sorted by id, no two sharing an object or a series, every series empty |
| Cpu.CpuMonitor.constructor | src/cmd/show/cpu.rs:122-135 | one statistics object per core, sorted by id, every series empty, window (0, 30) and y bounds (f64::MAX, 0) |
| Cpu.CpuMonitor.Update | src/cmd/show/cpu.rs:60-78 | the new series, axes and outcome are exactly those of CpuTick.Tick on the old state and the cores' readings; the cores and their order are kept; every core read before the first failure stores the frequency it read, and the others keep theirs |
| Cpu.CpuMonitor.SampleAll | src/cmd/show/cpu.rs:62-67 | the loop reads the cores in order up to the first failure, which it reports; every core before it gained its point, widened the y bounds and stored its frequency, and nothing else changed |
| Cpu.CpuMonitor.SampleNext | src/cmd/show/cpu.rs:62-67 | one turn of the loop: a successful read of core i extends the sampled state from the first i cores to the first i + 1; a failed one reports the failure and changes nothing |
| Cpu.CpuMonitor.SampleCore | src/cmd/show/cpu.rs:64-66 | one core read: on failure nothing changes; on success that core gains (t, f), stores f as its frequency, and the y bounds become RaiseMax then LowerMin of f + 100000 |
| Cpu.CpuMonitor.ReadCore | src/cmd/show/cpu.rs:64 | only the i-th core's series and stored frequency can change, by the one point and the frequency its successful read brings |
| Cpu.CpuMonitor.WidenY | src/cmd/show/cpu.rs:65-66 | the y bounds take in y; no series changes |
| Cpu.CpuMonitor.EvictOldest | src/cmd/show/cpu.rs:70-77 | the state after the eviction is CpuTick.Evict of the state before it; the cores and their frequencies are kept |
| Cpu.CpuMonitor.PopFirst | src/cmd/show/cpu.rs:71-74 | the first core loses its oldest point, the others are untouched, and the window slides by the gap between the removed point and the new head, or stays if the series is left empty |
| Cpu.CpuMonitor.PopOthers | src/cmd/show/cpu.rs:75-77 | every core but the first loses exactly its oldest point; the first series, the cores and their frequencies are untouched |
| Cpu.SampleStep | src/cmd/show/cpu.rs:62-67 | sampling core i adds its point to series i and offers f + 100000 to both y bounds |

## Left out

- Rendering is not modelled: `render_widget`, `render_cores_info_widget` and the graph widget trait (datasets, title, axis labels). It is tui styling with no state.
- The event loop is not modelled: `graph_loop`, `single_widget_loop`, the tick configuration and `TICK_RATE`. They are scheduling and I/O.
- `processor()` and its error path in `CpuMonitor::new` are not modelled. The constructor takes the list of cores as a parameter.
- `Core::update` and the `cur_freq` it reads belong to the sensor library. Each read is the value of the `sensor` parameter for the core's id.
- The core's display name (`cpu<id>`), its colour (`random_color`), and `conv_fhz`, `conv_hz` and `bounds_labels` are not modelled. The error message is the core id plus the failure cause, not the formatted text.
- IEEE rounding is not modelled, nor is the precision lost converting `cur_freq` to `f64`. Values are reals, so width preservation and the watermark properties hold exactly over reals.
- Cpu.CpuMonitor.Update reads the elapsed time once, as `t`. The source calls `elapsed_since_start()` for every core and again for the window test. The model assumes those calls agree within one tick.
- Cpu.SortById is an insertion sort on a sequence that returns a new sequence. The in-place library sort of the `Vec` is not modelled. Stability for equal ids is not stated.
- The accessors `Monitor.Time`, `MaxY`, `MinY`, `MaxX` and `MinX` are modelled as plain reads and carry no contract of their own.
- The invariant that min_y ≤ max_y always holds does not hold for the code: the initial bounds are (f64::MAX, 0). The model follows the code and proves the inequality only once a frequency has been sampled (CpuTick.WidenOrdersY, CpuTick.TickWatermarks).
