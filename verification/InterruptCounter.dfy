/** The lock-free interrupt counter of the container host module: an eventfd callback increments the
    counter of CPU 0 at any time, and the run loop of each vCPU takes one from its own counter with a
    compare-and-swap that is not repeated when it fails. */
module InterruptCounter {
  import opened Types

  /** The numbers of the guest's calls (source/cki_kernel/kernel.patch:151-167). */
  const DEBUG := 0
  const MEM_CHECK := 2
  const YIELD := 3
  const INIT_LATE := 4
  const WRITE_CR3 := 7
  const NOP := 8
  const INTR := 10
  const HALT := 11
  const CPU_UP := 12
  const MMIO_READ := 13
  const MMIO_WRITE := 14
  const PRINT := 15

  /** PK_EVENT_VIRTIO_INTR, bit 2 of the event word */
  const VIRTIO_INTR := 4

  predicate HasEvent(word: nat) {
    word / VIRTIO_INTR % 2 == 1
  }

  /** The calls after which the run loop goes on at once; `ready` says that an MMIO write asks for an
      exit. Everything else but HALT leaves the loop. */
  predicate Stays(call: nat, ready: bool) {
    call in {DEBUG, MEM_CHECK, YIELD, INIT_LATE, WRITE_CR3, NOP, INTR, MMIO_READ} || (call == MMIO_WRITE && !ready)
  }

  predicate Leaves(call: nat, ready: bool) {
    call != HALT && !Stays(call, ready)
  }

  /** Where the thread running a vCPU is. `Swapping` lies between the load of the counter and the
      compare-and-swap; `seen` is the number of wakeups at the load. */
  datatype Phase =
    | Outside
    | InGuest
    | Halting
    | Handled(halted: bool)
    | Swapping(count: int, seen: nat)

  /** `counter` is virtio_event_cnt, `rdx` the word of the context that carries the number of a call to
      the host and the events to the guest. The rest is history: successful swaps; entries into the
      guest with the virtio event set in rdx; those of them at the start of the run loop; and for
      every failed swap the number of the wakeup that made it fail. */
  datatype Cpu = Cpu(counter: int, rdx: nat, phase: Phase, swapped: nat, delivered: nat, stale: nat, payers: seq<nat>)

  /** `wakeups` counts the callbacks with EPOLLIN. */
  datatype System = System(cpus: seq<Cpu>, wakeups: nat)

  datatype Step =
    | Wakes(pollin: bool)
    | Starts(i: nat)
    | Returns(i: nat, call: nat, ready: bool)
    | Looks(i: nat)
    | Loads(i: nat)
    | Swaps(i: nat)

  function Initial(n: nat): (s: System)
    ensures |s.cpus| == n
  {
    System(seq(n, _ => Cpu(0, 0, Outside, 0, 0, 0, [])), 0)
  }

  predicate Enabled(s: System, step: Step) {
    match step
    case Wakes(_) => |s.cpus| > 0
    case Starts(i) => i < |s.cpus| && s.cpus[i].phase.Outside?
    case Returns(i, _, _) => i < |s.cpus| && s.cpus[i].phase.InGuest?
    case Looks(i) => i < |s.cpus| && s.cpus[i].phase.Halting?
    case Loads(i) => i < |s.cpus| && s.cpus[i].phase.Handled?
    case Swaps(i) => i < |s.cpus| && s.cpus[i].phase.Swapping?
  }

  /** virtio_wakeup: __sync_fetch_and_add. */
  function Woken(c: Cpu): Cpu {
    c.(counter := ToInt(c.counter + 1))
  }

  /** pk_rkret: the guest finds its events in rdx. */
  function Entered(c: Cpu): Cpu {
    c.(phase := InGuest, delivered := c.delivered + if HasEvent(c.rdx) then 1 else 0)
  }

  /** The beginning of the run loop enters the guest with what rdx happens to hold. */
  function Started(c: Cpu): Cpu {
    Entered(c).(stale := c.stale + if HasEvent(c.rdx) then 1 else 0)
  }

  /** The guest calls; a call that leaves the loop skips the assignment of the events to rdx. */
  function Returned(c: Cpu, call: nat, ready: bool): Cpu {
    c.(rdx := call,
       phase := if call == HALT then Halting else if Stays(call, ready) then Handled(false) else Outside)
  }

  /** One test of the loop in handle_rkcall_halt. */
  function Looked(c: Cpu): Cpu {
    if c.counter == 0 then c else c.(phase := Handled(true))
  }

  /** The load of the counter; with 0 the guest is entered without an event. */
  function Loaded(c: Cpu, wakeups: nat): Cpu
    requires c.phase.Handled?
  {
    if c.counter == 0 then Entered(c.(rdx := 0)) else c.(phase := Swapping(c.counter, wakeups))
  }

  /** arch_cmpxchg; whether it succeeds or not, the guest is entered with the virtio event. */
  function Swapped(c: Cpu): Cpu
    requires c.phase.Swapping?
  {
    var d := Entered(c.(rdx := VIRTIO_INTR));
    if c.counter == c.phase.count then d.(counter := ToInt(c.phase.count - 1), swapped := c.swapped + 1)
    else d.(payers := c.payers + [c.phase.seen])
  }

  /** Only CPU 0 is ever woken. */
  function WakeupsOf(s: System, i: nat): nat {
    if i == 0 then s.wakeups else 0
  }

  function Apply(s: System, step: Step): (t: System)
    requires Enabled(s, step)
    ensures |t.cpus| == |s.cpus|
  {
    match step
    case Wakes(pollin) => if pollin then System(s.cpus[0 := Woken(s.cpus[0])], s.wakeups + 1) else s
    case Starts(i) => s.(cpus := s.cpus[i := Started(s.cpus[i])])
    case Returns(i, call, ready) => s.(cpus := s.cpus[i := Returned(s.cpus[i], call, ready)])
    case Looks(i) => s.(cpus := s.cpus[i := Looked(s.cpus[i])])
    case Loads(i) => s.(cpus := s.cpus[i := Loaded(s.cpus[i], WakeupsOf(s, i))])
    case Swaps(i) => s.(cpus := s.cpus[i := Swapped(s.cpus[i])])
  }

  predicate IsRun(s: System, steps: seq<Step>)
    decreases |steps|
  {
    steps == [] || (Enabled(s, steps[0]) && IsRun(Apply(s, steps[0]), steps[1..]))
  }

  function After(s: System, steps: seq<Step>): (t: System)
    requires IsRun(s, steps)
    ensures |t.cpus| == |s.cpus|
    decreases |steps|
  {
    if steps == [] then s else After(Apply(s, steps[0]), steps[1..])
  }

  // ---- counting the steps of a run --------------------------------------------------------------

  /** How often the callback came with EPOLLIN. */
  function Wakeups(steps: seq<Step>): nat {
    if steps == [] then 0 else (if steps[0] == Wakes(true) then 1 else 0) + Wakeups(steps[1..])
  }

  /** The wakeups meant for CPU `i`: all of them for CPU 0. */
  function WakeupsFor(steps: seq<Step>, i: nat): nat {
    if i == 0 then Wakeups(steps) else 0
  }

  /** The step takes CPU `i` into the guest, and the guest finds the virtio event. */
  predicate Delivers(s: System, step: Step, i: nat)
    requires i < |s.cpus| && Enabled(s, step)
  {
    var c := Apply(s, step).cpus[i];
    !s.cpus[i].phase.InGuest? && c.phase.InGuest? && HasEvent(c.rdx)
  }

  /** The deliveries at a start of the run loop, or all others. */
  function Deliveries(s: System, steps: seq<Step>, i: nat, atStart: bool): nat
    requires i < |s.cpus| && IsRun(s, steps)
    decreases |steps|
  {
    if steps == [] then 0
    else (if Delivers(s, steps[0], i) && steps[0].Starts? == atStart then 1 else 0)
         + Deliveries(Apply(s, steps[0]), steps[1..], i, atStart)
  }

  /** The compare-and-swaps of CPU `i` that changed the counter. */
  function Taken(s: System, steps: seq<Step>, i: nat): nat
    requires i < |s.cpus| && IsRun(s, steps)
    decreases |steps|
  {
    if steps == [] then 0
    else (if steps[0] == Swaps(i) && Apply(s, steps[0]).cpus[i].counter != s.cpus[i].counter then 1 else 0)
         + Taken(Apply(s, steps[0]), steps[1..], i)
  }

  // ---- the invariant ----------------------------------------------------------------------------

  ghost predicate Increasing(s: seq<nat>, bound: nat) {
    && (forall k :: 0 <= k < |s| ==> 0 < s[k] < bound)
    && (forall j, k :: 0 <= j < k < |s| ==> s[j] < s[k])
  }

  /** The counter is the number of wakeups not yet taken off, up to the width of an int. */
  ghost predicate CpuOk(c: Cpu, wakeups: nat) {
    && c.swapped <= wakeups && c.counter == ToInt(wakeups - c.swapped)
    && c.delivered == c.swapped + |c.payers| + c.stale && Increasing(c.payers, wakeups)
    && (c.phase == Handled(true) ==> c.swapped < wakeups)
    && (c.phase.Swapping? ==>
          && c.phase.seen <= wakeups && Increasing(c.payers, c.phase.seen)
          && c.swapped < c.phase.seen && c.phase.count == ToInt(c.phase.seen - c.swapped))
  }

  ghost predicate SystemOk(s: System) {
    forall i :: 0 <= i < |s.cpus| ==> CpuOk(s.cpus[i], WakeupsOf(s, i))
  }

  lemma WrapAdds(n: int, k: int)
    ensures ToInt(ToInt(n) + k) == ToInt(n + k)
  {
  }

  lemma WokenOk(c: Cpu, wakeups: nat)
    requires CpuOk(c, wakeups)
    ensures CpuOk(Woken(c), wakeups + 1)
  {
    WrapAdds(wakeups - c.swapped, 1);
  }

  /** A swap fails only when a wakeup came after the load, and no other failed swap names that one. */
  lemma SwappedOk(c: Cpu, wakeups: nat)
    requires CpuOk(c, wakeups) && c.phase.Swapping?
    ensures CpuOk(Swapped(c), wakeups)
  {
    WrapAdds(wakeups - c.swapped, -1);
  }

  lemma StepKeepsOk(s: System, step: Step)
    requires SystemOk(s) && Enabled(s, step)
    ensures SystemOk(Apply(s, step))
  {
    var t := Apply(s, step);
    forall i | 0 <= i < |t.cpus|
      ensures CpuOk(t.cpus[i], WakeupsOf(t, i))
    {
      assert CpuOk(s.cpus[i], WakeupsOf(s, i));
      if step.Wakes? && i == 0 {
        WokenOk(s.cpus[0], s.wakeups);
      } else if step == Swaps(i) {
        SwappedOk(s.cpus[i], WakeupsOf(s, i));
      }
    }
  }

  lemma {:induction false} RunKeepsOk(s: System, steps: seq<Step>)
    requires SystemOk(s) && IsRun(s, steps)
    ensures SystemOk(After(s, steps))
    decreases |steps|
  {
    if steps != [] {
      StepKeepsOk(s, steps[0]);
      RunKeepsOk(Apply(s, steps[0]), steps[1..]);
    }
  }

  /** The wakeups in a state are those of the run that led there. */
  lemma {:induction false} WakeupsAreCounted(s: System, steps: seq<Step>)
    requires IsRun(s, steps)
    ensures After(s, steps).wakeups == s.wakeups + Wakeups(steps)
    decreases |steps|
  {
    if steps != [] {
      WakeupsAreCounted(Apply(s, steps[0]), steps[1..]);
    }
  }

  lemma ToIntMoves(n: int)
    ensures ToInt(n) != ToInt(n - 1)
  {
  }

  lemma HistoryStep(s: System, step: Step, i: nat)
    requires SystemOk(s) && i < |s.cpus| && Enabled(s, step)
    ensures var c, d := s.cpus[i], Apply(s, step).cpus[i];
            && d.delivered == c.delivered + (if Delivers(s, step, i) then 1 else 0)
            && d.stale == c.stale + (if Delivers(s, step, i) && step.Starts? then 1 else 0)
            && d.swapped == c.swapped + (if step == Swaps(i) && d.counter != c.counter then 1 else 0)
  {
    assert CpuOk(s.cpus[i], WakeupsOf(s, i));
    if s.cpus[i].phase.Swapping? {
      WrapAdds(s.cpus[i].phase.seen - s.cpus[i].swapped, -1);
      ToIntMoves(s.cpus[i].phase.seen - s.cpus[i].swapped);
    }
  }

  /** The history a CPU carries is that of the run. */
  lemma {:induction false} HistoryIsRight(s: System, steps: seq<Step>, i: nat)
    requires SystemOk(s) && i < |s.cpus| && IsRun(s, steps)
    ensures var c, d := s.cpus[i], After(s, steps).cpus[i];
            && d.delivered == c.delivered + Deliveries(s, steps, i, true) + Deliveries(s, steps, i, false)
            && d.stale == c.stale + Deliveries(s, steps, i, true)
            && d.swapped == c.swapped + Taken(s, steps, i)
    decreases |steps|
  {
    hide Enabled, Apply, Delivers, SystemOk;
    if steps != [] {
      HistoryStep(s, steps[0], i);
      StepKeepsOk(s, steps[0]);
      HistoryIsRight(Apply(s, steps[0]), steps[1..], i);
    }
  }

  // ---- accounting -------------------------------------------------------------------------------

  lemma InitiallyOk(n: nat)
    ensures SystemOk(Initial(n))
  {
  }

  /** The wakeups that came and were not taken off yet. */
  function Outstanding(n: nat, steps: seq<Step>, i: nat): int
    requires i < n && IsRun(Initial(n), steps)
  {
    WakeupsFor(steps, i) - Taken(Initial(n), steps, i)
  }

  lemma StateAfter(n: nat, steps: seq<Step>, i: nat)
    requires i < n && IsRun(Initial(n), steps)
    ensures var s := After(Initial(n), steps);
            && CpuOk(s.cpus[i], WakeupsOf(s, i)) && Outstanding(n, steps, i) == WakeupsOf(s, i) - s.cpus[i].swapped
            && s.cpus[i].counter == ToInt(Outstanding(n, steps, i))
  {
    InitiallyOk(n);
    RunKeepsOk(Initial(n), steps);
    HistoryIsRight(Initial(n), steps, i);
    WakeupsAreCounted(Initial(n), steps);
  }

  lemma {:induction false} IncreasingIsShort(s: seq<nat>, bound: nat)
    requires Increasing(s, bound)
    ensures s == [] || |s| < bound
  {
    if s != [] {
      IncreasingIsShort(s[..|s| - 1], s[|s| - 1]);
    }
  }

  /** W wakeups, counter c, and in the run so far L deliveries by the loop, M by its starts and T swaps
      that took a wakeup off. As long as fewer than 2^31 wakeups are outstanding c is their number, and
      W - c <= L < 2W - c (L = 0 without a wakeup): no wakeup is lost, and every delivery beyond W - c
      comes from a failed swap with a wakeup of its own, which is never the first one. With more
      outstanding c is not their number. Counting M, the deliveries are at most 2W - c exactly while M
      and the failed swaps together are no more than the wakeups. */
  lemma Accounting(n: nat, steps: seq<Step>, i: nat)
    requires i < n && IsRun(Initial(n), steps)
    ensures var c, w, t := After(Initial(n), steps).cpus[i], WakeupsFor(steps, i), Taken(Initial(n), steps, i);
            var l, m := Deliveries(Initial(n), steps, i, false), Deliveries(Initial(n), steps, i, true);
            && t <= w && (c.counter == w - t <==> w - t < 0x8000_0000)
            && (w - t < 0x8000_0000 ==>
                  && 0 <= c.counter && w - c.counter <= l
                  && (if w == 0 then l == 0 else l < 2 * w - c.counter)
                  && (l + m <= 2 * w - c.counter <==> l - t + m <= w))
            && |c.payers| == l - t && Increasing(c.payers, w)
  {
    hide Enabled, Apply, Delivers, SystemOk, Increasing, IsRun, Taken, Deliveries, Wakeups;
    InitiallyOk(n);
    StateAfter(n, steps, i);
    HistoryIsRight(Initial(n), steps, i);
    WakeupsAreCounted(Initial(n), steps);
    IncreasingIsShort(After(Initial(n), steps).cpus[i].payers, WakeupsFor(steps, i));
  }

  /** Every swap fails: a wakeup comes between each load and its swap. */
  function Racing(k: nat): seq<Step> {
    if k == 0 then [Starts(0), Wakes(true)]
    else Racing(k - 1) + [Returns(0, NOP, false), Loads(0), Wakes(true), Swaps(0)]
  }

  /** The upper bound is reached: after k such turns L = 2W - c - 1, and nothing was taken off. */
  lemma {:induction false} EverySwapFails(n: nat, k: nat)
    requires n > 0 && k < 0x7FFF_FFFF
    ensures IsRun(Initial(n), Racing(k)) && Wakeups(Racing(k)) == k + 1
    ensures var c := After(Initial(n), Racing(k)).cpus[0];
            && c.phase == InGuest && c.counter == k + 1 && Taken(Initial(n), Racing(k), 0) == 0
            && Deliveries(Initial(n), Racing(k), 0, true) == 0
            && Deliveries(Initial(n), Racing(k), 0, false) == k == 2 * Wakeups(Racing(k)) - c.counter - 1
  {
    InitiallyOk(n);
    RacesOn(n, k);
    HistoryIsRight(Initial(n), Racing(k), 0);
    WakeupsAreCounted(Initial(n), Racing(k));
  }

  lemma {:induction false} RacesOn(n: nat, k: nat)
    requires n > 0 && k < 0x7FFF_FFFF
    ensures IsRun(Initial(n), Racing(k))
    ensures var s := After(Initial(n), Racing(k));
            && s.wakeups == k + 1 && s.cpus[0].phase == InGuest && s.cpus[0].counter == k + 1
            && s.cpus[0].swapped == 0 && s.cpus[0].stale == 0 && s.cpus[0].delivered == k
  {
    if k == 0 {
      var s1 := Apply(Initial(n), Starts(0));
      StepThen(s1, Wakes(true), []);
      StepThen(Initial(n), Starts(0), [Wakes(true)]);
      assert [Wakes(true)] + [] == [Wakes(true)];
      assert [Starts(0)] + [Wakes(true)] == [Starts(0), Wakes(true)];
    } else {
      RacesOn(n, k - 1);
      hide Enabled, Apply, IsRun, Initial;
      var s := After(Initial(n), Racing(k - 1));
      RaceTurn(s);
      RunAndStep(Initial(n), Racing(k - 1), Returns(0, NOP, false));
      RunAndStep(Initial(n), Racing(k - 1) + [Returns(0, NOP, false)], Loads(0));
      RunAndStep(Initial(n), Racing(k - 1) + [Returns(0, NOP, false)] + [Loads(0)], Wakes(true));
      RunAndStep(Initial(n), Racing(k - 1) + [Returns(0, NOP, false)] + [Loads(0)] + [Wakes(true)], Swaps(0));
      assert Racing(k) == Racing(k - 1) + [Returns(0, NOP, false)] + [Loads(0)] + [Wakes(true)] + [Swaps(0)];
    }
  }

  /** One turn in which a wakeup comes between the load and the swap. */
  lemma RaceTurn(s: System)
    requires s.cpus != [] && s.cpus[0].phase == InGuest && 0 < s.cpus[0].counter < 0x7FFF_FFFF
    ensures Enabled(s, Returns(0, NOP, false))
    ensures var s1 := Apply(s, Returns(0, NOP, false));
            && Enabled(s1, Loads(0)) && Enabled(Apply(s1, Loads(0)), Wakes(true))
            && Enabled(Apply(Apply(s1, Loads(0)), Wakes(true)), Swaps(0))
            && (var t := Apply(Apply(Apply(s1, Loads(0)), Wakes(true)), Swaps(0));
                && t.wakeups == s.wakeups + 1 && t.cpus[0].phase == InGuest
                && t.cpus[0].counter == s.cpus[0].counter + 1 && t.cpus[0].swapped == s.cpus[0].swapped
                && t.cpus[0].stale == s.cpus[0].stale && t.cpus[0].delivered == s.cpus[0].delivered + 1)
  {
  }

  lemma {:induction false} RunAndStep(s: System, steps: seq<Step>, step: Step)
    requires IsRun(s, steps) && Enabled(After(s, steps), step)
    ensures IsRun(s, steps + [step]) && After(s, steps + [step]) == Apply(After(s, steps), step)
    decreases |steps|
  {
    hide Enabled, Apply;
    if steps == [] {
      assert steps + [step] == [step] && [step][1..] == [];
    } else {
      assert (steps + [step])[1..] == steps[1..] + [step];
      RunAndStep(Apply(s, steps[0]), steps[1..], step);
    }
  }

  // ---- events nobody sent -----------------------------------------------------------------------

  /** A call that leaves the loop and a new start of it deliver an event exactly when the number of the
      call has the bit of the virtio event. */
  lemma RestartDelivers(s: System, i: nat, call: nat, ready: bool)
    requires i < |s.cpus| && s.cpus[i].phase == InGuest && Leaves(call, ready)
    ensures Enabled(Apply(s, Returns(i, call, ready)), Starts(i))
    ensures var c := Apply(Apply(s, Returns(i, call, ready)), Starts(i)).cpus[i];
            && c.delivered == s.cpus[i].delivered + (if HasEvent(call) then 1 else 0)
            && c.stale - s.cpus[i].stale == c.delivered - s.cpus[i].delivered && c.counter == s.cpus[i].counter
  {
  }

  /** The calls that leave the loop, and those among them with the bit: CPU_UP, PRINT and an MMIO write
      that asks for an exit, after which the launcher starts the loop again, and the two network calls,
      which are errors here. */
  lemma ExitsExactly(call: nat, ready: bool)
    ensures Leaves(call, ready) <==> call in {1, 5, 6, 9, 12, 15} || call > 15 || (call == 14 && ready)
    ensures call <= 15 ==>
              (Leaves(call, ready) && HasEvent(call) <==> call in {5, 6, 12, 15} || (call == 14 && ready))
  {
  }

  function Reprint(i: nat): seq<Step> {
    [Starts(i), Returns(i, PRINT, false), Starts(i)]
  }

  lemma ReprintRuns(n: nat, i: nat)
    requires i < n
    ensures IsRun(Initial(n), Reprint(i))
    ensures var t := After(Initial(n), Reprint(i));
            t.wakeups == 0 && t.cpus[i].counter == 0 && t.cpus[i].delivered == 1 && t.cpus[i].stale == 1
  {
    RunAndStep(Initial(n), [], Starts(i));
    RunAndStep(Initial(n), [] + [Starts(i)], Returns(i, PRINT, false));
    RunAndStep(Initial(n), [] + [Starts(i)] + [Returns(i, PRINT, false)], Starts(i));
    assert Reprint(i) == [] + [Starts(i)] + [Returns(i, PRINT, false)] + [Starts(i)];
  }

  /** An event without any wakeup, on any CPU: print something, and start again. */
  lemma EventFromNowhere(n: nat, i: nat)
    requires i < n
    ensures var run := [Starts(i), Returns(i, PRINT, false), Starts(i)];
            && IsRun(Initial(n), run) && Wakeups(run) == 0 && After(Initial(n), run).cpus[i].counter == 0
            && Deliveries(Initial(n), run, i, true) == 1 && Deliveries(Initial(n), run, i, false) == 0
  {
    hide Enabled, Apply, IsRun, Deliveries, Wakeups;
    ReprintRuns(n, i);
    InitiallyOk(n);
    HistoryIsRight(Initial(n), Reprint(i), i);
    WakeupsAreCounted(Initial(n), Reprint(i));
  }

  /** CPU `i` never leaves the loop by a call with the bit of the event. */
  ghost predicate LeavesCleanly(steps: seq<Step>, i: nat) {
    forall k :: 0 <= k < |steps| && steps[k].Returns? && steps[k].i == i && Leaves(steps[k].call, steps[k].ready)
                ==> !HasEvent(steps[k].call)
  }

  ghost predicate NoneMadeUp(c: Cpu) {
    c.stale == 0 && (c.phase.Outside? ==> !HasEvent(c.rdx))
  }

  lemma {:induction false} RunMakesNoneUp(s: System, steps: seq<Step>, i: nat)
    requires i < |s.cpus| && IsRun(s, steps) && LeavesCleanly(steps, i) && NoneMadeUp(s.cpus[i])
    ensures NoneMadeUp(After(s, steps).cpus[i])
    decreases |steps|
  {
    if steps != [] {
      assert NoneMadeUp(Apply(s, steps[0]).cpus[i]);
      forall k | 0 <= k < |steps[1..]|
        ensures steps[1..][k] == steps[k + 1]
      {
      }
      RunMakesNoneUp(Apply(s, steps[0]), steps[1..], i);
    }
  }

  /** Without such calls the bounds hold for all deliveries. */
  lemma CleanRunsAreBounded(n: nat, steps: seq<Step>, i: nat)
    requires i < n && IsRun(Initial(n), steps) && LeavesCleanly(steps, i)
    ensures var c, w, t := After(Initial(n), steps).cpus[i], WakeupsFor(steps, i), Taken(Initial(n), steps, i);
            var d := Deliveries(Initial(n), steps, i, false) + Deliveries(Initial(n), steps, i, true);
            w - t < 0x8000_0000 ==> w - c.counter <= d && if w == 0 then d == 0 else d < 2 * w - c.counter
  {
    InitiallyOk(n);
    RunMakesNoneUp(Initial(n), steps, i);
    HistoryIsRight(Initial(n), steps, i);
    Accounting(n, steps, i);
  }

  // ---- halt -------------------------------------------------------------------------------------

  /** A halt call sleeps, and a look at the counter ends the sleep exactly unless what is outstanding is
      a multiple of 2^32, none for example. */
  lemma HaltSleeps(n: nat, steps: seq<Step>, i: nat, ready: bool)
    requires i < n && IsRun(Initial(n), steps)
    ensures var s := After(Initial(n), steps);
            && (s.cpus[i].phase.InGuest? ==> Apply(s, Returns(i, HALT, ready)).cpus[i].phase.Halting?)
            && (s.cpus[i].phase.Halting? ==>
                  Apply(s, Looks(i)).cpus[i]
                  == if Outstanding(n, steps, i) % 0x1_0000_0000 == 0 then s.cpus[i]
                     else s.cpus[i].(phase := Handled(true)))
  {
    StateAfter(n, steps, i);
  }

  /** Some time between a look that saw a wakeup and the load there may be more wakeups; then the guest is
      entered with the event, exactly unless the counter has wrapped round to 0, which takes 2^32
      outstanding wakeups. */
  lemma HaltReturnsWithEvent(n: nat, steps: seq<Step>, i: nat)
    requires i < n && IsRun(Initial(n), steps)
    requires After(Initial(n), steps).cpus[i].phase == Handled(true)
    ensures var s := After(Initial(n), steps);
            var t := Apply(s, Loads(i));
            var outstanding := Outstanding(n, steps, i);
            && outstanding > 0
            && (t.cpus[i].phase.Swapping? <==> outstanding % 0x1_0000_0000 != 0)
            && (t.cpus[i].phase.Swapping? ==> Delivers(t, Swaps(i), i))
            && (outstanding < 0x1_0000_0000 ==> t.cpus[i].phase.Swapping?)
  {
    StateAfter(n, steps, i);
  }

  /** The other CPUs are never woken: they get exactly the events that a start of the loop makes up, and
      a halt call there never ends. */
  lemma OthersGetNoWakeup(n: nat, steps: seq<Step>, i: nat)
    requires 0 < i < n && IsRun(Initial(n), steps)
    ensures var s := After(Initial(n), steps);
            && s.cpus[i].counter == 0 && Deliveries(Initial(n), steps, i, false) == 0
            && !s.cpus[i].phase.Swapping? && s.cpus[i].phase != Handled(true)
            && (s.cpus[i].phase.Halting? ==> Apply(s, Looks(i)) == s)
  {
    Accounting(n, steps, i);
    StateAfter(n, steps, i);
    var s := After(Initial(n), steps);
    assert s.cpus[i].phase.Halting? ==> s.cpus[i := s.cpus[i]] == s.cpus;
  }

  // ---- draining ---------------------------------------------------------------------------------

  /** `k` turns of the run loop of CPU 0 without a wakeup in between. */
  function Turns(k: nat): seq<Step> {
    if k == 0 then [] else [Returns(0, NOP, false), Loads(0), Swaps(0)] + Turns(k - 1)
  }

  lemma TurnThen(s: System, rest: seq<Step>)
    requires Enabled(s, Returns(0, NOP, false))
    requires var s1 := Apply(s, Returns(0, NOP, false)); Enabled(s1, Loads(0))
    requires var s2 := Apply(Apply(s, Returns(0, NOP, false)), Loads(0));
             Enabled(s2, Swaps(0)) && IsRun(Apply(s2, Swaps(0)), rest)
    ensures IsRun(s, [Returns(0, NOP, false), Loads(0), Swaps(0)] + rest)
    ensures After(s, [Returns(0, NOP, false), Loads(0), Swaps(0)] + rest)
            == After(Apply(Apply(Apply(s, Returns(0, NOP, false)), Loads(0)), Swaps(0)), rest)
  {
    hide Enabled, Apply;
    var s1 := Apply(s, Returns(0, NOP, false));
    var s2 := Apply(s1, Loads(0));
    StepThen(s2, Swaps(0), rest);
    StepThen(s1, Loads(0), [Swaps(0)] + rest);
    StepThen(s, Returns(0, NOP, false), [Loads(0)] + ([Swaps(0)] + rest));
    assert [Returns(0, NOP, false), Loads(0), Swaps(0)] + rest
        == [Returns(0, NOP, false)] + ([Loads(0)] + ([Swaps(0)] + rest));
  }

  lemma StepThen(s: System, step: Step, rest: seq<Step>)
    requires Enabled(s, step) && IsRun(Apply(s, step), rest)
    ensures IsRun(s, [step] + rest) && After(s, [step] + rest) == After(Apply(s, step), rest)
  {
    assert ([step] + rest)[1..] == rest;
  }

  /** One turn with something outstanding and nothing coming in: one wakeup is delivered. */
  lemma TurnDelivers(s: System)
    requires SystemOk(s) && s.cpus != [] && s.cpus[0].phase == InGuest
    requires 0 < s.wakeups - s.cpus[0].swapped < 0x8000_0000
    ensures var s1 := Apply(s, Returns(0, NOP, false));
            && Enabled(s1, Loads(0)) && Enabled(Apply(s1, Loads(0)), Swaps(0))
            && (var t := Apply(Apply(s1, Loads(0)), Swaps(0));
                && t.wakeups == s.wakeups && t.cpus[0].phase == InGuest
                && t.cpus[0].swapped == s.cpus[0].swapped + 1 && t.cpus[0].delivered == s.cpus[0].delivered + 1)
  {
    assert CpuOk(s.cpus[0], s.wakeups);
  }

  /** What is outstanding is delivered, one wakeup a turn, as soon as no new ones come. */
  lemma {:induction false} TurnsDrain(s: System, k: nat)
    requires SystemOk(s) && s.cpus != [] && s.cpus[0].phase == InGuest
    requires s.cpus[0].swapped + k == s.wakeups && k < 0x8000_0000
    ensures IsRun(s, Turns(k))
    ensures var t := After(s, Turns(k));
            && t.wakeups == s.wakeups && t.cpus[0].counter == 0 && t.cpus[0].phase == InGuest
            && t.cpus[0].swapped == t.wakeups && t.cpus[0].delivered == s.cpus[0].delivered + k
    decreases k
  {
    assert CpuOk(s.cpus[0], s.wakeups);
    if k > 0 {
      hide Apply, Enabled, CpuOk;
      var s1 := Apply(s, Returns(0, NOP, false));
      TurnDelivers(s);
      var s2 := Apply(s1, Loads(0));
      StepKeepsOk(s, Returns(0, NOP, false));
      StepKeepsOk(s1, Loads(0));
      StepKeepsOk(s2, Swaps(0));
      TurnsDrain(Apply(s2, Swaps(0)), k - 1);
      TurnThen(s, Turns(k - 1));
    }
  }
}
