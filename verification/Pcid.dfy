/** PCIDs of the containers: handed out by a 32-bit counter, and put into cr3 before every entry into
    the guest. */
module Pcid {
  import opened Types

  const MIN_PCID := 10
  const MAX_PCID := 100

  /** The PCID is the lower 12 bits of cr3. */
  const FIELD := 0x1000
  const WRAP := 0x1_0000_0000

  /** `born` is the number of the attempt that created the container; `cr3s` are the contexts of its
      vCPUs. */
  datatype Container = Container(pcid: nat, cr3s: seq<nat>, born: nat)

  /** A guest entry, with the cr3 it was made with. */
  datatype Entry = Entry(container: nat, cr3: nat)

  /** `next` is next_cntr_pcid; `attempts` counts the fetch-and-adds on it. */
  datatype Host = Host(next: nat, containers: seq<Container>, entries: seq<Entry>, attempts: nat)

  /** One step of any thread: a creation, which may still fail after the PCID was taken; a turn of a run
      loop into the guest; a WRITE_CR3 call with any value. */
  datatype Step = Creates(cr3s: seq<nat>, succeeds: bool) | Enters(c: nat, i: nat) | WritesCr3(c: nat, i: nat, val: nat)

  function Initial(): Host {
    Host(MIN_PCID, [], [], 0)
  }

  /** cr3 & ~X86_CR3_PCID_MASK | pcid, for a PCID inside the field. */
  function WithPcid(cr3: nat, pcid: nat): nat {
    cr3 - cr3 % FIELD + pcid
  }

  predicate Enabled(h: Host, step: Step) {
    match step
    case Creates(_, _) => true
    case Enters(c, i) => c < |h.containers| && i < |h.containers[c].cr3s|
    case WritesCr3(c, i, _) => c < |h.containers| && i < |h.containers[c].cr3s|
  }

  function SetCr3(h: Host, c: nat, i: nat, val: nat): Host
    requires c < |h.containers| && i < |h.containers[c].cr3s|
  {
    h.(containers := h.containers[c := h.containers[c].(cr3s := h.containers[c].cr3s[i := val])])
  }

  function Apply(h: Host, step: Step): Host
    requires Enabled(h, step)
  {
    match step
    case Creates(cr3s, succeeds) =>
      var taken := h.(next := (h.next + 1) % WRAP, attempts := h.attempts + 1);
      if h.next > MAX_PCID || !succeeds then taken
      else taken.(containers := h.containers + [Container(h.next, cr3s, h.attempts)])
    case Enters(c, i) =>
      var cr3 := WithPcid(h.containers[c].cr3s[i], h.containers[c].pcid);
      SetCr3(h, c, i, cr3).(entries := h.entries + [Entry(c, cr3)])
    case WritesCr3(c, i, val) => SetCr3(h, c, i, val)
  }

  predicate IsRun(h: Host, steps: seq<Step>)
    decreases |steps|
  {
    steps == [] || (Enabled(h, steps[0]) && IsRun(Apply(h, steps[0]), steps[1..]))
  }

  function After(h: Host, steps: seq<Step>): Host
    requires IsRun(h, steps)
    decreases |steps|
  {
    if steps == [] then h else After(Apply(h, steps[0]), steps[1..])
  }

  // ---- the invariant ----------------------------------------------------------------------------

  ghost predicate ContainerOk(h: Host, k: nat)
    requires k < |h.containers|
  {
    var c := h.containers[k];
    c.born < h.attempts && c.pcid == (MIN_PCID + c.born) % WRAP && c.pcid <= MAX_PCID
  }

  ghost predicate EntryOk(h: Host, e: Entry) {
    e.container < |h.containers| && e.cr3 % FIELD == h.containers[e.container].pcid
  }

  ghost predicate HostOk(h: Host) {
    && h.next == (MIN_PCID + h.attempts) % WRAP
    && (forall k :: 0 <= k < |h.containers| ==> ContainerOk(h, k))
    && (forall j, k :: 0 <= j < k < |h.containers| ==> h.containers[j].born < h.containers[k].born)
    && (forall e :: e in h.entries ==> EntryOk(h, e))
  }

  lemma FieldIsPcid(cr3: nat, pcid: nat)
    requires pcid < FIELD
    ensures WithPcid(cr3, pcid) % FIELD == pcid && WithPcid(cr3, pcid) / FIELD == cr3 / FIELD
  {
  }

  /** Containers keep their PCID and their attempt, and only the number of attempts grows. */
  ghost predicate Continues(h: Host, t: Host) {
    && |h.containers| <= |t.containers| && h.attempts <= t.attempts
    && forall k :: 0 <= k < |h.containers| ==> SameIdentity(h, t, k)
  }

  ghost predicate SameIdentity(h: Host, t: Host, k: nat)
    requires k < |h.containers| <= |t.containers|
  {
    t.containers[k].pcid == h.containers[k].pcid && t.containers[k].born == h.containers[k].born
  }

  lemma OldStayOk(h: Host, t: Host)
    requires HostOk(h) && Continues(h, t)
    ensures forall k :: 0 <= k < |h.containers| ==> ContainerOk(t, k)
    ensures forall j, k :: 0 <= j < k < |h.containers| ==> t.containers[j].born < t.containers[k].born
    ensures forall e :: e in h.entries ==> EntryOk(t, e)
  {
    forall k | 0 <= k < |h.containers|
      ensures ContainerOk(t, k) && t.containers[k].born == h.containers[k].born
    {
      assert ContainerOk(h, k) && SameIdentity(h, t, k);
    }
    forall e | e in h.entries
      ensures EntryOk(t, e)
    {
      assert EntryOk(h, e) && SameIdentity(h, t, e.container);
    }
  }

  lemma NextWraps(n: nat)
    ensures ((MIN_PCID + n) % WRAP + 1) % WRAP == (MIN_PCID + n + 1) % WRAP
  {
  }

  lemma CreateKeepsOk(h: Host, step: Step)
    requires HostOk(h) && step.Creates?
    ensures HostOk(Apply(h, step))
  {
    var t := Apply(h, step);
    assert Continues(h, t);
    OldStayOk(h, t);
    NextWraps(h.attempts);
    forall j | 0 <= j < |h.containers|
      ensures t.containers[j].born < h.attempts
    {
      assert ContainerOk(h, j) && SameIdentity(h, t, j);
    }
  }

  lemma EnterKeepsOk(h: Host, c: nat, i: nat)
    requires HostOk(h) && Enabled(h, Enters(c, i))
    ensures HostOk(Apply(h, Enters(c, i)))
  {
    var t := Apply(h, Enters(c, i));
    assert Continues(h, t);
    OldStayOk(h, t);
    assert ContainerOk(h, c);
    FieldIsPcid(h.containers[c].cr3s[i], h.containers[c].pcid);
  }

  lemma StepKeepsOk(h: Host, step: Step)
    requires HostOk(h) && Enabled(h, step)
    ensures HostOk(Apply(h, step))
  {
    match step
    case Creates(_, _) => CreateKeepsOk(h, step);
    case Enters(c, i) => EnterKeepsOk(h, c, i);
    case WritesCr3(_, _, _) =>
      assert Continues(h, Apply(h, step));
      OldStayOk(h, Apply(h, step));
  }

  lemma {:induction false} RunKeepsOk(h: Host, steps: seq<Step>)
    requires HostOk(h) && IsRun(h, steps)
    ensures HostOk(After(h, steps))
    decreases |steps|
  {
    if steps != [] {
      StepKeepsOk(h, steps[0]);
      RunKeepsOk(Apply(h, steps[0]), steps[1..]);
    }
  }

  // ---- what the steps of a run determine --------------------------------------------------------

  /** Creations tried so far. */
  function Attempts(steps: seq<Step>): nat {
    if steps == [] then 0
    else Attempts(steps[..|steps| - 1]) + if steps[|steps| - 1].Creates? then 1 else 0
  }

  /** What a container was created with. */
  datatype Birth = Birth(attempt: nat, cr3s: seq<nat>)

  /** The containers of a run: the creations that did not fail and got a PCID that is not above the
      highest one. Failing ones use up a number too. */
  function Births(steps: seq<Step>): seq<Birth> {
    if steps == [] then []
    else
      var before, last := steps[..|steps| - 1], steps[|steps| - 1];
      match last
      case Creates(cr3s, true) =>
        var n := Attempts(before);
        if (10 + n) % 0x1_0000_0000 > 100 then Births(before) else Births(before) + [Birth(n, cr3s)]
      case _ => Births(before)
  }

  /** The value a guest gave for the cr3 of one vCPU last, if it did. */
  function Supplied(steps: seq<Step>, c: nat, i: nat): Option<nat> {
    if steps == [] then None
    else
      var last := steps[|steps| - 1];
      if last.WritesCr3? && last.c == c && last.i == i then Some(last.val) else Supplied(steps[..|steps| - 1], c, i)
  }

  /** That value, or the cr3 the vCPU was created with. */
  function Wanted(steps: seq<Step>, c: nat, i: nat): nat
    requires c < |Births(steps)| && i < |Births(steps)[c].cr3s|
  {
    match Supplied(steps, c, i)
    case Some(val) => val
    case None => Births(steps)[c].cr3s[i]
  }

  /** Container `c` is the one the steps say, and the page tables of its vCPUs are those wanted last. */
  ghost predicate AsWanted(h: Host, steps: seq<Step>, c: nat)
    requires c < |h.containers| == |Births(steps)|
  {
    var b := Births(steps)[c];
    && h.containers[c].born == b.attempt && h.containers[c].pcid == (10 + b.attempt) % 0x1_0000_0000
    && |h.containers[c].cr3s| == |b.cr3s|
    && forall i :: 0 <= i < |b.cr3s| ==> h.containers[c].cr3s[i] / 0x1000 == Wanted(steps, c, i) / 0x1000
  }

  ghost predicate Determined(h: Host, steps: seq<Step>) {
    && h.attempts == Attempts(steps) && |h.containers| == |Births(steps)|
    && forall c :: 0 <= c < |h.containers| ==> AsWanted(h, steps, c)
  }

  lemma {:induction false} LastStep(h: Host, steps: seq<Step>)
    requires IsRun(h, steps) && steps != []
    ensures var before, last := steps[..|steps| - 1], steps[|steps| - 1];
            IsRun(h, before) && Enabled(After(h, before), last) && After(h, steps) == Apply(After(h, before), last)
    decreases |steps|
  {
    hide Enabled, Apply;
    if |steps| > 1 {
      LastStep(Apply(h, steps[0]), steps[1..]);
      assert steps[1..][..|steps| - 2] == steps[..|steps| - 1][1..];
    }
  }

  lemma {:induction false} SuppliedLater(steps: seq<Step>, c: nat, i: nat)
    requires IsRun(Initial(), steps) && c >= |After(Initial(), steps).containers|
    ensures Supplied(steps, c, i).None?
  {
    if steps != [] {
      LastStep(Initial(), steps);
      SuppliedLater(steps[..|steps| - 1], c, i);
    }
  }

  lemma StepDetermines(steps: seq<Step>, c: nat)
    requires IsRun(Initial(), steps) && steps != []
    requires IsRun(Initial(), steps[..|steps| - 1])
    requires Determined(After(Initial(), steps[..|steps| - 1]), steps[..|steps| - 1])
    requires |After(Initial(), steps).containers| == |Births(steps)| > c
    ensures AsWanted(After(Initial(), steps), steps, c)
  {
    hide WithPcid, After, IsRun;
    var before, last := steps[..|steps| - 1], steps[|steps| - 1];
    var h := After(Initial(), before);
    LastStep(Initial(), steps);
    RunKeepsOk(Initial(), before);
    if c < |h.containers| {
      assert AsWanted(h, before, c);
      if last.Enters? && last.c == c {
        assert ContainerOk(h, c);
        FieldIsPcid(h.containers[c].cr3s[last.i], h.containers[c].pcid);
      }
    } else {
      assert last.Creates? && last.succeeds && h.next <= MAX_PCID && c == |h.containers|;
      assert After(Initial(), steps).containers[c] == Container(h.next, last.cr3s, h.attempts);
      assert Births(steps)[c] == Birth(Attempts(before), last.cr3s);
      forall i | 0 <= i < |last.cr3s|
        ensures Supplied(steps, c, i).None?
      {
        SuppliedLater(before, c, i);
      }
    }
  }

  /** After any run the containers are the successful creations in order, with the PCIDs of their
      attempts, and the page table of each vCPU is the one its guest supplied last, or the first one. */
  lemma {:induction false} RunDetermines(steps: seq<Step>)
    requires IsRun(Initial(), steps)
    ensures Determined(After(Initial(), steps), steps)
  {
    hide WithPcid, After, AsWanted, IsRun;
    if steps == [] {
      StartsEmpty();
    } else {
      var before := steps[..|steps| - 1];
      LastStep(Initial(), steps);
      RunDetermines(before);
      RunKeepsOk(Initial(), before);
      forall c | 0 <= c < |After(Initial(), steps).containers|
        ensures AsWanted(After(Initial(), steps), steps, c)
      {
        StepDetermines(steps, c);
      }
    }
  }

  lemma StartsEmpty()
    ensures IsRun(Initial(), []) && After(Initial(), []) == Initial()
  {
  }

  // ---- ownership --------------------------------------------------------------------------------

  lemma BornInOrder(steps: seq<Step>, j: nat, k: nat)
    requires IsRun(Initial(), steps) && j < k < |After(Initial(), steps).containers|
    ensures |After(Initial(), steps).containers| == |Births(steps)|
    ensures var c, births := After(Initial(), steps).containers, Births(steps);
            && births[j].attempt < births[k].attempt < Attempts(steps)
            && c[j].pcid == (MIN_PCID + births[j].attempt) % WRAP
            && c[k].pcid == (MIN_PCID + births[k].attempt) % WRAP
  {
    hide After, IsRun, Attempts, Births, Wanted;
    RunKeepsOk(Initial(), steps);
    RunDetermines(steps);
    var h := After(Initial(), steps);
    assert ContainerOk(h, k) && AsWanted(h, steps, j) && AsWanted(h, steps, k);
  }

  /** Two containers share a PCID exactly when the counter went round a whole number of times between
      their creations. */
  lemma SharedExactly(steps: seq<Step>, j: nat, k: nat)
    requires IsRun(Initial(), steps) && j < k < |After(Initial(), steps).containers|
    ensures |After(Initial(), steps).containers| == |Births(steps)|
    ensures var c, births := After(Initial(), steps).containers, Births(steps);
            && births[j].attempt < births[k].attempt < Attempts(steps)
            && (c[j].pcid == c[k].pcid <==> (births[k].attempt - births[j].attempt) % WRAP == 0)
  {
    hide After, IsRun, Attempts, Births;
    BornInOrder(steps, j, k);
    SameRemainder(MIN_PCID + Births(steps)[j].attempt, MIN_PCID + Births(steps)[k].attempt);
  }

  lemma SameRemainder(a: nat, b: nat)
    requires a <= b
    ensures a % WRAP == b % WRAP <==> (b - a) % WRAP == 0
  {
  }

  /** Before the counter wraps, containers have pairwise distinct PCIDs between 10 and 100. */
  lemma DistinctBeforeWrap(steps: seq<Step>, j: nat, k: nat)
    requires IsRun(Initial(), steps) && j < k < |After(Initial(), steps).containers|
    requires Attempts(steps) <= WRAP - MIN_PCID
    ensures var c := After(Initial(), steps).containers;
            && MIN_PCID <= c[j].pcid <= MAX_PCID && MIN_PCID <= c[k].pcid <= MAX_PCID && c[j].pcid != c[k].pcid
  {
    RunKeepsOk(Initial(), steps);
    RunDetermines(steps);
    SharedExactly(steps, j, k);
    assert ContainerOk(After(Initial(), steps), j) && ContainerOk(After(Initial(), steps), k);
  }

  /** Every entry into a guest is made with the PCID of its own container, whatever a WRITE_CR3 call
      supplied. */
  lemma EntriesOwnTheirPcid(steps: seq<Step>, n: nat)
    requires IsRun(Initial(), steps) && n < |After(Initial(), steps).entries|
    ensures var h := After(Initial(), steps);
            var e := h.entries[n];
            && e.container < |h.containers| && e.cr3 % FIELD == h.containers[e.container].pcid
  {
    RunKeepsOk(Initial(), steps);
    assert EntryOk(After(Initial(), steps), After(Initial(), steps).entries[n]);
  }

  /** So entries of different containers never share one before the counter wraps. */
  lemma EntriesAreSeparate(steps: seq<Step>, m: nat, n: nat)
    requires IsRun(Initial(), steps) && m < |After(Initial(), steps).entries| && n < |After(Initial(), steps).entries|
    requires Attempts(steps) <= WRAP - MIN_PCID
    ensures var e := After(Initial(), steps).entries;
            e[m].cr3 % FIELD == e[n].cr3 % FIELD <==> e[m].container == e[n].container
  {
    EntriesOwnTheirPcid(steps, m);
    EntriesOwnTheirPcid(steps, n);
    var h := After(Initial(), steps);
    if h.entries[m].container < h.entries[n].container {
      DistinctBeforeWrap(steps, h.entries[m].container, h.entries[n].container);
    } else if h.entries[n].container < h.entries[m].container {
      DistinctBeforeWrap(steps, h.entries[n].container, h.entries[m].container);
    }
  }

  /** Every entry is made with the page table the guest supplied last for this vCPU, whatever else was
      done in between, and with the PCID of its container; and it is recorded as one entry more. */
  lemma EntryHasPageTable(steps: seq<Step>, c: nat, i: nat)
    requires IsRun(Initial(), steps) && Enabled(After(Initial(), steps), Enters(c, i))
    ensures c < |Births(steps)| && i < |Births(steps)[c].cr3s|
    ensures var h := After(Initial(), steps);
            var t := Apply(h, Enters(c, i));
            && |t.entries| == |h.entries| + 1 && t.entries[..|h.entries|] == h.entries
            && (var e := t.entries[|h.entries|];
                && e.container == c && t.containers[c].cr3s[i] == e.cr3
                && e.cr3 / 0x1000 == Wanted(steps, c, i) / 0x1000
                && e.cr3 % 0x1000 == (10 + Births(steps)[c].attempt) % 0x1_0000_0000)
  {
    RunKeepsOk(Initial(), steps);
    RunDetermines(steps);
    var h := After(Initial(), steps);
    assert ContainerOk(h, c) && AsWanted(h, steps, c);
    FieldIsPcid(h.containers[c].cr3s[i], h.containers[c].pcid);
  }
}
