/** The device allocation planner of `ExLlamaV2.set_device_map`: a greedy
    first-fit bin packer over per-device byte budgets whose device cursor
    only moves forward. All quantities are bytes. */
module Planner {
  import opened Common
  import opened Layout

  // ---------------------------------------------------------------------
  // Per-device constants taken off the top of every budget

  /** The rotary sine or cosine table, in bytes. */
  function SincosSize(c: Config): nat { c.headDim * c.maxSeqLen * 2 }

  /** Constants shared between layers: the sine and the cosine table. */
  function ConstantSize(c: Config): nat { SincosSize(c) * 2 }

  /** The largest hidden state, in bytes. */
  function StateSize(c: Config): nat { c.hiddenSize * c.maxInputLen * c.maxBatchSize * 2 }

  /** The largest attention mask, in bytes. */
  function MaskSize(c: Config): nat { c.maxInputLen * c.maxInputLen * 2 }

  /** `allocation_bytes` before any module is placed. */
  function InitialBudget(allocation: seq<int>, c: Config): (b: seq<int>)
    ensures |b| == |allocation|
    ensures forall d :: 0 <= d < |b| ==>
              allocation[d] - b[d] == StateSize(c) + MaskSize(c) + 2 * SincosSize(c) >= 0
  {
    var overhead := StateSize(c) + MaskSize(c) + ConstantSize(c);
    seq(|allocation|, d requires 0 <= d < |allocation| => allocation[d] - overhead)
  }

  // ---------------------------------------------------------------------
  // One placement step

  /** The planner's working state: bytes left per device (`allocation_bytes`),
      the scratch reserved per device (`reserve_bytes`), the device cursor
      (`current_idx`) and the device chosen for each module seen so far. */
  datatype Ledger = Ledger(remaining: seq<int>, reserve: seq<nat>, cursor: nat, devices: seq<int>)

  ghost predicate WellFormed(l: Ledger)
  {
    |l.reserve| == |l.remaining| && l.cursor <= |l.remaining|
  }

  /** Outcome of planning: every module placed, or the index of the module
      that fit on no device from the cursor on, with the ledger at that point. */
  datatype PlanOutcome = Planned(ledger: Ledger) | Exhausted(at: nat, ledger: Ledger)

  /** Only the token embedding, module 0, is pinned to the CPU, and only when
      `embed_cpu` is set. */
  predicate Pinned(embedCpu: bool, i: nat) { i == 0 && embedCpu }

  /** The test of the inner `while` loop: weights plus the larger of the
      module's scratch and the device's reserve fit in what is left. */
  predicate Fits(u: Unit, remaining: seq<int>, reserve: seq<nat>, d: nat)
    requires d < |remaining| && |reserve| == |remaining|
  {
    u.footprint + Max(u.scratch, reserve[d]) <= remaining[d]
  }

  /** The first device at or after `from` that the module fits on, or the
      number of devices when there is none. */
  function FirstFit(u: Unit, remaining: seq<int>, reserve: seq<nat>, from: nat): (d: nat)
    requires |reserve| == |remaining| && from <= |remaining|
    ensures from <= d <= |remaining|
    ensures d < |remaining| ==> Fits(u, remaining, reserve, d)
    ensures forall k :: from <= k < d ==> !Fits(u, remaining, reserve, k)
    decreases |remaining| - from
  {
    if from == |remaining| then from
    else if Fits(u, remaining, reserve, from) then from
    else FirstFit(u, remaining, reserve, from + 1)
  }

  /** One iteration of the outer loop of `set_device_map`. */
  function Place(l: Ledger, u: Unit, pinned: bool): (r: PlanOutcome)
    requires WellFormed(l)
    ensures WellFormed(r.ledger) && |r.ledger.remaining| == |l.remaining|
    ensures r.Planned? ==> |r.ledger.devices| == |l.devices| + 1
    ensures r.Exhausted? ==> r == Exhausted(|l.devices|, l)
  {
    if pinned then Planned(l.(devices := l.devices + [-1]))
    else
      var d := FirstFit(u, l.remaining, l.reserve, l.cursor);
      if d == |l.remaining| then Exhausted(|l.devices|, l)
      else
        Planned(Ledger(
          l.remaining[d := l.remaining[d] - u.footprint],
          l.reserve[d := Max(u.scratch, l.reserve[d])],
          d,
          l.devices + [d]))
  }

  /** A placement step fails exactly when the module is not pinned and fits
      on no device from the cursor on. Otherwise it appends one device to the
      assignment: -1 for the pinned embedding, else the first device from the
      cursor on that fits, which becomes the new cursor. It touches only the
      entries of that device: its remaining bytes drop by the module's
      footprint and its reserve becomes the larger of the old reserve and the
      module's scratch. */
  lemma PlaceSpec(l: Ledger, u: Unit, pinned: bool)
    requires WellFormed(l)
    ensures var r := Place(l, u, pinned);
      && (r.Exhausted? <==>
            !pinned && forall d :: l.cursor <= d < |l.remaining| ==> !Fits(u, l.remaining, l.reserve, d))
      && (r.Planned? ==> r.ledger.devices[..|l.devices|] == l.devices)
      && (r.Planned? && pinned ==> r.ledger == l.(devices := l.devices + [-1]))
      && (r.Planned? && !pinned ==>
            var d := r.ledger.cursor;
            && l.cursor <= d < |l.remaining|
            && r.ledger.devices == l.devices + [d]
            && Fits(u, l.remaining, l.reserve, d)
            && (forall k :: l.cursor <= k < d ==> !Fits(u, l.remaining, l.reserve, k))
            && r.ledger.remaining == l.remaining[d := l.remaining[d] - u.footprint]
            && r.ledger.reserve == l.reserve[d := Max(u.scratch, l.reserve[d])])
  {
    var r := Place(l, u, pinned);
    if r.Planned? {
      assert r.ledger.devices[..|l.devices|] == l.devices;
    }
  }

  // ---------------------------------------------------------------------
  // The whole plan

  function Zeros(count: nat): (z: seq<nat>)
    ensures |z| == count && forall d :: 0 <= d < count ==> z[d] == 0
  {
    seq(count, _ => 0)
  }

  /** The planner after its outer loop has seen the first `n` modules. */
  function PlanPrefix(units: seq<Unit>, embedCpu: bool, budget: seq<int>, n: nat): (r: PlanOutcome)
    requires n <= |units|
    ensures WellFormed(r.ledger) && |r.ledger.remaining| == |budget|
    ensures r.Planned? ==> |r.ledger.devices| == n
    ensures r.Exhausted? ==> r.at < n && r.at == |r.ledger.devices|
  {
    if n == 0 then Planned(Ledger(budget, Zeros(|budget|), 0, []))
    else
      match PlanPrefix(units, embedCpu, budget, n - 1)
      case Exhausted(at, l) => Exhausted(at, l)
      case Planned(l) => Place(l, units[n - 1], Pinned(embedCpu, n - 1))
  }

  /** The whole of `set_device_map`'s planning loop. */
  function Plan(units: seq<Unit>, embedCpu: bool, budget: seq<int>): (r: PlanOutcome)
    ensures |r.ledger.remaining| == |r.ledger.reserve| == |budget|
    ensures r.Planned? ==> |r.ledger.devices| == |units|
    ensures r.Exhausted? ==> r.at < |units| && |r.ledger.devices| == r.at
  {
    PlanPrefix(units, embedCpu, budget, |units|)
  }

  /** The inner `while` loop of `set_device_map`: advance the device cursor
      until the module fits, stopping at the number of devices. */
  method ScanDevices(u: Unit, remaining: seq<int>, reserve: seq<nat>, from: nat) returns (currentIdx: nat)
    requires |reserve| == |remaining| && from <= |remaining|
    ensures currentIdx == FirstFit(u, remaining, reserve, from)
  {
    currentIdx := from;
    while true
      invariant from <= currentIdx <= |remaining|
      invariant forall k :: from <= k < currentIdx ==> !Fits(u, remaining, reserve, k)
      decreases |remaining| - currentIdx
    {
      if currentIdx >= |remaining| {
        return;
      }
      var devScratch := Max(u.scratch, reserve[currentIdx]);
      if u.footprint + devScratch <= remaining[currentIdx] {
        assert Fits(u, remaining, reserve, currentIdx);
        return;
      }
      currentIdx := currentIdx + 1;
    }
  }

  /** The step of an unpinned module, given the device the scan stopped at. */
  lemma PlaceAtFirstFit(l: Ledger, u: Unit, d: nat)
    requires WellFormed(l) && d == FirstFit(u, l.remaining, l.reserve, l.cursor)
    ensures d == |l.remaining| ==> Place(l, u, false) == Exhausted(|l.devices|, l)
    ensures d < |l.remaining| ==>
              Place(l, u, false) == Planned(Ledger(
                l.remaining[d := l.remaining[d] - u.footprint],
                l.reserve[d := Max(u.scratch, l.reserve[d])],
                d,
                l.devices + [d]))
  {
  }

  /** The pinned embedding as the next module of a plan that has not failed
      yet: it goes to the CPU and nothing else changes. */
  lemma PinnedPrefixStep(units: seq<Unit>, embedCpu: bool, budget: seq<int>, n: nat,
                         remaining: seq<int>, reserve: seq<nat>, cursor: nat, devices: seq<int>)
    requires n < |units| && Pinned(embedCpu, n)
    requires PlanPrefix(units, embedCpu, budget, n) == Planned(Ledger(remaining, reserve, cursor, devices))
    ensures PlanPrefix(units, embedCpu, budget, n + 1) == Planned(Ledger(remaining, reserve, cursor, devices + [-1]))
  {
  }

  /** An unpinned module as the next module of a plan that has not failed
      yet, given the device `d` the scan stopped at: the plan fails there when
      the scan ran off the end, else the module is charged to device `d`. */
  lemma UnpinnedPrefixStep(units: seq<Unit>, embedCpu: bool, budget: seq<int>, n: nat,
                           remaining: seq<int>, reserve: seq<nat>, cursor: nat, devices: seq<int>, d: nat)
    requires n < |units| && !Pinned(embedCpu, n)
    requires PlanPrefix(units, embedCpu, budget, n) == Planned(Ledger(remaining, reserve, cursor, devices))
    requires d == FirstFit(units[n], remaining, reserve, cursor)
    ensures d == |remaining| ==>
              PlanPrefix(units, embedCpu, budget, n + 1) == Exhausted(n, Ledger(remaining, reserve, cursor, devices))
    ensures d < |remaining| ==>
              PlanPrefix(units, embedCpu, budget, n + 1) == Planned(Ledger(
                remaining[d := remaining[d] - units[n].footprint],
                reserve[d := Max(units[n].scratch, reserve[d])],
                d,
                devices + [d]))
  {
    PlaceAtFirstFit(Ledger(remaining, reserve, cursor, devices), units[n], d);
  }

  /** The planning loop of `set_device_map`, on the budgets that remain after
      the per-device constants. */
  method PlanDevices(units: seq<Unit>, embedCpu: bool, budget: seq<int>) returns (r: PlanOutcome)
    ensures r == Plan(units, embedCpu, budget)
  {
    var remaining := budget;
    var reserve: seq<nat> := Zeros(|budget|);
    var currentIdx: nat := 0;
    var devices: seq<int> := [];
    var idx := 0;
    while idx < |units|
      invariant idx <= |units|
      invariant |remaining| == |reserve| == |budget| && currentIdx <= |budget|
      invariant PlanPrefix(units, embedCpu, budget, idx) == Planned(Ledger(remaining, reserve, currentIdx, devices))
    {
      var unit := units[idx];
      if idx == 0 && embedCpu {
        PinnedPrefixStep(units, embedCpu, budget, idx, remaining, reserve, currentIdx, devices);
        devices := devices + [-1];
        idx := idx + 1;
        continue;
      }
      var from := currentIdx;
      currentIdx := ScanDevices(unit, remaining, reserve, from);
      UnpinnedPrefixStep(units, embedCpu, budget, idx, remaining, reserve, from, devices, currentIdx);
      if currentIdx == |remaining| {
        ExhaustedPersists(units, embedCpu, budget, idx + 1, |units|);
        return Exhausted(idx, Ledger(remaining, reserve, from, devices));
      }
      reserve := reserve[currentIdx := Max(unit.scratch, reserve[currentIdx])];
      remaining := remaining[currentIdx := remaining[currentIdx] - unit.footprint];
      devices := devices + [currentIdx];
      idx := idx + 1;
    }
    return Planned(Ledger(remaining, reserve, currentIdx, devices));
  }

  // ---------------------------------------------------------------------
  // What a plan means: per-device loads and reserves

  /** Weight bytes that `devices` puts on each of `count` devices. */
  function Loads(units: seq<Unit>, devices: seq<int>, count: nat): (r: seq<int>)
    requires |devices| == |units|
    ensures |r| == count
  {
    if |units| == 0 then seq(count, _ => 0)
    else
      var n := |units| - 1;
      var prev := Loads(units[..n], devices[..n], count);
      if 0 <= devices[n] < count then prev[devices[n] := prev[devices[n]] + units[n].footprint]
      else prev
  }

  /** The largest scratch requirement among the modules `devices` puts on
      each of `count` devices, 0 for a device that gets none. */
  function Peaks(units: seq<Unit>, devices: seq<int>, count: nat): (r: seq<nat>)
    requires |devices| == |units|
    ensures |r| == count
  {
    if |units| == 0 then Zeros(count)
    else
      var n := |units| - 1;
      var prev := Peaks(units[..n], devices[..n], count);
      if 0 <= devices[n] < count then prev[devices[n] := Max(units[n].scratch, prev[devices[n]])]
      else prev
  }

  /** A device's peak covers the scratch of every module placed on it. */
  lemma {:induction false} PeaksBound(units: seq<Unit>, devices: seq<int>, count: nat, i: nat)
    requires |devices| == |units| && i < |units| && 0 <= devices[i] < count
    ensures units[i].scratch <= Peaks(units, devices, count)[devices[i]]
  {
    var n := |units| - 1;
    var prev := Peaks(units[..n], devices[..n], count);
    if i < n {
      PeaksBound(units[..n], devices[..n], count, i);
      assert units[..n][i] == units[i] && devices[..n][i] == devices[i];
    }
  }

  /** A device's peak is 0 or the scratch of some module placed on it. */
  lemma {:induction false} PeaksAttained(units: seq<Unit>, devices: seq<int>, count: nat, d: nat)
    requires |devices| == |units| && d < count
    ensures var p := Peaks(units, devices, count)[d];
      p == 0 || exists i :: 0 <= i < |units| && devices[i] == d && units[i].scratch == p
  {
    if |units| > 0 {
      var n := |units| - 1;
      PeaksAttained(units[..n], devices[..n], count, d);
      var p := Peaks(units[..n], devices[..n], count)[d];
      if p != 0 && Peaks(units, devices, count)[d] == p {
        var i :| 0 <= i < n && devices[..n][i] == d && units[..n][i].scratch == p;
        assert devices[i] == d && units[i].scratch == p;
      }
    }
  }

  /** Starting budget minus load, device by device. */
  function Subtract(budget: seq<int>, loads: seq<int>): (r: seq<int>)
    requires |loads| == |budget|
    ensures |r| == |budget|
  {
    seq(|budget|, d requires 0 <= d < |budget| => budget[d] - loads[d])
  }

  ghost predicate Shaped(budget: seq<int>, l: Ledger)
  {
    |l.remaining| == |budget| && |l.reserve| == |budget| && l.cursor <= |budget|
  }

  /** The pinned embedding sits on -1, every other module on a device no
      later than the cursor, and device indices never decrease. */
  ghost predicate Ordered(embedCpu: bool, budget: seq<int>, l: Ledger)
  {
    var n := |l.devices|;
    && (forall i :: 0 <= i < n ==> (l.devices[i] == -1 <==> Pinned(embedCpu, i)))
    && (forall i :: 0 <= i < n && !Pinned(embedCpu, i) ==> 0 <= l.devices[i] <= l.cursor < |budget|)
    && (forall i, j :: 0 <= i < j < n ==> l.devices[i] <= l.devices[j])
  }

  /** Remaining bytes and reserves are those of the modules placed so far. */
  ghost predicate Accounted(units: seq<Unit>, budget: seq<int>, l: Ledger)
  {
    var n := |l.devices|;
    && n <= |units|
    && l.remaining == Subtract(budget, Loads(units[..n], l.devices, |budget|))
    && l.reserve == Peaks(units[..n], l.devices, |budget|)
  }

  /** Every device that received a module still holds its reserve. */
  ghost predicate Headroom(l: Ledger)
  {
    forall i :: 0 <= i < |l.devices| && 0 <= l.devices[i] < |l.remaining| && l.devices[i] < |l.reserve| ==>
      l.remaining[l.devices[i]] >= l.reserve[l.devices[i]]
  }

  /** What the ledger says about the modules placed so far. */
  ghost predicate Consistent(units: seq<Unit>, embedCpu: bool, budget: seq<int>, l: Ledger)
  {
    Shaped(budget, l) && Ordered(embedCpu, budget, l) && Accounted(units, budget, l) && Headroom(l)
  }

  /** A pinned module adds -1 to the devices and changes nothing else. */
  lemma PinnedKeepsConsistent(units: seq<Unit>, embedCpu: bool, budget: seq<int>, l: Ledger)
    requires Consistent(units, embedCpu, budget, l) && |l.devices| < |units|
    requires Pinned(embedCpu, |l.devices|)
    ensures Consistent(units, embedCpu, budget, l.(devices := l.devices + [-1]))
  {
    var n := |l.devices|;
    var l' := l.(devices := l.devices + [-1]);
    assert units[..n + 1][..n] == units[..n];
    assert l'.devices[..n] == l.devices;
  }

  lemma PlacedKeepsOrdered(units: seq<Unit>, embedCpu: bool, budget: seq<int>, l: Ledger)
    requires Shaped(budget, l) && Ordered(embedCpu, budget, l) && |l.devices| < |units|
    requires !Pinned(embedCpu, |l.devices|)
    requires Place(l, units[|l.devices|], false).Planned?
    ensures Ordered(embedCpu, budget, Place(l, units[|l.devices|], false).ledger)
  {
    var n := |l.devices|;
    PlaceSpec(l, units[n], false);
    var l' := Place(l, units[n], false).ledger;
    assert l'.devices == l.devices + [l'.cursor];
    forall i, j | 0 <= i < j < n + 1
      ensures l'.devices[i] <= l'.devices[j]
    {
      if j == n && !Pinned(embedCpu, i) {
        assert l.devices[i] <= l.cursor;
      }
    }
  }

  lemma PlacedKeepsAccounted(units: seq<Unit>, embedCpu: bool, budget: seq<int>, l: Ledger)
    requires Consistent(units, embedCpu, budget, l) && |l.devices| < |units|
    requires Place(l, units[|l.devices|], false).Planned?
    ensures Accounted(units, budget, Place(l, units[|l.devices|], false).ledger)
  {
    var n := |l.devices|;
    var u := units[n];
    PlaceSpec(l, u, false);
    var l' := Place(l, u, false).ledger;
    var d := l'.cursor;
    var count := |budget|;
    assert units[..n + 1][..n] == units[..n];
    assert l'.devices[..n] == l.devices;
    var loads := Loads(units[..n], l.devices, count);
    assert Loads(units[..n + 1], l'.devices, count) == loads[d := loads[d] + u.footprint];
    assert l'.remaining == Subtract(budget, loads[d := loads[d] + u.footprint]);
  }

  lemma PlacedKeepsHeadroom(units: seq<Unit>, embedCpu: bool, budget: seq<int>, l: Ledger)
    requires Consistent(units, embedCpu, budget, l) && |l.devices| < |units|
    requires Place(l, units[|l.devices|], false).Planned?
    ensures Headroom(Place(l, units[|l.devices|], false).ledger)
  {
    PlaceSpec(l, units[|l.devices|], false);
    var l' := Place(l, units[|l.devices|], false).ledger;
    assert l'.devices == l.devices + [l'.cursor];
  }

  lemma StepKeepsConsistent(units: seq<Unit>, embedCpu: bool, budget: seq<int>, l: Ledger)
    requires Consistent(units, embedCpu, budget, l) && |l.devices| < |units|
    ensures var r := Place(l, units[|l.devices|], Pinned(embedCpu, |l.devices|));
      r.Planned? ==> Consistent(units, embedCpu, budget, r.ledger)
  {
    var n := |l.devices|;
    if Pinned(embedCpu, n) {
      PinnedKeepsConsistent(units, embedCpu, budget, l);
    } else if Place(l, units[n], false).Planned? {
      PlacedKeepsOrdered(units, embedCpu, budget, l);
      PlacedKeepsAccounted(units, embedCpu, budget, l);
      PlacedKeepsHeadroom(units, embedCpu, budget, l);
    }
  }

  /** The ledger after every prefix of the modules is consistent. */
  lemma {:induction false} PlanInvariant(units: seq<Unit>, embedCpu: bool, budget: seq<int>, n: nat)
    requires n <= |units|
    ensures Consistent(units, embedCpu, budget, PlanPrefix(units, embedCpu, budget, n).ledger)
  {
    if n == 0 {
      assert units[..0] == [];
      assert Loads([], [], |budget|) == seq(|budget|, _ => 0);
    } else {
      PlanInvariant(units, embedCpu, budget, n - 1);
      var prev := PlanPrefix(units, embedCpu, budget, n - 1);
      if prev.Planned? {
        StepKeepsConsistent(units, embedCpu, budget, prev.ledger);
      }
    }
  }

  /** A device that no module was sent to carries no load. */
  lemma {:induction false} LoadsOfUnused(units: seq<Unit>, devices: seq<int>, count: nat, d: nat)
    requires |devices| == |units| && d < count && d !in devices
    ensures Loads(units, devices, count)[d] == 0
  {
    if |units| > 0 {
      var n := |units| - 1;
      assert d !in devices[..n];
      LoadsOfUnused(units[..n], devices[..n], count, d);
    }
  }

  /** Device assignment range and order: the pinned embedding gets -1, every
      other module a device index in [0, number of devices), and indices
      never decrease along the module list. */
  lemma PlanDeviceOrder(units: seq<Unit>, embedCpu: bool, budget: seq<int>)
    requires Plan(units, embedCpu, budget).Planned?
    ensures var devices := Plan(units, embedCpu, budget).ledger.devices;
      && |devices| == |units|
      && (forall i :: 0 <= i < |units| ==> (devices[i] == -1 <==> Pinned(embedCpu, i)))
      && (forall i :: 0 <= i < |units| && !Pinned(embedCpu, i) ==> 0 <= devices[i] < |budget|)
      && (forall i, j :: 0 <= i < j < |units| ==> devices[i] <= devices[j])
  {
    PlanInvariant(units, embedCpu, budget, |units|);
  }

  /** Budget after planning: each device's remaining bytes are its starting
      budget minus the weights placed on it, its reserve is the largest
      scratch among those modules (0 if none), and a device that received
      a module still holds at least its reserve. */
  lemma PlanBudget(units: seq<Unit>, embedCpu: bool, budget: seq<int>)
    requires Plan(units, embedCpu, budget).Planned?
    ensures var l := Plan(units, embedCpu, budget).ledger;
      && |l.devices| == |units| && |l.remaining| == |budget| && |l.reserve| == |budget|
      && (forall d :: 0 <= d < |budget| ==> l.remaining[d] == budget[d] - Loads(units, l.devices, |budget|)[d])
      && (forall d :: 0 <= d < |budget| ==> l.reserve[d] == Peaks(units, l.devices, |budget|)[d])
      && (forall d :: 0 <= d < |budget| && d in l.devices ==> l.remaining[d] >= l.reserve[d] >= 0)
  {
    PlanInvariant(units, embedCpu, budget, |units|);
    assert units[..|units|] == units;
    var l := Plan(units, embedCpu, budget).ledger;
    forall d | 0 <= d < |budget| && d in l.devices
      ensures l.remaining[d] >= l.reserve[d]
    {
      var i :| 0 <= i < |l.devices| && l.devices[i] == d;
    }
  }

  // ---------------------------------------------------------------------
  // When planning fails

  lemma {:induction false} ExhaustedPersists(units: seq<Unit>, embedCpu: bool, budget: seq<int>, j: nat, k: nat)
    requires j <= k <= |units|
    requires PlanPrefix(units, embedCpu, budget, j).Exhausted?
    ensures PlanPrefix(units, embedCpu, budget, k) == PlanPrefix(units, embedCpu, budget, j)
    decreases k - j
  {
    if j < k {
      ExhaustedPersists(units, embedCpu, budget, j, k - 1);
    }
  }

  lemma {:induction false} ExhaustedAt(units: seq<Unit>, embedCpu: bool, budget: seq<int>, n: nat)
    requires n <= |units| && PlanPrefix(units, embedCpu, budget, n).Exhausted?
    ensures var r := PlanPrefix(units, embedCpu, budget, n);
      r.at < n && PlanPrefix(units, embedCpu, budget, r.at) == Planned(r.ledger)
      && PlanPrefix(units, embedCpu, budget, r.at + 1) == r
  {
    var prev := PlanPrefix(units, embedCpu, budget, n - 1);
    if prev.Exhausted? {
      ExhaustedAt(units, embedCpu, budget, n - 1);
    }
  }

  /** Planning fails only at a module that is not pinned and fits on no
      device from the cursor on. */
  lemma PlanFailsOnlyWhenNothingFits(units: seq<Unit>, embedCpu: bool, budget: seq<int>)
    requires Plan(units, embedCpu, budget).Exhausted?
    ensures var r := Plan(units, embedCpu, budget);
      && r.at < |units|
      && PlanPrefix(units, embedCpu, budget, r.at) == Planned(r.ledger)
      && !Pinned(embedCpu, r.at)
      && forall d :: r.ledger.cursor <= d < |r.ledger.remaining| ==>
           !Fits(units[r.at], r.ledger.remaining, r.ledger.reserve, d)
  {
    ExhaustedAt(units, embedCpu, budget, |units|);
    var r := Plan(units, embedCpu, budget);
    PlaceSpec(r.ledger, units[r.at], Pinned(embedCpu, r.at));
  }

  /** Conversely, the first module that fits on no device from the cursor on
      makes the whole plan fail at that module. */
  lemma PlanFailsWhenNothingFits(units: seq<Unit>, embedCpu: bool, budget: seq<int>, j: nat)
    requires j < |units| && PlanPrefix(units, embedCpu, budget, j).Planned?
    requires !Pinned(embedCpu, j)
    requires var l := PlanPrefix(units, embedCpu, budget, j).ledger;
      forall d :: l.cursor <= d < |l.remaining| ==> !Fits(units[j], l.remaining, l.reserve, d)
    ensures Plan(units, embedCpu, budget) == Exhausted(j, PlanPrefix(units, embedCpu, budget, j).ledger)
  {
    PlaceSpec(PlanPrefix(units, embedCpu, budget, j).ledger, units[j], false);
    ExhaustedPersists(units, embedCpu, budget, j + 1, |units|);
  }

  // ---------------------------------------------------------------------
  // Sums

  function Sum(s: seq<int>): int
  {
    if s == [] then 0 else Sum(s[..|s| - 1]) + s[|s| - 1]
  }

  lemma {:induction false} SumUpdate(s: seq<int>, i: nat, v: int)
    requires i < |s|
    ensures Sum(s[i := v]) == Sum(s) - s[i] + v
  {
    var n := |s| - 1;
    if i < n {
      assert s[i := v][..n] == s[..n][i := v];
      SumUpdate(s[..n], i, v);
    } else {
      assert s[i := v][..n] == s[..n];
    }
  }

  lemma {:induction false} SumZeros(count: nat)
    ensures Sum(seq(count, _ => 0)) == 0
  {
    if count > 0 {
      assert seq(count, _ => 0)[..count - 1] == seq(count - 1, _ => 0);
      SumZeros(count - 1);
    }
  }

  lemma {:induction false} SumMonotone(a: seq<int>, b: seq<int>)
    requires |a| == |b| && forall d :: 0 <= d < |a| ==> a[d] <= b[d]
    ensures Sum(a) <= Sum(b)
  {
    if |a| > 0 {
      SumMonotone(a[..|a| - 1], b[..|b| - 1]);
    }
  }

  /** Weight bytes of all modules. */
  function TotalFootprint(units: seq<Unit>): nat
  {
    if units == [] then 0 else TotalFootprint(units[..|units| - 1]) + units[|units| - 1].footprint
  }

  /** Weight bytes the planner must place on accelerators. */
  function PlacedFootprint(units: seq<Unit>, embedCpu: bool): int
  {
    TotalFootprint(units) - if embedCpu && |units| > 0 then units[0].footprint else 0
  }

  /** Budgets with negative entries counted as empty. */
  function Clamp(budget: seq<int>): (c: seq<int>)
    ensures |c| == |budget|
  {
    seq(|budget|, d requires 0 <= d < |budget| => Max(budget[d], 0))
  }

  /** The loads of an assignment that sends the pinned embedding to -1 and
      everything else to a device add up to the footprint to place. */
  lemma {:induction false} LoadsTotal(units: seq<Unit>, devices: seq<int>, embedCpu: bool, count: nat)
    requires |devices| == |units|
    requires forall i :: 0 <= i < |units| ==> (devices[i] == -1 <==> Pinned(embedCpu, i))
    requires forall i :: 0 <= i < |units| && !Pinned(embedCpu, i) ==> 0 <= devices[i] < count
    ensures Sum(Loads(units, devices, count)) == PlacedFootprint(units, embedCpu)
  {
    if |units| == 0 {
      SumZeros(count);
    } else {
      var n := |units| - 1;
      LoadsTotal(units[..n], devices[..n], embedCpu, count);
      var prev := Loads(units[..n], devices[..n], count);
      if 0 <= devices[n] < count {
        SumUpdate(prev, devices[n], prev[devices[n]] + units[n].footprint);
      }
      if n == 0 {
        assert units[..n] == [];
      }
    }
  }

  /** Planning over budgets whose usable bytes add up to less than the
      weights to place always fails; it never truncates silently. */
  lemma PlanOverBudgetFails(units: seq<Unit>, embedCpu: bool, budget: seq<int>)
    requires Sum(Clamp(budget)) < PlacedFootprint(units, embedCpu)
    ensures Plan(units, embedCpu, budget).Exhausted?
  {
    if Plan(units, embedCpu, budget).Planned? {
      PlanInvariant(units, embedCpu, budget, |units|);
      var l := Plan(units, embedCpu, budget).ledger;
      assert units[..|units|] == units;
      var loads := Loads(units, l.devices, |budget|);
      LoadsTotal(units, l.devices, embedCpu, |budget|);
      forall d | 0 <= d < |budget|
        ensures loads[d] <= Clamp(budget)[d]
      {
        if d in l.devices {
          var i :| 0 <= i < |l.devices| && l.devices[i] == d;
          assert l.remaining[d] >= l.reserve[d] >= 0;
        } else {
          LoadsOfUnused(units, l.devices, |budget|, d);
        }
      }
      SumMonotone(loads, Clamp(budget));
      assert false;
    }
  }

  // ---------------------------------------------------------------------
  // When the first device suffices

  /** The largest scratch requirement of any module. */
  function MaxScratch(units: seq<Unit>): (m: nat)
    ensures forall i :: 0 <= i < |units| ==> units[i].scratch <= m
  {
    if units == [] then 0 else Max(MaxScratch(units[..|units| - 1]), units[|units| - 1].scratch)
  }

  lemma {:induction false} TotalFootprintPrefix(units: seq<Unit>, k: nat)
    requires k <= |units|
    ensures TotalFootprint(units[..k]) <= TotalFootprint(units)
    decreases |units| - k
  {
    if k == |units| {
      assert units[..k] == units;
    } else {
      assert units[..k + 1][..k] == units[..k];
      TotalFootprintPrefix(units, k + 1);
    }
  }

  /** The ledger while every module so far went to device 0. */
  ghost predicate OnFirstDevice(units: seq<Unit>, embedCpu: bool, budget: seq<int>, l: Ledger)
  {
    && |l.devices| <= |units| && |budget| >= 1
    && |l.remaining| == |budget| && |l.reserve| == |budget| && l.cursor == 0
    && (forall i :: 0 <= i < |l.devices| && !Pinned(embedCpu, i) ==> l.devices[i] == 0)
    && l.remaining[0] >= budget[0] - TotalFootprint(units[..|l.devices|])
    && l.reserve[0] <= MaxScratch(units)
  }

  /** The pinned embedding keeps every module so far on device 0. */
  lemma FirstDevicePinnedStep(units: seq<Unit>, embedCpu: bool, budget: seq<int>, l: Ledger)
    requires OnFirstDevice(units, embedCpu, budget, l) && |l.devices| < |units|
    requires Pinned(embedCpu, |l.devices|)
    ensures var r := Place(l, units[|l.devices|], true);
      r.Planned? && OnFirstDevice(units, embedCpu, budget, r.ledger)
  {
    var n := |l.devices|;
    var l' := l.(devices := l.devices + [-1]);
    assert Place(l, units[n], true) == Planned(l');
    assert units[..n + 1][..n] == units[..n];
    assert TotalFootprint(units[..n + 1]) == TotalFootprint(units[..n]) + units[n].footprint;
  }

  /** While device 0 holds everything so far and its budget covers all the
      weights plus the largest scratch, the next unpinned module fits there. */
  lemma FirstDeviceUnpinnedStep(units: seq<Unit>, embedCpu: bool, budget: seq<int>, l: Ledger)
    requires OnFirstDevice(units, embedCpu, budget, l) && |l.devices| < |units|
    requires !Pinned(embedCpu, |l.devices|)
    requires budget[0] >= TotalFootprint(units) + MaxScratch(units)
    ensures var r := Place(l, units[|l.devices|], false);
      r.Planned? && OnFirstDevice(units, embedCpu, budget, r.ledger)
  {
    var n := |l.devices|;
    var u := units[n];
    assert units[..n + 1][..n] == units[..n];
    assert TotalFootprint(units[..n + 1]) == TotalFootprint(units[..n]) + u.footprint;
    TotalFootprintPrefix(units, n + 1);
    assert Fits(u, l.remaining, l.reserve, 0);
    PlaceAtFirstFit(l, u, 0);
    var l' := Place(l, u, false).ledger;
    assert l'.remaining[0] >= budget[0] - TotalFootprint(units[..n + 1]);
    assert forall i :: 0 <= i < n ==> l'.devices[i] == l.devices[i];
  }

  lemma FirstDeviceStep(units: seq<Unit>, embedCpu: bool, budget: seq<int>, l: Ledger)
    requires OnFirstDevice(units, embedCpu, budget, l) && |l.devices| < |units|
    requires budget[0] >= TotalFootprint(units) + MaxScratch(units)
    ensures var r := Place(l, units[|l.devices|], Pinned(embedCpu, |l.devices|));
      r.Planned? && OnFirstDevice(units, embedCpu, budget, r.ledger)
  {
    if Pinned(embedCpu, |l.devices|) {
      FirstDevicePinnedStep(units, embedCpu, budget, l);
    } else {
      FirstDeviceUnpinnedStep(units, embedCpu, budget, l);
    }
  }

  lemma {:induction false} FirstDevicePrefix(units: seq<Unit>, embedCpu: bool, budget: seq<int>, n: nat)
    requires n <= |units| && |budget| >= 1
    requires budget[0] >= TotalFootprint(units) + MaxScratch(units)
    ensures PlanPrefix(units, embedCpu, budget, n).Planned?
    ensures OnFirstDevice(units, embedCpu, budget, PlanPrefix(units, embedCpu, budget, n).ledger)
  {
    if n == 0 {
      assert units[..0] == [];
    } else {
      FirstDevicePrefix(units, embedCpu, budget, n - 1);
      FirstDeviceStep(units, embedCpu, budget, PlanPrefix(units, embedCpu, budget, n - 1).ledger);
    }
  }

  /** With a first device whose budget covers every weight plus the largest
      scratch, planning succeeds and puts every unpinned module on device 0. */
  lemma PlanFirstDeviceSuffices(units: seq<Unit>, embedCpu: bool, budget: seq<int>)
    requires |budget| >= 1
    requires budget[0] >= TotalFootprint(units) + MaxScratch(units)
    ensures Plan(units, embedCpu, budget).Planned?
    ensures forall i :: 0 <= i < |units| && !Pinned(embedCpu, i) ==>
              Plan(units, embedCpu, budget).ledger.devices[i] == 0
  {
    FirstDevicePrefix(units, embedCpu, budget, |units|);
  }
}
