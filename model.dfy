/** `ExLlamaV2`: the module list, device placement, cache map, per-device
    tensors and the control flow of a forward pass. Module internals
    (weights, `module.forward`) are abstract: a forward pass is recorded as
    the trace of module calls it makes. */
module Model {
  import opened Common
  import opened Layout
  import opened Planner
  import opened Scratch
  import opened AttnMask

  /** The key/value cache, reduced to the number of positions it holds. */
  class Cache {
    var currentSeqLen: nat

    constructor (currentSeqLen: nat)
      ensures this.currentSeqLen == currentSeqLen
    {
      this.currentSeqLen := currentSeqLen;
    }
  }

  /** One `module.forward(x, cache, attn_mask)` call: the module, the device
      it runs on, whether the mask was rebuilt just before it, and the mask
      it was given. */
  datatype Call = Call(moduleIdx: nat, device: Device, rebuilt: bool, mask: Option<Mask4>)

  /** A completed forward pass: its calls, and whether it returned the last
      module's output (false when `preprocess_only` stopped it and it
      returned None). */
  datatype ForwardRun = ForwardRun(calls: seq<Call>, output: bool)

  // ---------------------------------------------------------------------
  // What the dispatch loop of `forward` does, as a function of the devices

  /** The device indices as torch devices. */
  function ToDevices(idx: seq<int>): (devs: seq<Device>)
    ensures |devs| == |idx|
    ensures forall i :: 0 <= i < |idx| ==> devs[i] == TorchDevice(idx[i])
  {
    seq(|idx|, i requires 0 <= i < |idx| => TorchDevice(idx[i]))
  }

  /** `prev_device` before module `j`: the last non-CPU device among the
      first `j` modules, or None. */
  function PrevGpu(devs: seq<Device>, j: nat): (r: Option<Device>)
    requires j <= |devs|
    ensures r.Some? ==> r.value != Cpu
    ensures r.None? <==> forall i :: 0 <= i < j ==> devs[i] == Cpu
  {
    if j == 0 then None
    else if devs[j - 1] != Cpu then Some(devs[j - 1])
    else PrevGpu(devs, j - 1)
  }

  /** Once some module has run off the CPU, `prev_device` stays set. */
  lemma {:induction false} PrevGpuStaysSet(devs: seq<Device>, j: nat, k: nat)
    requires j <= k <= |devs| && PrevGpu(devs, j).Some?
    ensures PrevGpu(devs, k).Some?
    decreases k - j
  {
    if j < k {
      PrevGpuStaysSet(devs, j, k - 1);
    }
  }

  /** Module `j` rebuilds the mask when it runs off the CPU and on another
      device than the last non-CPU module. */
  predicate Rebuilds(devs: seq<Device>, j: nat)
    requires j < |devs|
    ensures Rebuilds(devs, j) ==> devs[j] != Cpu && PrevGpu(devs, j + 1) == Some(devs[j])
    ensures j == 0 ==> (Rebuilds(devs, j) <==> devs[0] != Cpu)
  {
    devs[j] != Cpu && PrevGpu(devs, j) != Some(devs[j])
  }

  /** The call module `j` makes: once some module has run off the CPU, the
      mask is the one built (every build has the same arguments); before
      that it is None. */
  function CallAt(devs: seq<Device>, j: nat, built: Option<Mask4>): (c: Call)
    requires j < |devs|
    ensures c.moduleIdx == j && c.device == devs[j]
    ensures c.rebuilt ==> c.device != Cpu
    ensures c.mask.Some? ==> c.mask == built
    ensures c.mask.None? <==> built.None? || forall i :: 0 <= i <= j ==> devs[i] == Cpu
  {
    Call(j, devs[j], Rebuilds(devs, j), if PrevGpu(devs, j + 1).Some? then built else None)
  }

  /** The calls of the first `stop` modules. */
  function Dispatch(devs: seq<Device>, stop: nat, built: Option<Mask4>): (calls: seq<Call>)
    requires stop <= |devs|
    ensures |calls| == stop
  {
    if stop == 0 then [] else Dispatch(devs, stop - 1, built) + [CallAt(devs, stop - 1, built)]
  }

  /** Call `j` of a dispatch is module `j`'s call, whatever the stop. */
  lemma {:induction false} DispatchAt(devs: seq<Device>, stop: nat, built: Option<Mask4>, j: nat)
    requires j < stop <= |devs|
    ensures Dispatch(devs, stop, built)[j] == CallAt(devs, j, built)
  {
    if j < stop - 1 {
      DispatchAt(devs, stop - 1, built, j);
    }
  }

  /** Device indices that are -1 (CPU) or a GPU index and never decrease. */
  ghost predicate NonDecreasing(idx: seq<int>)
  {
    && (forall i :: 0 <= i < |idx| ==> idx[i] >= -1)
    && (forall i, k :: 0 <= i < k < |idx| ==> idx[i] <= idx[k])
  }

  /** With device indices in that order, the last non-CPU device before `j`
      is simply module j-1's. */
  lemma {:induction false} PrevGpuOfOrdered(idx: seq<int>, j: nat)
    requires j <= |idx|
    requires NonDecreasing(idx)
    ensures PrevGpu(ToDevices(idx), j) == if j > 0 && idx[j - 1] >= 0 then Some(Cuda(idx[j - 1])) else None
  {
    if j > 0 && idx[j - 1] == -1 {
      PrevGpuOfOrdered(idx, j - 1);
      if j > 1 {
        assert idx[j - 2] <= idx[j - 1];
      }
    }
  }

  /** Under such an order, the mask is rebuilt exactly at the modules that
      run on a GPU and on another device than the module before them. */
  lemma RebuildsOfOrdered(idx: seq<int>, j: nat)
    requires j < |idx|
    requires NonDecreasing(idx)
    ensures Rebuilds(ToDevices(idx), j) <==> idx[j] >= 0 && (j == 0 || idx[j - 1] != idx[j])
  {
    PrevGpuOfOrdered(idx, j);
  }

  /** Call `j` of a dispatch over device indices in that order. */
  lemma OrderedCall(idx: seq<int>, stop: nat, built: Option<Mask4>, j: nat)
    requires j < stop <= |idx|
    requires NonDecreasing(idx)
    ensures var call := Dispatch(ToDevices(idx), stop, built)[j];
      && call.moduleIdx == j
      && (call.rebuilt <==> idx[j] >= 0 && (j == 0 || idx[j - 1] != idx[j]))
      && call.mask == if idx[j] == -1 && (j == 0 || idx[j - 1] == -1) then None else built
  {
    DispatchAt(ToDevices(idx), stop, built, j);
    RebuildsOfOrdered(idx, j);
    PrevGpuOfOrdered(idx, j + 1);
  }

  /** For a placement the planner produced: module `j` rebuilds the mask
      exactly when it is not the pinned embedding and its device differs
      from the module before it, and every module except the CPU-pinned
      embedding is given the built mask. */
  lemma PlannedDispatch(units: seq<Unit>, embedCpu: bool, budget: seq<int>, devices: seq<int>, stop: nat, built: Option<Mask4>)
    requires Plan(units, embedCpu, budget).Planned? && Plan(units, embedCpu, budget).ledger.devices == devices
    requires stop <= |units|
    ensures stop <= |devices|
    ensures var calls := Dispatch(ToDevices(devices), stop, built);
      forall j :: 0 <= j < stop ==>
        && calls[j].moduleIdx == j
        && (calls[j].rebuilt <==> !Pinned(embedCpu, j) && (j == 0 || devices[j - 1] != devices[j]))
        && calls[j].mask == if Pinned(embedCpu, j) then None else built
  {
    PlanDeviceOrder(units, embedCpu, budget);
    assert NonDecreasing(devices);
    var calls := Dispatch(ToDevices(devices), stop, built);
    forall j | 0 <= j < stop
      ensures calls[j].moduleIdx == j
      ensures calls[j].rebuilt <==> !Pinned(embedCpu, j) && (j == 0 || devices[j - 1] != devices[j])
      ensures calls[j].mask == if Pinned(embedCpu, j) then None else built
    {
      OrderedCall(devices, stop, built, j);
    }
  }

  /** The loop of `set_device_map` that makes one fresh, unprepared
      `DeviceTensors` per device, numbered in order, each with its scratch
      size. */
  method NewDeviceTensors(scratchBytes: seq<nat>) returns (tensors: seq<DeviceTensors>)
    ensures |tensors| == |scratchBytes|
    ensures forall d :: 0 <= d < |scratchBytes| ==>
              && fresh(tensors[d])
              && tensors[d].deviceIdx == d
              && tensors[d].scratchBytes == scratchBytes[d]
              && !tensors[d].ready && !tensors[d].sincos && tensors[d].arena.None?
              && tensors[d].scratchIdx == 0
    ensures forall d, e :: 0 <= d < e < |scratchBytes| ==> tensors[d] != tensors[e]
  {
    tensors := [];
    for idx := 0 to |scratchBytes|
      invariant |tensors| == idx
      invariant forall d :: 0 <= d < idx ==>
                  && fresh(tensors[d])
                  && tensors[d].deviceIdx == d
                  && tensors[d].scratchBytes == scratchBytes[d]
                  && !tensors[d].ready && !tensors[d].sincos && tensors[d].arena.None?
                  && tensors[d].scratchIdx == 0
      invariant forall d, e :: 0 <= d < e < idx ==> tensors[d] != tensors[e]
    {
      var t := new DeviceTensors(idx, scratchBytes[idx]);
      tensors := tensors + [t];
    }
  }

  /** What a forward pass over modules on `devs` that stops after `stop`
      modules returns: the shape error first, then the mask builder's error
      if some module that runs is off the CPU, else the calls. */
  function ForwardOutcome(devs: seq<Device>, stop: nat, shapeOk: bool, built: Result<Option<Mask4>>, preprocessOnly: bool): (r: Result<ForwardRun>)
    requires stop <= |devs|
    ensures !shapeOk ==> r == Err(ShapeMismatch)
    ensures shapeOk && built.Ok? ==> r.Ok?
    ensures shapeOk && built.Err? ==> (r.Ok? <==> forall i :: 0 <= i < stop ==> devs[i] == Cpu)
    ensures r.Err? && shapeOk ==> r.error == built.error
    ensures r.Ok? ==> |r.value.calls| == stop && r.value.output == !preprocessOnly
  {
    if !shapeOk then Err(ShapeMismatch)
    else if built.Err? && PrevGpu(devs, stop).Some? then Err(built.error)
    else Ok(ForwardRun(Dispatch(devs, stop, if built.Ok? then built.value else None), !preprocessOnly))
  }

  /** The module loop of `forward` over modules on `devs`: each module runs
      in order on its device, the mask is rebuilt whenever the device changes
      to another GPU, and with `preprocess_only` the loop stops after module
      `lastKv` (the last one that writes the cache) and yields no output.
      Building the mask can fail only at a rebuild. */
  method RunModules(devs: seq<Device>, lastKv: nat, preprocessOnly: bool,
                    batchSize: nat, seqLen: nat, pastLen: nat, inputMask: Option<BoolTensor>)
    returns (r: Result<ForwardRun>)
    requires lastKv < |devs|
    requires inputMask.Some? ==> Rectangular(inputMask.value)
    ensures r == ForwardOutcome(devs, if preprocessOnly then lastKv + 1 else |devs|, true,
                                BuildAttnMask(batchSize, seqLen, pastLen, inputMask), preprocessOnly)
  {
    ghost var built := BuildAttnMask(batchSize, seqLen, pastLen, inputMask);
    ghost var builtMask := if built.Ok? then built.value else None;
    var prevDevice: Option<Device> := None;
    var attnMask: Option<Mask4> := None;
    var calls: seq<Call> := [];
    var output := true;
    var idx := 0;
    while idx < |devs|
      invariant idx <= |devs|
      invariant preprocessOnly ==> idx <= lastKv
      invariant prevDevice == PrevGpu(devs, idx)
      invariant prevDevice.Some? ==> built.Ok?
      invariant attnMask == if prevDevice.Some? then builtMask else None
      invariant calls == Dispatch(devs, idx, builtMask)
      invariant output
    {
      var device := devs[idx];
      var rebuilt := false;
      if Some(device) != prevDevice && device != Cpu {
        prevDevice := Some(device);
        var mask := BuildAttnMask(batchSize, seqLen, pastLen, inputMask);
        if mask.Err? {
          PrevGpuStaysSet(devs, idx + 1, if preprocessOnly then lastKv + 1 else |devs|);
          return Err(mask.error);
        }
        attnMask := mask.value;
        rebuilt := true;
      }
      assert prevDevice == PrevGpu(devs, idx + 1);
      assert Call(idx, device, rebuilt, attnMask) == CallAt(devs, idx, builtMask);
      calls := calls + [Call(idx, device, rebuilt, attnMask)];
      if preprocessOnly && idx == lastKv {
        output := false;
        break;
      }
      idx := idx + 1;
    }
    return Ok(ForwardRun(calls, output));
  }

  function Somes(s: seq<int>): (r: seq<Option<int>>)
    ensures |r| == |s| && forall i :: 0 <= i < |s| ==> r[i] == Some(s[i])
  {
    seq(|s|, i requires 0 <= i < |s| => Some(s[i]))
  }

  // ---------------------------------------------------------------------
  // The model object

  /** `ExLlamaV2`. The module list and `last_kv_layer_idx` are fixed at
      construction; each module's device index (unset until a device map is
      applied), the cache map and the per-device tensors change in place. */
  class ExLlama {
    const config: Config
    const modules: seq<Unit>
    const lastKvLayerIdx: int
    var deviceIdx: seq<Option<int>>
    var cacheMap: map<nat, Device>
    var deviceTensors: seq<DeviceTensors>

    ghost predicate Valid()
      reads this
    {
      && config.numHiddenLayers >= 1
      && KindsOf(modules) == ModuleLayout(config.numHiddenLayers)
      && lastKvLayerIdx == 2 * config.numHiddenLayers - 1
      && |deviceIdx| == |modules|
    }

    /** Every module has been given a device. */
    predicate Placed()
      reads this
    {
      forall i :: 0 <= i < |deviceIdx| ==> deviceIdx[i].Some?
    }

    function DeviceInts(): (idx: seq<int>)
      reads this
      requires Placed()
      ensures |idx| == |deviceIdx| && forall i :: 0 <= i < |idx| ==> Some(idx[i]) == deviceIdx[i]
    {
      var slots := deviceIdx;
      seq(|slots|, i requires 0 <= i < |slots| => slots[i].value)
    }

    /** `ExLlamaV2.__init__`: build the module list, each module reporting
        its weight footprint and scratch size, and locate the last module
        that touches the cache. */
    constructor (config: Config, footprintOf: Kind -> nat, scratchOf: Kind -> nat)
      requires config.numHiddenLayers >= 1
      ensures Valid()
      ensures this.config == config
      ensures forall i :: 0 <= i < |modules| ==>
                modules[i] == Unit(modules[i].kind, footprintOf(modules[i].kind), scratchOf(modules[i].kind))
      ensures deviceIdx == seq(|modules|, _ => None)
      ensures cacheMap == map[] && deviceTensors == []
    {
      var n := config.numHiddenLayers;
      var kinds := BuildModuleList(n);
      var found := FindLastKvLayer(kinds);
      LastKvLayerOfLayout(n);
      assert kinds[2 * n - 1].Attention?;
      this.config := config;
      this.modules := seq(|kinds|, i requires 0 <= i < |kinds| => Unit(kinds[i], footprintOf(kinds[i]), scratchOf(kinds[i])));
      this.lastKvLayerIdx := found.value;
      deviceIdx := seq(|kinds|, _ => None);
      cacheMap := map[];
      deviceTensors := [];
      new;
      assert KindsOf(modules) == kinds;
    }

    /** `set_cache_map`: every attention module records its device under its
        layer index. */
    method SetCacheMap()
      requires |deviceIdx| == |modules| && Placed()
      modifies this`cacheMap
      ensures cacheMap == WriteCacheMap(old(cacheMap), KindsOf(modules), DeviceInts(), |modules|)
    {
      ghost var kinds := KindsOf(modules);
      ghost var devices := DeviceInts();
      for i := 0 to |modules|
        invariant cacheMap == WriteCacheMap(old(cacheMap), kinds, devices, i)
      {
        assert kinds[i] == modules[i].kind && devices[i] == deviceIdx[i].value;
        assert WriteCacheMap(old(cacheMap), kinds, devices, i + 1)
                 == if kinds[i].Attention? then cacheMap[kinds[i].layer := TorchDevice(devices[i])] else cacheMap;
        if modules[i].kind.Attention? {
          cacheMap := cacheMap[modules[i].kind.layer := TorchDevice(deviceIdx[i].value)];
        }
      }
    }

    /** `set_device_map` on `allocation` (bytes per device): clear the cache
        map, plan the placement over what each device has left after the
        shared buffers, and on success assign the devices, make one fresh
        `DeviceTensors` per device with the planned reserve as its scratch
        size, rebuild the cache map and return the bytes left per device.
        When a module fits nowhere the planner's assertion fails: the modules
        before it keep their new device, the cache map stays empty and the
        device tensors are untouched. */
    method SetDeviceMap(allocation: seq<int>, embedCpu: bool) returns (r: Result<seq<int>>)
      requires Valid()
      modifies this
      ensures Valid()
      ensures var plan := Plan(modules, embedCpu, InitialBudget(allocation, config));
        && (r.Ok? <==> plan.Planned?)
        && (r.Ok? ==>
              && r.value == plan.ledger.remaining
              && deviceIdx == Somes(plan.ledger.devices)
              && |deviceTensors| == |allocation|
              && (forall d :: 0 <= d < |allocation| ==>
                    && fresh(deviceTensors[d])
                    && deviceTensors[d].deviceIdx == d
                    && deviceTensors[d].scratchBytes == plan.ledger.reserve[d]
                    && !deviceTensors[d].ready && !deviceTensors[d].sincos && deviceTensors[d].arena.None?
                    && deviceTensors[d].scratchIdx == 0)
              && (forall d, e :: 0 <= d < e < |allocation| ==> deviceTensors[d] != deviceTensors[e])
              && (forall key: nat :: key in cacheMap <==> key < config.numHiddenLayers)
              && (forall i: nat :: i < config.numHiddenLayers ==>
                    i in cacheMap && cacheMap[i] == TorchDevice(plan.ledger.devices[1 + 2 * i])))
        && (r.Err? ==>
              && r.error == InsufficientSpace(plan.at)
              && deviceIdx == Somes(plan.ledger.devices) + old(deviceIdx)[plan.at..]
              && cacheMap == map[]
              && deviceTensors == old(deviceTensors))
    {
      cacheMap := map[];
      var budget := InitialBudget(allocation, config);
      var plan := PlanDevices(modules, embedCpu, budget);
      if plan.Exhausted? {
        deviceIdx := Somes(plan.ledger.devices) + deviceIdx[|plan.ledger.devices|..];
        return Err(InsufficientSpace(plan.at));
      }
      var l := plan.ledger;
      deviceIdx := Somes(l.devices);
      assert Placed();
      var tensors := NewDeviceTensors(l.reserve);
      deviceTensors := tensors;
      assert DeviceInts() == l.devices;
      SetCacheMap();
      CacheMapOfLayout(map[], config.numHiddenLayers, l.devices);
      return Ok(l.remaining);
    }

    /** `get_device_tensors`: look the device up with Python indexing and
        prepare it on first use; a device that is already ready is returned
        as it is, and no other device changes. */
    method GetDeviceTensors(idx: int, scratch: bool) returns (r: Result<DeviceTensors>)
      modifies deviceTensors
      ensures var slot := PyIndex(idx, |deviceTensors|);
        && (r.Ok? <==> slot.Some?)
        && (r.Err? ==> r.error == IndexOutOfRange)
        && (r.Ok? ==> r.value == deviceTensors[slot.value] && r.value.ready)
      ensures r.Ok? && old(r.value.ready) ==> unchanged(r.value)
      ensures r.Ok? && !old(r.value.ready) ==>
                && r.value.sincos
                && r.value.arena == (if scratch then Some(r.value.ArenaHalves()) else old(r.value.arena))
                && r.value.scratchIdx == old(r.value.scratchIdx)
      ensures forall t :: t in deviceTensors && (r.Err? || t != r.value) ==> unchanged(t)
    {
      var slot := PyIndex(idx, |deviceTensors|);
      if slot.None? {
        return Err(IndexOutOfRange);
      }
      var tensors := deviceTensors[slot.value];
      if !tensors.ready {
        tensors.Prepare(scratch);
      }
      return Ok(tensors);
    }

    /** The devices of the modules. */
    function Devices(): (devs: seq<Device>)
      reads this
      requires Placed()
      ensures devs == ToDevices(DeviceInts())
    {
      ToDevices(DeviceInts())
    }

    /** `forward` on a batch of `batchSize` × `seqLen` token ids. The input
        mask must have the ids' shape. Each module runs in order on its
        device; the mask is rebuilt whenever the device changes to another
        GPU; with `preprocess_only` the pass stops after the last module
        that writes the cache and returns None. The cache then advances by
        `seqLen`, early stop or not. Building the mask fails when an input
        mask cannot broadcast against a cache that already holds positions;
        that happens at the first module off the CPU, before the cache
        advances. */
    method Forward(batchSize: nat, seqLen: nat, cache: Cache?, inputMask: Option<BoolTensor>, preprocessOnly: bool)
      returns (r: Result<ForwardRun>)
      requires Valid() && Placed()
      requires inputMask.Some? ==> Rectangular(inputMask.value)
      modifies cache
      ensures r == ForwardOutcome(Devices(), if preprocessOnly then lastKvLayerIdx + 1 else |modules|,
                                  inputMask.None? || (inputMask.value.rows == batchSize && inputMask.value.cols == seqLen),
                                  BuildAttnMask(batchSize, seqLen, if cache == null then 0 else old(cache.currentSeqLen), inputMask),
                                  preprocessOnly)
      ensures cache != null ==> cache.currentSeqLen == old(cache.currentSeqLen) + (if r.Ok? then seqLen else 0)
    {
      if inputMask.Some? && (inputMask.value.rows != batchSize || inputMask.value.cols != seqLen) {
        return Err(ShapeMismatch);
      }
      var pastLen := if cache == null then 0 else cache.currentSeqLen;
      r := RunModules(Devices(), lastKvLayerIdx, preprocessOnly, batchSize, seqLen, pastLen, inputMask);
      if r.Ok? && cache != null {
        cache.currentSeqLen := cache.currentSeqLen + seqLen;
      }
    }
  }
}
