# ExLlamaV2 model orchestration in Dafny

This project models the orchestration layer of ExLlamaV2 (`exllamav2/model.py`).
That layer decides where each part of a transformer runs and drives one forward
pass. The tensor work it delegates to stays abstract. The model covers:

- **Module list** (`layout.dfy`, module `Layout`). The constructor builds the
  token embedding, then an attention module and an MLP per hidden layer, then
  the final RMS norm and the `lm_head` projection. A backwards scan finds
  `last_kv_layer_idx`, the last module that writes the key/value cache. The
  scan uses Python's wrap-around list indexing (`Common.PyIndex`), so a model
  without layers raises IndexError.
- **Device planner** (`planner.dfy`, module `Planner`). `set_device_map` is a
  greedy first-fit packer whose device cursor only moves forward. It works on
  integer byte budgets per device (`allocation_bytes`) and a scratch reserve
  per device (`reserve_bytes`). It fails its assertion when a module fits on
  no device from the cursor on. `PlanDevices` is the loop itself. It is proved
  equal to `Plan`, a fold of one placement step (`Place`). The lemmas about
  `Plan` cover:
  - device order and range;
  - the bytes left and the reserve on every device;
  - when planning fails;
  - two sufficient conditions, one for success and one for failure.
- **Per-device tensors** (`device_tensors.dfy`, module `Scratch`).
  `ExLlamaV2DeviceTensors` is a class with a `ready` flag and lazy
  preparation. It also holds a scratch arena of `scratch_bytes // 2` halves
  (fp16 elements), handed out by a bump allocator. Each request is rounded up
  to a multiple of 128 bytes. Slices of one allocation cycle are adjacent,
  disjoint and inside the arena.
- **Attention mask** (`attn_mask.dfy`, module `AttnMask`). `build_attn_mask`
  is a function that builds the batch × 1 × seq_len × (past_len + seq_len)
  mask of 0 and -65504. It follows the source's own construction: zeros, an
  upper triangle written at an offset, and an element-wise minimum with the
  broadcast input mask. Lemmas prove the closed form: key `k` of query `i` is
  blocked iff `k > past_len + i`, or the input mask drops `k`. With an input
  mask and a non-empty cache the merge cannot broadcast, which is an error.
- **The model object** (`model.dfy`, module `Model`). The class `ExLlama`
  holds the module list, each module's device index, the cache map and the
  per-device tensors. `Forward` records the calls the forward pass makes: the
  module, its device, whether the mask was rebuilt, and the mask it received.
  These calls are proved equal to `Dispatch`, a function of the module
  devices. Lemmas tie `Dispatch` to the devices the planner chooses.

Budgets are integer bytes. `SetDeviceMap` takes the per-device allocation
already in bytes (the source's `a * 1024**3`). It returns the bytes left per
device (the source divides them back into GB).

## Model

| member | source | states |
|---|---|---|
| Common.TorchDevice | exllamav2/model.py:22-24 | index -1 names the CPU; every other index names the CUDA device with that index |
| Common.TorchDeviceInjective | exllamav2/model.py:22-24 | two device indices give the same torch device exactly when they are equal |
| Common.PyIndex | exllamav2/model.py:139 | a Python list subscript is defined exactly on [-len, len); a negative subscript counts from the end |
| Layout.Layers | exllamav2/model.py:122-127 | the layer loop puts layer i's attention module at offset 2i and its MLP at 2i+1 |
| Layout.ModuleLayout | exllamav2/model.py:118-132 | the module list has 2n+3 entries: the embedding first, then the layers, then the norm and lm_head last |
| Layout.LayerPositions | exllamav2/model.py:118-132 | index 1+2i holds layer i's attention module and index 2+2i holds its MLP |
| Layout.AttentionPositions | exllamav2/model.py:118-132 | a position holds an attention module iff it is odd and below 2n |
| Layout.LayoutAttentionAtOddPositions | exllamav2/model.py:118-132 | the attention modules are exactly the odd positions below 2n, and position 1+2i holds layer i |
| Layout.BuildModuleList | exllamav2/model.py:118-132 | the appending loop builds exactly the list above |
| Layout.FindLastKvLayer | exllamav2/model.py:134-142 | the backwards scan succeeds iff the list holds an attention module; it then returns the greatest index holding one, else it raises IndexError |
| Layout.LastKvLayerOfLayout | exllamav2/model.py:134-142 | with at least one layer, index 2n-1 holds the attention module of layer n-1 and no later index holds one |
| Layout.NoLayersNoKvLayer | exllamav2/model.py:134-140 | a model without layers has no attention module, so the scan fails |
| Layout.WriteCacheMap | exllamav2/model.py:218-221 | the map `set_cache_map` leaves after its first k modules: it keeps every old key, and when module k-1 is an attention module its layer maps to that module's device (a later write wins); CacheMapPrefix gives the closed form |
| Layout.CacheMapStep | exllamav2/model.py:219-221 | handling one more module keeps that description of the cache map: an attention module adds or overwrites its own layer and nothing else changes |
| Layout.CacheMapPrefix | exllamav2/model.py:218-221 | after the first k modules, the keys are the old keys plus the layers whose attention module is among them; each such key maps to that module's device and all other keys keep their values |
| Layout.CacheMapOfLayout | exllamav2/model.py:218-221 | after set_cache_map, the keys are the old keys plus exactly 0..n-1; layer i maps to the device of its attention module and keys ≥ n are unchanged |
| Planner.InitialBudget | exllamav2/model.py:149-155 | each device starts at its allocation minus the same non-negative overhead: the largest hidden state, the largest mask and both rotary tables (`constant_size` = 2 × `sincos_size`); PlanBudget states the plan against it |
| Planner.FirstFit | exllamav2/model.py:173-177 | the least device at or after the cursor where footprint + max(scratch, reserve) fits in what is left, or the number of devices if none fits |
| Planner.Place | exllamav2/model.py:158-184 | one placement step appends exactly one device to the assignment; on failure it leaves the ledger as it was |
| Planner.PlaceSpec | exllamav2/model.py:158-184 | a step fails iff the module is unpinned and fits on no device from the cursor on; a pinned module gets -1 and changes nothing else; otherwise the new cursor is the first device that fits, and only that device's remaining bytes (minus the footprint) and reserve (max with the scratch) change |
| Planner.PlanPrefix | exllamav2/model.py:158-184 | after k modules the plan has placed k modules, or it failed at a module before k |
| Planner.Plan | exllamav2/model.py:158-184 | the whole planning loop: on success one device per module, on failure the index of a module with the devices of the modules before it; PlanDeviceOrder, PlanBudget and the failure lemmas characterise it |
| Planner.ScanDevices | exllamav2/model.py:173-177 | the inner while loop stops at the first device that fits, or at the number of devices |
| Planner.PlaceAtFirstFit | exllamav2/model.py:173-184 | given the device the scan stopped at, the step fails when it is past the last device and otherwise charges the module to that device |
| Planner.PinnedPrefixStep | exllamav2/model.py:163-166 | the pinned embedding extends the plan with -1 and leaves budgets, reserves and cursor as they were |
| Planner.UnpinnedPrefixStep | exllamav2/model.py:168-184 | the next unpinned module fails the plan at its own index when the scan runs off the end, else it goes to the device found, which becomes the cursor |
| Planner.PlanDevices | exllamav2/model.py:152-184 | the planning loop returns exactly the fold of placement steps, including where it fails |
| Planner.PinnedKeepsConsistent | exllamav2/model.py:163-166 | the pinned embedding step keeps the ledger invariant |
| Planner.PlacedKeepsOrdered | exllamav2/model.py:173-184 | a placement step keeps devices in range and non-decreasing, with -1 only on the pinned module |
| Planner.PlacedKeepsAccounted | exllamav2/model.py:173-184 | a placement step keeps remaining bytes equal to budget minus load, and the reserve equal to the peak scratch |
| Planner.PlacedKeepsHeadroom | exllamav2/model.py:173-184 | a placement step keeps every used device's remaining bytes at or above its reserve |
| Planner.StepKeepsConsistent | exllamav2/model.py:158-184 | every successful step keeps the whole ledger invariant |
| Planner.PlanInvariant | exllamav2/model.py:158-184 | the ledger invariant holds after every prefix of the plan |
| Planner.LoadsOfUnused | exllamav2/model.py:182 | a device that receives no module carries no load |
| Planner.PeaksBound | exllamav2/model.py:175-181 | a device's reserve covers the scratch of every module placed on it |
| Planner.PeaksAttained | exllamav2/model.py:175-181 | a device's reserve is 0 or the scratch of some module placed on it, so it is the maximum |
| Planner.PlanDeviceOrder | exllamav2/model.py:158-184 | a successful plan gives -1 exactly to the pinned embedding and every other module a device in [0, len(allocation)); devices never decrease along the module list |
| Planner.PlanBudget | exllamav2/model.py:149-184 | after planning, each device's bytes left are its initial budget minus the footprints placed on it, its reserve is their peak scratch, and every used device ends with bytes left ≥ reserve ≥ 0 |
| Planner.ExhaustedPersists | exllamav2/model.py:174 | once the assertion fails, no later module changes the outcome |
| Planner.ExhaustedAt | exllamav2/model.py:174 | a failure names the module where it happened, with the ledger just before it |
| Planner.PlanFailsOnlyWhenNothingFits | exllamav2/model.py:173-177 | if planning fails, the failing module is unpinned and fits on no device from the cursor on |
| Planner.PlanFailsWhenNothingFits | exllamav2/model.py:173-177 | if an unpinned module fits on no device from the cursor on, planning fails at that module |
| Planner.LoadsTotal | exllamav2/model.py:177-182 | the loads of an assignment add up to the footprint of all unpinned modules |
| Planner.PlanOverBudgetFails | exllamav2/model.py:149-184 | when the non-negative budgets add up to less than the weights to place, planning fails instead of over-committing |
| Planner.FirstDevicePinnedStep | exllamav2/model.py:163-166 | the pinned embedding keeps every unpinned module so far on device 0 |
| Planner.FirstDeviceUnpinnedStep | exllamav2/model.py:173-184 | with device 0 holding everything so far and covering all weights plus the largest scratch, the next unpinned module fits on device 0 |
| Planner.FirstDeviceStep | exllamav2/model.py:158-184 | while device 0 holds everything so far and covers all weights plus the largest scratch, the next module also goes to device 0 |
| Planner.FirstDevicePrefix | exllamav2/model.py:158-184 | under that budget every prefix of the plan succeeds with every unpinned module on device 0 |
| Planner.PlanFirstDeviceSuffices | exllamav2/model.py:158-184 | if the first device's budget covers all weights plus the largest scratch, planning succeeds with every unpinned module on device 0 |
| Scratch.RoundUp128 | exllamav2/model.py:70 | a request is rounded up to a multiple of 128 that is at least the request and less than 128 above it |
| Scratch.RoundUp128Least | exllamav2/model.py:70 | no smaller multiple of 128 holds the request |
| Scratch.SliceHalves | exllamav2/model.py:70-71 | a request claims half its rounded byte count in fp16 elements |
| Scratch.SliceHalves130 | exllamav2/model.py:70-73 | a 130-byte request rounds to 256 bytes and advances the cursor by 128 halves |
| Scratch.NextSlice | exllamav2/model.py:70-73 | the next slice starts at the cursor with the rounded length; it fails iff it would run past the end of the arena |
| Scratch.SliceRun | exllamav2/model.py:66-74 | a successful run of requests yields one slice per request |
| Scratch.SliceRunSpec | exllamav2/model.py:66-74 | a non-empty run succeeds iff the rounded sizes fit from the cursor on; slice i then starts at the cursor plus the earlier rounded sizes, has its request's rounded length and lies inside the arena |
| Scratch.SliceBounds | exllamav2/model.py:70-73 | slice i spans from the cursor plus the rounded sizes before it to the cursor plus the rounded sizes up to and including it |
| Scratch.SliceRunDisjoint | exllamav2/model.py:66-74 | the slices of one cycle are adjacent and pairwise disjoint |
| Scratch.SliceRunError | exllamav2/model.py:72 | the only error a run reports is a slice past the end of the arena |
| Scratch.SliceRunFailsOnward | exllamav2/model.py:72 | once a prefix of the requests fails, the whole run fails |
| Scratch.DeviceTensors.constructor | exllamav2/model.py:42-48 | a new device's tensors are not ready, have no arena and start their cursor at 0 |
| Scratch.DeviceTensors.ArenaHalves | exllamav2/model.py:56 | the arena holds scratch_bytes // 2 halves |
| Scratch.DeviceTensors.Prepare | exllamav2/model.py:51-58 | prepare computes the tables, allocates a fresh arena only when asked, sets ready and leaves the cursor alone |
| Scratch.DeviceTensors.BeginScratchAlloc | exllamav2/model.py:61-63 | the cursor goes back to 0 |
| Scratch.DeviceTensors.GetScratchSlice | exllamav2/model.py:66-74 | a missing arena is prepared first, even on a ready device; the result is the next slice; the cursor advances by its length on success and does not move on failure |
| Scratch.DeviceTensors.ScratchCycle | exllamav2/model.py:61-74 | `begin_scratch_alloc` followed by `get_scratch_slice` for each size, stopping at the first failure: a non-empty run leaves the existing arena, or allocates `scratch_bytes // 2` halves and marks the device ready when there was none, and otherwise leaves `ready` and the tables alone; it hands out exactly the slices of SliceRun from 0 in that arena, so SliceRunDisjoint applies; the cursor ends after the last slice, and on failure after the last request that fit |
| AttnMask.BroadcastDim | exllamav2/model.py:255 | two axis sizes broadcast iff they are equal or one of them is 1 |
| AttnMask.Triu | exllamav2/model.py:249 | `triu` of a full -65504 square: blocked on and above the diagonal, 0 below |
| AttnMask.CausalEntry | exllamav2/model.py:247-250 | the entry of zeros with the triangle written at offset past_len + 1: inside the mask it is -65504 iff the key lies after the query's own position past_len + i |
| AttnMask.CausalMask | exllamav2/model.py:247-250 | the causal mask has shape batch × 1 × seq_len × (past_len + seq_len); CausalMaskSpec gives its entries |
| AttnMask.MaskValue | exllamav2/model.py:253 | `torch.where(input_mask, 0, -65504)`: a kept key gives 0 and a dropped key -65504 |
| AttnMask.InputEntry | exllamav2/model.py:252-255 | the input mask as a 0/-65504 value after broadcasting: the cell itself where the index is in range, the single cell of a 1 × 1 mask |
| AttnMask.MergeInputMask | exllamav2/model.py:252-255 | `torch.minimum` succeeds iff both the batch and the key axis broadcast, otherwise it reports BroadcastMismatch; the result has the broadcast shape; MergeEntries gives its entries |
| AttnMask.BuildAttnMask | exllamav2/model.py:244-261 | a single token (or none) gives no mask, whatever the input mask; a longer sequence always gives a mask unless the input mask cannot broadcast |
| AttnMask.CausalMaskSpec | exllamav2/model.py:247-250 | the mask has shape batch × 1 × seq_len × (past_len + seq_len); key k of query i is -65504 iff k > past_len + i and 0 otherwise, so the last row is all zeros |
| AttnMask.BuildWithoutInputMask | exllamav2/model.py:244-261 | without an input mask, a multi-token pass gets exactly the causal mask |
| AttnMask.MergeBroadcasts | exllamav2/model.py:252-255 | with a batch × seq_len input mask, the minimum broadcasts iff past_len = 0 |
| AttnMask.MergeEntries | exllamav2/model.py:252-255 | with no past, the merged mask is batch × 1 × seq_len × seq_len and an entry is -65504 iff k > i or the input mask drops key k |
| AttnMask.BuildWithInputMask | exllamav2/model.py:252-255 | with a batch × seq_len input mask, the merge fails iff past_len ≠ 0; otherwise an entry is -65504 iff the causal rule blocks it or the input mask drops that key |
| Model.Cache.constructor | exllamav2/model.py:269 | the cache holds the number of positions it was given; `forward` reads it as past_len and advances it (model.py:300-301) |
| Model.PrevGpu | exllamav2/model.py:281-283 | prev_device is None or a non-CPU device, and it is None exactly when every module before j ran on the CPU |
| Model.Rebuilds | exllamav2/model.py:281-284 | a module rebuilds only off the CPU, and afterwards prev_device is its device; module 0 rebuilds iff it is off the CPU |
| Model.CallAt | exllamav2/model.py:277-289 | call j names module j and its device, rebuilds only off the CPU, and receives no mask exactly when nothing was built or every module up to j ran on the CPU, else the built mask |
| Model.Dispatch | exllamav2/model.py:275-293 | one call per module up to the stop; DispatchAt gives call j |
| Model.PrevGpuStaysSet | exllamav2/model.py:281-283 | once a module has run off the CPU, prev_device stays set |
| Model.DispatchAt | exllamav2/model.py:275-293 | call j of a pass is module j's call, whatever later modules do |
| Model.PrevGpuOfOrdered | exllamav2/model.py:281-283 | for non-decreasing device indices, prev_device before module j is module j-1's device when that is a GPU, else None |
| Model.RebuildsOfOrdered | exllamav2/model.py:281-284 | for such indices, the mask is rebuilt exactly at a GPU module whose device differs from the module before it |
| Model.OrderedCall | exllamav2/model.py:275-293 | call j names module j; it rebuilds as above; it receives no mask while every module so far ran on the CPU, and the built mask afterwards |
| Model.PlannedDispatch | exllamav2/model.py:275-293 | the same holds for the devices a successful plan chooses |
| Model.NewDeviceTensors | exllamav2/model.py:188-190 | one fresh, unprepared DeviceTensors per device, numbered in order, with that device's scratch size and pairwise distinct |
| Model.RunModules | exllamav2/model.py:272-293 | the module loop makes exactly the calls of Dispatch up to the stop, and fails with the mask builder's error iff a module that runs is off the CPU |
| Model.ForwardOutcome | exllamav2/model.py:266-303 | the shape error comes first; with a mask built, the pass succeeds; with the builder failing, it succeeds iff every module that runs is on the CPU, and fails with the builder's error otherwise; a successful pass has one call per module up to the stop and output iff not preprocess_only |
| Model.ExLlama.constructor | exllamav2/model.py:109-142 | the model holds the module list above with each module's footprint and scratch, last_kv_layer_idx = 2n-1, no devices, an empty cache map and no device tensors |
| Model.ExLlama.SetCacheMap | exllamav2/model.py:218-221 | each attention module in turn records its device under its layer index |
| Model.ExLlama.SetDeviceMap | exllamav2/model.py:145-198 | on success: the planned devices, the bytes left, one fresh DeviceTensors per allocation entry with scratch_bytes = reserve, and a cache map over exactly the layers. On failure: InsufficientSpace at the failing module, an emptied cache map, devices set only before that module, device tensors untouched |
| Model.ExLlama.GetDeviceTensors | exllamav2/model.py:232-236 | Python indexing picks the device's tensors (IndexError out of range); they are prepared only if not ready and come back ready; nothing else changes |
| Model.ExLlama.Forward | exllamav2/model.py:264-303 | a mask whose shape differs from the ids fails first. Otherwise the calls are exactly Dispatch up to last_kv_layer_idx (preprocess_only, result None) or over all modules. The mask builder's error surfaces iff a module that runs is off the CPU. The cache advances by seq_len exactly on success, early stop included |

## Left out

- `prepare_sincos` (exllamav2/model.py:77-96) is left out: it is floating-point rotary tables. `Prepare` records only that they were computed.
- Torch tensor contents, dtypes, `.to(device)` transfers and `narrow` views are left out. Slices are (start, length) pairs and masks are integer values.
- The modules themselves are left out: `module.forward`, `module.load`, `weight_footprint`, `scratch_space`, `set_device_idx`, `device()` and `submodules`. Footprint and scratch are natural numbers given per module kind. `device()` is taken to be `_torch_device(device_idx)`. A pass is recorded as its calls, with no hidden states.
- `modules_dict` registration and `get_modules` are left out: both depend on submodule keys that are not part of this model.
- `load` (exllamav2/model.py:201-215) and `create_device_tensors` (exllamav2/model.py:224-229) are left out. `load` is safetensors I/O around `set_device_map` and `set_cache_map`.
- The Python version check and its printing (exllamav2/model.py:1-6) are left out.
- The float GB arithmetic is left out: `a * 1024**3` on the allocation and `/ 1024**3` on the result. Allocations and results are integer bytes.
- Concurrency and asynchronous device execution are left out.
- Model.ExLlama.constructor: requires at least one hidden layer. With none, `__init__` raises IndexError in its backwards scan; `Layout.FindLastKvLayer` and `Layout.NoLayersNoKvLayer` model that path on the module list.
- Model.ExLlama.Forward: requires every module to have a device (a device map was applied). Without one, the device index comes from module classes that are not part of this model. The input mask is taken to be a 2-D rectangular tensor.
- Model.ExLlama.SetCacheMap: requires every module to have a device, for the same reason.
- The default arguments are explicit parameters: `embed_cpu=True` (model.py:145) of `SetDeviceMap`, `scratch=True` (model.py:232) of `GetDeviceTensors`, and `cache=None`, `input_mask=None`, `preprocess_only=False` (model.py:264) of `Forward`, where a null `Cache?` and a None `Option` stand for the defaults.
- AttnMask.BuildAttnMask: the input mask is a 2-D rectangular tensor. The device the mask is built on is not modelled.
