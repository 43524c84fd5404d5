/** The module graph built by `ExLlamaV2.__init__`: its fixed order, the
    position of the last attention module, and the cache map that
    `set_cache_map` derives from a placement. */
module Layout {
  import opened Common

  /** The hyperparameters the orchestration layer reads from the model
      configuration (the rotary-embedding ones are not part of this model). */
  datatype Config = Config(
    numHiddenLayers: nat,
    hiddenSize: nat,
    headDim: nat,
    vocabSize: nat,
    maxSeqLen: nat,
    maxInputLen: nat,
    maxBatchSize: nat)

  /** The concrete class of a placeable module. */
  datatype Kind =
    | Embedding          // ExLlamaV2Embedding "model.embed_tokens"
    | Attention(layer: nat)
    | Mlp(layer: nat)
    | RmsNorm            // "model.norm"
    | LmHead             // ExLlamaV2Linear "lm_head", hidden_size -> vocab_size, no bias

  /** A placeable module: its kind and the two byte counts it reports
      (`weight_footprint()` and `scratch_space()`), which are opaque here. */
  datatype Unit = Unit(kind: Kind, footprint: nat, scratch: nat)

  function KindsOf(units: seq<Unit>): (r: seq<Kind>)
    ensures |r| == |units|
    ensures forall i :: 0 <= i < |units| ==> r[i] == units[i].kind
  {
    seq(|units|, i requires 0 <= i < |units| => units[i].kind)
  }

  /** The decoder layers 0..n-1, each an attention module followed by an MLP. */
  function Layers(n: nat): (r: seq<Kind>)
    ensures |r| == 2 * n
    ensures forall j :: 0 <= j < 2 * n ==>
              r[j] == if j % 2 == 0 then Attention(j / 2) else Mlp(j / 2)
  {
    if n == 0 then [] else Layers(n - 1) + [Attention(n - 1), Mlp(n - 1)]
  }

  /** The module list of a model with `n` hidden layers. */
  function ModuleLayout(n: nat): (r: seq<Kind>)
    ensures |r| == 2 * n + 3
    ensures r[0] == Embedding && r[2 * n + 1] == RmsNorm && r[2 * n + 2] == LmHead
    ensures forall j :: 1 <= j <= 2 * n ==>
              r[j] == if j % 2 == 1 then Attention((j - 1) / 2) else Mlp((j - 1) / 2)
  {
    [Embedding] + Layers(n) + [RmsNorm, LmHead]
  }

  /** Layer `i` sits at positions 1+2i (attention) and 2+2i (MLP). */
  lemma LayerPositions(n: nat, i: nat)
    requires i < n
    ensures ModuleLayout(n)[1 + 2 * i] == Attention(i)
    ensures ModuleLayout(n)[2 + 2 * i] == Mlp(i)
  {
    var r := ModuleLayout(n);
    assert r[1 + 2 * i] == Attention((1 + 2 * i - 1) / 2);
    assert r[2 + 2 * i] == Mlp((2 + 2 * i - 1) / 2);
  }

  /** Attention modules are exactly the odd positions below 2n. */
  lemma {:induction false} AttentionPositions(n: nat, j: nat)
    requires j < 2 * n + 3
    ensures ModuleLayout(n)[j].Attention? <==> j % 2 == 1 && j < 2 * n
  {
  }

  /** `ExLlamaV2.__init__`: append the embedding, an attention and an MLP
      module per layer, the final norm and the output head. */
  method BuildModuleList(numHiddenLayers: nat) returns (kinds: seq<Kind>)
    ensures kinds == ModuleLayout(numHiddenLayers)
  {
    kinds := [Embedding];
    for layerIdx := 0 to numHiddenLayers
      invariant kinds == [Embedding] + Layers(layerIdx)
    {
      kinds := kinds + [Attention(layerIdx)];
      kinds := kinds + [Mlp(layerIdx)];
    }
    kinds := kinds + [RmsNorm];
    kinds := kinds + [LmHead];
  }

  /** The backwards scan of `ExLlamaV2.__init__` for the last module that
      touches the key/value cache. Python subscripts wrap around once the
      index goes negative, so a list without attention modules is walked a
      second time from the end and then raises IndexError. */
  method FindLastKvLayer(kinds: seq<Kind>) returns (r: Result<int>)
    ensures r.Ok? <==> exists j :: 0 <= j < |kinds| && kinds[j].Attention?
    ensures r.Ok? ==> 0 <= r.value < |kinds| && kinds[r.value].Attention?
    ensures r.Ok? ==> forall j :: r.value < j < |kinds| ==> !kinds[j].Attention?
    ensures r.Err? ==> r.error == IndexOutOfRange
  {
    var layerIdx: int := |kinds|;
    while true
      invariant -|kinds| <= layerIdx <= |kinds|
      invariant forall j :: 0 <= layerIdx <= j < |kinds| ==> !kinds[j].Attention?
      invariant layerIdx <= 0 ==> forall j :: 0 <= j < |kinds| ==> !kinds[j].Attention?
      decreases layerIdx + |kinds|
    {
      layerIdx := layerIdx - 1;
      var slot := PyIndex(layerIdx, |kinds|);
      if slot.None? {
        return Err(IndexOutOfRange);
      }
      if kinds[slot.value].Attention? {
        return Ok(layerIdx);
      }
    }
  }

  /** With at least one layer the scan stops at the last attention module,
      position 2n-1. */
  lemma LastKvLayerOfLayout(n: nat)
    requires n >= 1
    ensures ModuleLayout(n)[2 * n - 1] == Attention(n - 1)
    ensures forall j :: 2 * n - 1 < j < 2 * n + 3 ==> !ModuleLayout(n)[j].Attention?
  {
    LayerPositions(n, n - 1);
    forall j | 2 * n - 1 < j < 2 * n + 3
      ensures !ModuleLayout(n)[j].Attention?
    {
      AttentionPositions(n, j);
    }
  }

  /** A model without layers has no attention module, so the scan fails. */
  lemma NoLayersNoKvLayer()
    ensures forall j :: 0 <= j < |ModuleLayout(0)| ==> !ModuleLayout(0)[j].Attention?
  {
  }

  /** `set_cache_map` applied to the first `k` modules: every attention
      module writes its layer index -> its device, later writes winning. */
  function WriteCacheMap(m: map<nat, Device>, kinds: seq<Kind>, devices: seq<int>, k: nat): (r: map<nat, Device>)
    requires k <= |kinds| == |devices|
    ensures m.Keys <= r.Keys
    ensures k > 0 && kinds[k - 1].Attention? ==>
              kinds[k - 1].layer in r && r[kinds[k - 1].layer] == TorchDevice(devices[k - 1])
  {
    if k == 0 then m
    else
      var prev := WriteCacheMap(m, kinds, devices, k - 1);
      if kinds[k - 1].Attention? then prev[kinds[k - 1].layer := TorchDevice(devices[k - 1])]
      else prev
  }

  /** The attention modules of a module list with `n` layers: exactly the odd
      positions below 2n, position 1+2i holding layer i. */
  ghost predicate AttentionAtOddPositions(kinds: seq<Kind>, n: nat)
  {
    forall j :: 0 <= j < |kinds| ==>
      (kinds[j].Attention? <==> j % 2 == 1 && j < 2 * n)
      && (kinds[j].Attention? ==> j == 1 + 2 * kinds[j].layer)
  }

  lemma LayoutAttentionAtOddPositions(n: nat)
    ensures AttentionAtOddPositions(ModuleLayout(n), n)
  {
    var layout := ModuleLayout(n);
    forall j | 0 <= j < |layout|
      ensures layout[j].Attention? <==> j % 2 == 1 && j < 2 * n
    {
      AttentionPositions(n, j);
    }
  }

  /** `r` is the cache map after the first `k` modules of a layout with `n`
      layers, written over `m`: the keys are those of `m` plus the layers whose
      attention module is among them, each such layer maps to its module's
      device, and every other key keeps its old value. */
  ghost predicate CacheMapAfter(r: map<nat, Device>, m: map<nat, Device>, n: nat, devices: seq<int>, k: nat)
    requires k <= |devices|
  {
    && (forall key: nat :: key in r <==> key in m || (key < n && 1 + 2 * key < k))
    && (forall key: nat :: key < n && 1 + 2 * key < k ==> key in r && r[key] == TorchDevice(devices[1 + 2 * key]))
    && (forall key: nat :: key in m && !(key < n && 1 + 2 * key < k) ==> key in r && r[key] == m[key])
  }

  /** One module of `set_cache_map` keeps `CacheMapAfter`. */
  lemma CacheMapStep(m: map<nat, Device>, kinds: seq<Kind>, n: nat, devices: seq<int>, k: nat)
    requires |devices| == |kinds| && 0 < k <= |kinds| && 2 * n <= |kinds|
    requires AttentionAtOddPositions(kinds, n)
    requires CacheMapAfter(WriteCacheMap(m, kinds, devices, k - 1), m, n, devices, k - 1)
    ensures CacheMapAfter(WriteCacheMap(m, kinds, devices, k), m, n, devices, k)
  {
    var prev := WriteCacheMap(m, kinds, devices, k - 1);
    var r := WriteCacheMap(m, kinds, devices, k);
    if kinds[k - 1].Attention? {
      var layer := kinds[k - 1].layer;
      assert k - 1 == 1 + 2 * layer && layer < n;
      assert r == prev[layer := TorchDevice(devices[k - 1])];
      forall key: nat | key < n && 1 + 2 * key < k
        ensures key in r && r[key] == TorchDevice(devices[1 + 2 * key])
      {
        if key != layer {
          assert 1 + 2 * key < k - 1;
        }
      }
    } else {
      assert r == prev;
      forall key: nat | key < n
        ensures 1 + 2 * key != k - 1
      {
        assert (1 + 2 * key) % 2 == 1;
      }
    }
  }

  lemma {:induction false} CacheMapPrefix(m: map<nat, Device>, kinds: seq<Kind>, n: nat, devices: seq<int>, k: nat)
    requires |devices| == |kinds| && k <= |kinds| && 2 * n <= |kinds|
    requires AttentionAtOddPositions(kinds, n)
    ensures CacheMapAfter(WriteCacheMap(m, kinds, devices, k), m, n, devices, k)
  {
    if k > 0 {
      CacheMapPrefix(m, kinds, n, devices, k - 1);
      CacheMapStep(m, kinds, n, devices, k);
    }
  }

  /** After `set_cache_map` on a placed model, the keys are the old keys plus
      exactly the layer indices 0..n-1, each mapped to the device of that
      layer's attention module. */
  lemma CacheMapOfLayout(m: map<nat, Device>, n: nat, devices: seq<int>)
    requires |devices| == 2 * n + 3
    ensures var r := WriteCacheMap(m, ModuleLayout(n), devices, 2 * n + 3);
      && (forall key: nat :: key in r <==> key in m || key < n)
      && (forall i: nat :: i < n ==> i in r && r[i] == TorchDevice(devices[1 + 2 * i]))
      && (forall key :: key in m && key >= n ==> key in r && r[key] == m[key])
  {
    LayoutAttentionAtOddPositions(n);
    CacheMapPrefix(m, ModuleLayout(n), n, devices, 2 * n + 3);
  }
}
