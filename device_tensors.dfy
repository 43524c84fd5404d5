/** The per-device state of `ExLlamaV2DeviceTensors`: a lazily prepared set
    of constant tables and a scratch arena handed out by a bump allocator
    whose cursor counts half-words (fp16 elements). */
module Scratch {
  import opened Common

  /** A view of the scratch arena: `narrow(0, start, length)`, in halves. */
  datatype Slice = Slice(start: nat, length: nat)

  /** A request rounded up to a whole number of 128-byte blocks. */
  function RoundUp128(sizeBytes: nat): (r: nat)
    ensures r % 128 == 0
    ensures sizeBytes <= r < sizeBytes + 128
  {
    ((sizeBytes + 127) / 128) * 128
  }

  /** The rounding gives the least multiple of 128 that holds the request. */
  lemma RoundUp128Least(sizeBytes: nat, m: nat)
    requires m % 128 == 0 && sizeBytes <= m
    ensures RoundUp128(sizeBytes) <= m
  {
  }

  /** Halves a request of `sizeBytes` bytes claims from the arena. */
  function SliceHalves(sizeBytes: nat): (h: nat)
    ensures 2 * h == RoundUp128(sizeBytes)
    ensures h % 64 == 0
  {
    RoundUp128(sizeBytes) / 2
  }

  /** A 130-byte request takes two blocks, 256 bytes, so 128 halves. */
  lemma SliceHalves130()
    ensures RoundUp128(130) == 256 && SliceHalves(130) == 128
  {
  }

  /** What `get_scratch_slice` hands out with the cursor at `cursor` in an
      arena of `arenaHalves` halves: the next rounded run of halves, or an
      error when `narrow` would run past the end. */
  function NextSlice(cursor: nat, sizeBytes: nat, arenaHalves: nat): (r: Result<Slice>)
    ensures r.Ok? <==> cursor + SliceHalves(sizeBytes) <= arenaHalves
    ensures r.Ok? ==> r.value.start == cursor && 2 * r.value.length == RoundUp128(sizeBytes)
    ensures r.Err? ==> r.error == SliceOutOfRange
  {
    var length := SliceHalves(sizeBytes);
    if cursor + length <= arenaHalves then Ok(Slice(cursor, length)) else Err(SliceOutOfRange)
  }

  /** Halves taken by a run of requests. */
  function TotalHalves(sizes: seq<nat>): nat
  {
    if sizes == [] then 0 else TotalHalves(sizes[..|sizes| - 1]) + SliceHalves(sizes[|sizes| - 1])
  }

  /** A run of `get_scratch_slice` calls from cursor `cursor`: the slices
      handed out, or the first error. */
  function SliceRun(cursor: nat, sizes: seq<nat>, arenaHalves: nat): (r: Result<seq<Slice>>)
    ensures r.Ok? ==> |r.value| == |sizes|
  {
    if sizes == [] then Ok([])
    else
      match SliceRun(cursor, sizes[..|sizes| - 1], arenaHalves)
      case Err(e) => Err(e)
      case Ok(slices) =>
        match NextSlice(cursor + TotalHalves(sizes[..|sizes| - 1]), sizes[|sizes| - 1], arenaHalves)
        case Err(e) => Err(e)
        case Ok(s) => Ok(slices + [s])
  }

  lemma {:induction false} TotalHalvesPrefix(sizes: seq<nat>, k: nat)
    requires k <= |sizes|
    ensures TotalHalves(sizes[..k]) <= TotalHalves(sizes)
    decreases |sizes| - k
  {
    if k < |sizes| {
      TotalHalvesPrefix(sizes, k + 1);
      assert sizes[..k + 1][..k] == sizes[..k];
    } else {
      assert sizes[..k] == sizes;
    }
  }

  /** A non-empty run succeeds exactly when its rounded sizes fit in the
      arena from the cursor on. Its slices then start at the cursor, each starts where
      the previous one ends, each has the rounded length of its request, and
      all of them lie inside the arena. */
  lemma {:induction false} SliceRunSpec(cursor: nat, sizes: seq<nat>, arenaHalves: nat)
    ensures var r := SliceRun(cursor, sizes, arenaHalves);
      && (r.Ok? <==> sizes == [] || cursor + TotalHalves(sizes) <= arenaHalves)
      && (r.Ok? ==>
            && (forall i :: 0 <= i < |sizes| ==> r.value[i].start == cursor + TotalHalves(sizes[..i]))
            && (forall i :: 0 <= i < |sizes| ==> 2 * r.value[i].length == RoundUp128(sizes[i]))
            && (forall i :: 0 <= i < |sizes| ==> r.value[i].start + r.value[i].length <= arenaHalves))
  {
    if sizes != [] {
      var n := |sizes| - 1;
      var init := sizes[..n];
      SliceRunSpec(cursor, init, arenaHalves);
      assert TotalHalves(sizes) == TotalHalves(init) + SliceHalves(sizes[n]);
      var r := SliceRun(cursor, sizes, arenaHalves);
      var prev := SliceRun(cursor, init, arenaHalves);
      if prev.Ok? {
        var next := NextSlice(cursor + TotalHalves(init), sizes[n], arenaHalves);
        assert r.Ok? <==> next.Ok?;
      }
      if prev.Ok? && r.Ok? {
        forall i | 0 <= i < |sizes|
          ensures r.value[i].start == cursor + TotalHalves(sizes[..i])
          ensures 2 * r.value[i].length == RoundUp128(sizes[i])
          ensures r.value[i].start + r.value[i].length <= arenaHalves
        {
          if i < n {
            assert r.value[i] == prev.value[i];
            assert init[..i] == sizes[..i];
          } else {
            assert init == sizes[..i];
          }
        }
      }
    }
  }

  /** A run whose first `k` requests already fail fails as a whole. */
  lemma SliceRunFailsOnward(sizes: seq<nat>, k: nat, arenaHalves: nat)
    requires 0 < k <= |sizes|
    requires SliceRun(0, sizes[..k], arenaHalves).Err?
    ensures SliceRun(0, sizes, arenaHalves) == Err(SliceOutOfRange)
  {
    SliceRunSpec(0, sizes[..k], arenaHalves);
    SliceRunSpec(0, sizes, arenaHalves);
    TotalHalvesPrefix(sizes, k);
    SliceRunError(0, sizes, arenaHalves);
  }

  /** The only error a run reports is a slice past the end of the arena. */
  lemma {:induction false} SliceRunError(cursor: nat, sizes: seq<nat>, arenaHalves: nat)
    ensures SliceRun(cursor, sizes, arenaHalves).Err? ==> SliceRun(cursor, sizes, arenaHalves).error == SliceOutOfRange
  {
    if sizes != [] {
      SliceRunError(cursor, sizes[..|sizes| - 1], arenaHalves);
    }
  }

  /** Slice i of a successful run spans the halves between the rounded
      sizes of the requests before it and those up to and including it. */
  lemma SliceBounds(cursor: nat, sizes: seq<nat>, arenaHalves: nat, i: nat)
    requires SliceRun(cursor, sizes, arenaHalves).Ok? && i < |sizes|
    ensures var slice := SliceRun(cursor, sizes, arenaHalves).value[i];
      && slice.start == cursor + TotalHalves(sizes[..i])
      && slice.start + slice.length == cursor + TotalHalves(sizes[..i + 1])
  {
    SliceRunSpec(cursor, sizes, arenaHalves);
    assert sizes[..i + 1][..i] == sizes[..i];
  }

  /** Slices of one successful run are adjacent and pairwise disjoint. */
  lemma SliceRunDisjoint(cursor: nat, sizes: seq<nat>, arenaHalves: nat)
    requires SliceRun(cursor, sizes, arenaHalves).Ok?
    ensures var slices := SliceRun(cursor, sizes, arenaHalves).value;
      && (forall i :: 0 <= i < |sizes| - 1 ==> slices[i].start + slices[i].length == slices[i + 1].start)
      && (forall i, j :: 0 <= i < j < |sizes| ==> slices[i].start + slices[i].length <= slices[j].start)
  {
    var slices := SliceRun(cursor, sizes, arenaHalves).value;
    forall i | 0 <= i < |sizes| - 1
      ensures slices[i].start + slices[i].length == slices[i + 1].start
    {
      SliceBounds(cursor, sizes, arenaHalves, i);
      SliceBounds(cursor, sizes, arenaHalves, i + 1);
    }
    forall i, j | 0 <= i < j < |sizes|
      ensures slices[i].start + slices[i].length <= slices[j].start
    {
      SliceBounds(cursor, sizes, arenaHalves, i);
      SliceBounds(cursor, sizes, arenaHalves, j);
      assert sizes[..j][..i + 1] == sizes[..i + 1];
      TotalHalvesPrefix(sizes[..j], i + 1);
    }
  }

  /** `ExLlamaV2DeviceTensors`: the device index and arena size are fixed at
      construction; `ready`, the sin/cos tables, the arena and the cursor are
      updated in place. The tables' contents are not modelled, only whether
      they have been computed; the arena is modelled by its length in halves. */
  class DeviceTensors {
    const deviceIdx: int
    const scratchBytes: nat
    var ready: bool
    var sincos: bool
    var arena: Option<nat>
    var scratchIdx: nat

    constructor (deviceIdx: int, scratchBytes: nat)
      ensures this.deviceIdx == deviceIdx && this.scratchBytes == scratchBytes
      ensures !ready && !sincos && arena == None && scratchIdx == 0
    {
      this.deviceIdx := deviceIdx;
      this.scratchBytes := scratchBytes;
      ready := false;
      sincos := false;
      arena := None;
      scratchIdx := 0;
    }

    /** Halves in a freshly allocated arena: `scratch_bytes // 2`. */
    function ArenaHalves(): (h: nat)
      ensures 2 * h <= scratchBytes < 2 * h + 2
    {
      scratchBytes / 2
    }

    /** `prepare`: compute the constant tables, allocate a new arena when
        asked to, and mark the device ready. The cursor is left alone. */
    method Prepare(scratch: bool)
      modifies this
      ensures ready && sincos
      ensures arena == if scratch then Some(ArenaHalves()) else old(arena)
      ensures scratchIdx == old(scratchIdx)
    {
      sincos := true;
      if scratch {
        arena := Some(scratchBytes / 2);
      }
      ready := true;
    }

    /** `begin_scratch_alloc`: rewind the cursor to the start of the arena. */
    method BeginScratchAlloc()
      modifies this`scratchIdx
      ensures scratchIdx == 0
    {
      scratchIdx := 0;
    }

    /** `get_scratch_slice`: prepare with an arena when there is none (even
        on a device that is already ready), then hand out the next slice and
        advance the cursor past it. A slice past the end of the arena fails
        in `narrow`, before the cursor moves. */
    method GetScratchSlice(sizeBytes: nat) returns (r: Result<Slice>)
      modifies this
      ensures old(arena).Some? ==> arena == old(arena) && ready == old(ready) && sincos == old(sincos)
      ensures old(arena).None? ==> arena == Some(ArenaHalves()) && ready && sincos
      ensures r == NextSlice(old(scratchIdx), sizeBytes, arena.value)
      ensures scratchIdx == if r.Ok? then old(scratchIdx) + r.value.length else old(scratchIdx)
    {
      if arena.None? {
        Prepare(true);
      }
      var rounded := ((sizeBytes + 127) / 128) * 128;
      var sizeHalf := rounded / 2;
      if scratchIdx + sizeHalf > arena.value {
        return Err(SliceOutOfRange);
      }
      r := Ok(Slice(scratchIdx, sizeHalf));
      scratchIdx := scratchIdx + sizeHalf;
    }

    /** One allocation cycle as a caller runs it: `begin_scratch_alloc`, then
        `get_scratch_slice` for each size in turn, stopping at the first
        slice that does not fit. The slices are those of `SliceRun` from the
        start of the arena, so `SliceRunDisjoint` applies to them. */
    method ScratchCycle(sizes: seq<nat>) returns (r: Result<seq<Slice>>)
      modifies this
      ensures sizes == [] ==> r == Ok([]) && arena == old(arena)
      ensures sizes != [] ==> arena == (if old(arena).Some? then old(arena) else Some(ArenaHalves()))
      ensures sizes != [] && old(arena).None? ==> ready && sincos
      ensures old(arena).Some? || sizes == [] ==> ready == old(ready) && sincos == old(sincos)
      ensures sizes != [] ==> r == SliceRun(0, sizes, arena.value)
      ensures r.Ok? ==> scratchIdx == TotalHalves(sizes)
      ensures r.Err? ==>
        exists k :: 0 <= k < |sizes| && SliceRun(0, sizes[..k], arena.value).Ok?
          && SliceRun(0, sizes[..k + 1], arena.value).Err? && scratchIdx == TotalHalves(sizes[..k])
    {
      BeginScratchAlloc();
      var slices: seq<Slice> := [];
      var i := 0;
      while i < |sizes|
        invariant i <= |sizes|
        invariant i == 0 ==> arena == old(arena) && scratchIdx == 0 && slices == []
        invariant i > 0 ==> arena == (if old(arena).Some? then old(arena) else Some(ArenaHalves()))
        invariant i > 0 && old(arena).None? ==> ready && sincos
        invariant old(arena).Some? || i == 0 ==> ready == old(ready) && sincos == old(sincos)
        invariant i > 0 ==> SliceRun(0, sizes[..i], arena.value) == Ok(slices)
        invariant i > 0 ==> scratchIdx == TotalHalves(sizes[..i])
      {
        var slice := GetScratchSlice(sizes[i]);
        assert sizes[..i + 1][..i] == sizes[..i];
        if slice.Err? {
          assert i == 0 ==> sizes[..0] == [];
          assert SliceRun(0, sizes[..i], arena.value).Ok?;
          assert SliceRun(0, sizes[..i + 1], arena.value).Err?;
          SliceRunFailsOnward(sizes, i + 1, arena.value);
          return Err(slice.error);
        }
        slices := slices + [slice.value];
        i := i + 1;
      }
      assert sizes[..i] == sizes;
      return Ok(slices);
    }
  }
}
