/** `build_attn_mask`: the additive fp16 attention mask of one forward pass,
    shaped batch × 1 × seq_len × (past_len + seq_len), holding only the two
    values 0 (attend) and -65504 (blocked). */
module AttnMask {
  import opened Common

  /** The most negative finite fp16 value, used as "minus infinity". */
  const MaskMin: int := -65504

  /** A 2-D boolean tensor of shape rows × cols (the input mask). */
  datatype BoolTensor = BoolTensor(rows: nat, cols: nat, cells: seq<seq<bool>>)

  predicate Rectangular(t: BoolTensor)
  {
    |t.cells| == t.rows && forall b :: 0 <= b < t.rows ==> |t.cells[b]| == t.cols
  }

  /** A 4-D mask indexed [batch][head][query row][key column]. */
  type Mask4 = seq<seq<seq<seq<int>>>>

  ghost predicate HasShape(x: Mask4, batch: nat, rows: nat, cols: nat)
  {
    && |x| == batch
    && (forall b :: 0 <= b < batch ==> |x[b]| == 1 && |x[b][0]| == rows)
    && (forall b, i :: 0 <= b < batch && 0 <= i < rows ==> |x[b][0][i]| == cols)
  }

  /** `torch.triu(torch.full((n, n), -65504.))`: the upper triangle including
      the diagonal is blocked, the rest is 0. */
  function Triu(i: nat, j: nat): (r: int)
    ensures r == 0 || r == MaskMin
    ensures r == MaskMin <==> i <= j
  {
    if j >= i then MaskMin else 0
  }

  /** Entry (i, k) of the causal mask: zeros, with the triangle written
      into query rows [0, seq_len - 1) and key columns
      [past_len + 1, past_len + seq_len). Every batch row holds the same
      entries. Inside the mask, an entry is blocked exactly when the key
      lies after the query's own position past_len + i. */
  function CausalEntry(seqLen: nat, pastLen: nat, i: nat, k: nat): (r: int)
    ensures i < seqLen && k < pastLen + seqLen ==> r == if k > pastLen + i then MaskMin else 0
  {
    if i < seqLen - 1 && pastLen + 1 <= k < pastLen + seqLen then Triu(i, k - pastLen - 1) else 0
  }

  /** The causal mask, batch × 1 × seq_len × (past_len + seq_len). */
  function CausalMask(batch: nat, seqLen: nat, pastLen: nat): (x: Mask4)
    requires seqLen > 1
    ensures HasShape(x, batch, seqLen, pastLen + seqLen)
  {
    seq(batch, b => [seq(seqLen, i requires 0 <= i < seqLen => seq(pastLen + seqLen, k requires 0 <= k < pastLen + seqLen =>
      CausalEntry(seqLen, pastLen, i, k)))])
  }

  /** `torch.where(input_mask, 0, -65504.)`. */
  function MaskValue(keep: bool): (r: int)
    ensures r == 0 <==> keep
    ensures r == MaskMin <==> !keep
  {
    if keep then 0 else MaskMin
  }

  /** The size of one axis after broadcasting sizes `a` and `b` against
      each other, or None when torch refuses to. */
  function BroadcastDim(a: nat, b: nat): (r: Option<nat>)
    ensures r.Some? <==> a == b || a == 1 || b == 1
    ensures r.Some? && a == b ==> r.value == a
    ensures r.Some? && a != 1 ==> r.value == a
    ensures r.Some? && a == 1 ==> r.value == b
    ensures r.Some? && b != 1 ==> r.value == b
  {
    if a == b || b == 1 then Some(a) else if a == 1 then Some(b) else None
  }

  /** The input mask's value at batch row b and key k, where an axis of
      size 1 is broadcast. */
  function InputEntry(m: BoolTensor, b: nat, k: nat): (r: int)
    requires Rectangular(m)
    requires m.rows == 1 || b < m.rows
    requires m.cols == 1 || k < m.cols
    ensures r == 0 || r == MaskMin
    ensures b < m.rows && k < m.cols ==> (r == 0 <==> m.cells[b][k])
    ensures m.rows == 1 && m.cols == 1 ==> (r == 0 <==> m.cells[0][0])
  {
    MaskValue(m.cells[if m.rows == 1 then 0 else b][if m.cols == 1 then 0 else k])
  }

  /** `torch.minimum` of the causal mask (batch × 1 × seq_len × keys) and the
      input mask unsqueezed to rows × 1 × 1 × cols, broadcast on every axis.
      The causal rows are equal across the batch and the key axis has at
      least two entries, so a broadcast causal entry is `CausalEntry` at the
      output's own query and key. */
  function MergeInputMask(batch: nat, seqLen: nat, pastLen: nat, m: BoolTensor): (r: Result<Mask4>)
    requires seqLen > 1 && Rectangular(m)
    ensures r.Ok? <==> BroadcastDim(batch, m.rows).Some? && BroadcastDim(pastLen + seqLen, m.cols).Some?
    ensures r.Err? ==> r.error == BroadcastMismatch
    ensures r.Ok? ==> HasShape(r.value, BroadcastDim(batch, m.rows).value, seqLen, BroadcastDim(pastLen + seqLen, m.cols).value)
  {
    var bd := BroadcastDim(batch, m.rows);
    var kd := BroadcastDim(pastLen + seqLen, m.cols);
    if bd.None? || kd.None? then Err(BroadcastMismatch)
    else
      Ok(seq(bd.value, b requires 0 <= b < bd.value => [seq(seqLen, i requires 0 <= i < seqLen => seq(kd.value, k requires 0 <= k < kd.value =>
        Min(CausalEntry(seqLen, pastLen, i, k), InputEntry(m, b, k))))]))
  }

  /** `build_attn_mask`: None for a single token (or none), else the causal
      mask, merged with the input mask when there is one. */
  function BuildAttnMask(batch: nat, seqLen: nat, pastLen: nat, inputMask: Option<BoolTensor>): (r: Result<Option<Mask4>>)
    requires inputMask.Some? ==> Rectangular(inputMask.value)
    ensures seqLen <= 1 ==> r == Ok(None)
    ensures seqLen > 1 && r.Ok? ==> r.value.Some?
    ensures r.Err? ==> r.error == BroadcastMismatch && inputMask.Some?
  {
    if seqLen <= 1 then Ok(None)
    else
      match inputMask
      case None => Ok(Some(CausalMask(batch, seqLen, pastLen)))
      case Some(m) =>
        match MergeInputMask(batch, seqLen, pastLen, m)
        case Err(e) => Err(e)
        case Ok(x) => Ok(Some(x))
  }

  /** Key column k of query row i is blocked exactly when it lies after the
      query's own position past_len + i; in particular the last row is open. */
  lemma CausalMaskSpec(batch: nat, seqLen: nat, pastLen: nat)
    requires seqLen > 1
    ensures var x := CausalMask(batch, seqLen, pastLen);
      && HasShape(x, batch, seqLen, pastLen + seqLen)
      && forall b, i, k :: 0 <= b < batch && 0 <= i < seqLen && 0 <= k < pastLen + seqLen ==>
           x[b][0][i][k] == if k > pastLen + i then MaskMin else 0
  {
    var x := CausalMask(batch, seqLen, pastLen);
    forall b, i, k | 0 <= b < batch && 0 <= i < seqLen && 0 <= k < pastLen + seqLen
      ensures x[b][0][i][k] == if k > pastLen + i then MaskMin else 0
    {
      assert x[b][0][i][k] == CausalEntry(seqLen, pastLen, i, k);
    }
  }

  /** Without an input mask, a mask is built for every multi-token pass and
      it is exactly the causal mask. */
  lemma BuildWithoutInputMask(batch: nat, seqLen: nat, pastLen: nat)
    requires seqLen > 1
    ensures var r := BuildAttnMask(batch, seqLen, pastLen, None);
      && r.Ok? && r.value.Some?
      && HasShape(r.value.value, batch, seqLen, pastLen + seqLen)
      && forall b, i, k :: 0 <= b < batch && 0 <= i < seqLen && 0 <= k < pastLen + seqLen ==>
           r.value.value[b][0][i][k] == if k > pastLen + i then MaskMin else 0
  {
    CausalMaskSpec(batch, seqLen, pastLen);
  }

  /** With an input mask of the shape `forward` demands (batch × seq_len),
      the batch axis always broadcasts, and the key axis (past_len + seq_len
      against the mask's seq_len columns) only when there is no past. */
  lemma MergeBroadcasts(batch: nat, seqLen: nat, pastLen: nat, m: BoolTensor)
    requires seqLen > 1 && Rectangular(m) && m.rows == batch && m.cols == seqLen
    ensures MergeInputMask(batch, seqLen, pastLen, m).Ok? <==> pastLen == 0
  {
    assert BroadcastDim(batch, m.rows) == Some(batch);
    assert BroadcastDim(pastLen + seqLen, m.cols).Some? <==> pastLen == 0;
  }

  /** With no past, the merged entry is the minimum of the causal entry and
      the input mask's value for that key. */
  lemma MergeEntries(batch: nat, seqLen: nat, m: BoolTensor)
    requires seqLen > 1 && Rectangular(m) && m.rows == batch && m.cols == seqLen
    ensures var r := MergeInputMask(batch, seqLen, 0, m);
      && r.Ok?
      && HasShape(r.value, batch, seqLen, seqLen)
      && forall b, i, k :: 0 <= b < batch && 0 <= i < seqLen && 0 <= k < seqLen ==>
           r.value[b][0][i][k] == if k > i || !m.cells[b][k] then MaskMin else 0
  {
    MergeBroadcasts(batch, seqLen, 0, m);
    var x := MergeInputMask(batch, seqLen, 0, m).value;
    forall b, i, k | 0 <= b < batch && 0 <= i < seqLen && 0 <= k < seqLen
      ensures x[b][0][i][k] == if k > i || !m.cells[b][k] then MaskMin else 0
    {
      assert x[b][0][i][k] == Min(CausalEntry(seqLen, 0, i, k), InputEntry(m, b, k));
    }
  }

  /** With an input mask of the shape `forward` demands, building fails
      exactly when the cache already holds positions. When it succeeds, an
      entry is blocked exactly when the causal rule blocks it or the input
      mask drops that key. */
  lemma BuildWithInputMask(batch: nat, seqLen: nat, pastLen: nat, m: BoolTensor)
    requires seqLen > 1 && Rectangular(m) && m.rows == batch && m.cols == seqLen
    ensures var r := BuildAttnMask(batch, seqLen, pastLen, Some(m));
      && (r.Err? <==> pastLen != 0)
      && (r.Ok? ==>
            && r.value.Some?
            && HasShape(r.value.value, batch, seqLen, seqLen)
            && forall b, i, k :: 0 <= b < batch && 0 <= i < seqLen && 0 <= k < seqLen ==>
                 r.value.value[b][0][i][k] == if k > i || !m.cells[b][k] then MaskMin else 0)
  {
    MergeBroadcasts(batch, seqLen, pastLen, m);
    if pastLen == 0 {
      MergeEntries(batch, seqLen, m);
    }
  }
}
