/**
 * Finding where to start scanning: `find_height`, a binary search for the
 * first block of a given day between Sapling activation and the chain
 * tip, and `find_checkpoint`, a tree state copied into a checkpoint with
 * its block hash byte-reversed.
 */
module Checkpoints {
  import opened Wrappers
  import opened Bytes
  import opened Wallet

  datatype Network = TestNetwork | MainNetwork

  /** The Sapling network upgrade's activation height on each network. */
  function SaplingActivation(net: Network): (h: u64)
    ensures h >= 1
  {
    match net
    case TestNetwork => 280_000
    case MainNetwork => 419_200
  }

  /** What `get_block` reports about a block: the height it claims and its time. */
  datatype BlockHeader = BlockHeader(height: u64, time: u32)

  /** The light node answers every height in `[lo, hi]` with that block. */
  ghost predicate Faithful(getBlock: u64 -> Option<BlockHeader>, lo: u64, hi: u64) {
    forall k: u64 :: lo <= k <= hi ==> getBlock(k).Some? && getBlock(k).value.height == k
  }

  /** Block times strictly increase with height over `[lo, hi]`. */
  ghost predicate Increasing(getBlock: u64 -> Option<BlockHeader>, lo: u64, hi: u64) {
    forall j: u64, k: u64 :: lo <= j < k <= hi && getBlock(j).Some? && getBlock(k).Some? ==>
      getBlock(j).value.time < getBlock(k).value.time
  }

  /** `r` splits `[lo, hi]` at `ts`: every block below it is earlier, every block above it later. */
  ghost predicate Brackets(getBlock: u64 -> Option<BlockHeader>, lo: u64, hi: u64, ts: u32, r: int) {
    && (forall k: u64 :: lo <= k < r && getBlock(k).Some? ==> getBlock(k).value.time < ts)
    && (forall k: u64 :: r < k <= hi && getBlock(k).Some? ==> getBlock(k).value.time > ts)
  }

  /** A height that brackets a timestamp is the block with exactly that time, when there is one. */
  lemma BracketsFindsExactTime(getBlock: u64 -> Option<BlockHeader>, lo: u64, hi: u64, ts: u32, r: int, h: u64)
    requires Brackets(getBlock, lo, hi, ts, r)
    requires lo <= h <= hi && getBlock(h).Some? && getBlock(h).value.time == ts
    ensures r == h
  {
  }

  /**
   * `find_height`: search `[activation, tip]` for the day starting at
   * `midnight` (a Unix time, cast to `u32` as the code does), probing
   * `(low + high) / 2`; an earlier target moves `high` below the probe, a
   * later one moves `low` above it, an equal one returns the height the
   * node reports. When `low` meets `high`, `high` is the answer.
   * u64 addition panics on overflow; a failed call is an error.
   */
  method FindHeight(net: Network, tip: Option<u64>, midnight: i64, getBlock: u64 -> Option<BlockHeader>)
    returns (r: Outcome<u64>)
    ensures tip.None? ==> r == Err(Rpc)
    ensures r.Err? ==> r.error == Rpc
    ensures r.Panic? ==> tip.Some? && 2 * tip.value > U64_MAX
    ensures r.Ok? ==> (
      && tip.Some?
      && ((Min(tip.value, SaplingActivation(net) - 1) <= r.value <= tip.value) ||
          (exists m: u64 :: SaplingActivation(net) <= m <= tip.value && getBlock(m) == Some(BlockHeader(r.value, AsU32(midnight))))))
    ensures tip.Some? && Faithful(getBlock, SaplingActivation(net), tip.value) && 2 * tip.value <= U64_MAX ==> r.Ok?
    ensures r.Ok? && Faithful(getBlock, SaplingActivation(net), tip.value) && Increasing(getBlock, SaplingActivation(net), tip.value) ==>
      Brackets(getBlock, SaplingActivation(net), tip.value, AsU32(midnight), r.value)
  {
    if tip.None? {
      return Err(Rpc);
    }
    var act := SaplingActivation(net);
    var low: u64 := act;
    var high: u64 := tip.value;
    var ts := AsU32(midnight);
    ghost var good := Faithful(getBlock, act, tip.value) && Increasing(getBlock, act, tip.value);
    while low < high
      invariant act <= low && high <= tip.value
      invariant low <= high + 1 || (low == act && high == tip.value)
      invariant good ==> forall k: u64 :: act <= k < low ==> getBlock(k).value.time < ts
      invariant good ==> forall k: u64 :: high < k <= tip.value ==> getBlock(k).value.time > ts
      decreases high - low
    {
      if low + high > U64_MAX {
        return Panic("attempt to add with overflow");
      }
      var mid: u64 := (low + high) / 2;
      var block := getBlock(mid);
      if block.None? {
        return Err(Rpc);
      }
      if ts < block.value.time {
        high := mid - 1;
      } else if ts > block.value.time {
        low := mid + 1;
      } else {
        return Ok(block.value.height);
      }
    }
    return Ok(high);
  }

  /** What the light node returns for a tree state request. */
  datatype TreeState = TreeState(height: u64, hash: string, time: u32, tree: string)

  datatype Checkpoint = Checkpoint(height: u64, hash: seq<byte>, time: u32, saplingTree: string)

  /** Reverses `a` in place, swapping from both ends towards the middle. */
  method ReverseInPlace(a: array<byte>)
    modifies a
    ensures a[..] == Reversed(old(a[..]))
  {
    ghost var orig := a[..];
    var n := a.Length;
    for i := 0 to n / 2
      invariant forall k :: 0 <= k < i ==> a[k] == orig[n - 1 - k] && a[n - 1 - k] == orig[k]
      invariant forall k :: i <= k < n - i ==> a[k] == orig[k]
    {
      a[i], a[n - 1 - i] := a[n - 1 - i], a[i];
    }
  }

  /** A tree state as a checkpoint: the hash decoded from hex and reversed to internal byte order, the rest copied. */
  function CheckpointOf(state: TreeState): (r: Outcome<Checkpoint>)
    ensures !r.Panic?
    ensures r.Err? <==> HexDecode(state.hash).None?
    ensures r.Err? ==> r.error == BadHex("hash")
    ensures r.Ok? ==> && r.value.height == state.height && r.value.time == state.time && r.value.saplingTree == state.tree
                      && Some(Reversed(r.value.hash)) == HexDecode(state.hash)
  {
    match HexDecode(state.hash)
    case None => Err(BadHex("hash"))
    case Some(hash) =>
      ReversedTwice(hash);
      Ok(Checkpoint(state.height, Reversed(hash), state.time, state.tree))
  }

  /** `find_checkpoint`: fetch the tree state at `height` and convert it, reversing the hash buffer in place. */
  method FindCheckpoint(height: u64, getTreeState: u64 -> Option<TreeState>) returns (r: Outcome<Checkpoint>)
    ensures getTreeState(height).None? ==> r == Err(Rpc)
    ensures getTreeState(height).Some? ==> r == CheckpointOf(getTreeState(height).value)
  {
    var state := getTreeState(height);
    if state.None? {
      return Err(Rpc);
    }
    var decoded := HexDecode(state.value.hash);
    if decoded.None? {
      return Err(BadHex("hash"));
    }
    var buffer := new byte[|decoded.value|](i requires 0 <= i < |decoded.value| => decoded.value[i]);
    assert buffer[..] == decoded.value;
    ReverseInPlace(buffer);
    return Ok(Checkpoint(state.value.height, buffer[..], state.value.time, state.value.tree));
  }

  /**
   * A checkpoint keeps the tree state's height, time and tree; its hash
   * holds as many bytes as the hex text encodes, and reversed and
   * re-encoded it gives back the node's (lower-case) hash text.
   */
  lemma CheckpointRoundTrip(state: TreeState)
    requires forall i :: 0 <= i < |state.hash| ==> IsLowerHexDigit(state.hash[i])
    requires |state.hash| % 2 == 0
    ensures CheckpointOf(state).Ok?
    ensures var cp := CheckpointOf(state).value;
      && cp.height == state.height && cp.time == state.time && cp.saplingTree == state.tree
      && 2 * |cp.hash| == |state.hash|
      && HexEncode(Reversed(cp.hash)) == state.hash
  {
    HexDecodeRoundTrip(state.hash);
    ReversedTwice(HexDecode(state.hash).value);
  }

  /**
   * Hash text of odd length, or with a character outside `0-9a-fA-F`,
   * yields no checkpoint but the hash field's hex error; any other text
   * yields a checkpoint.
   */
  lemma CheckpointNeedsHex(state: TreeState)
    ensures var notHex := |state.hash| % 2 == 1 || exists i :: 0 <= i < |state.hash| && HexValue(state.hash[i]).None?;
      && (notHex ==> CheckpointOf(state) == Err(BadHex("hash")))
      && (!notHex ==> CheckpointOf(state).Ok?)
  {
    HexDecodeAccepts(state.hash);
  }
}
