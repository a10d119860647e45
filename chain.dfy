/**
 * `sync`: where the block download starts and ends, and how the streamed
 * compact blocks land in the height-keyed block cache before the wallet
 * scans it.
 */
module Chain {
  import opened Wrappers
  import opened Bytes
  import opened Wallet

  /** The largest element of a set of heights (SQL `MAX`, which is NULL on an empty table). */
  function MaxKey(keys: set<u32>): (r: Option<u32>)
    ensures r.Some? <==> keys != {}
    ensures r.Some? ==> r.value in keys && forall k :: k in keys ==> k <= r.value
  {
    if keys == {} then None
    else
      MaxExists(keys);
      var m :| m in keys && forall k :: k in keys ==> k <= m;
      Some(m)
  }

  lemma {:induction false} MaxExists(keys: set<u32>)
    requires keys != {}
    ensures exists m :: m in keys && forall k :: k in keys ==> k <= m
    decreases |keys|
  {
    var x :| x in keys;
    var rest := keys - {x};
    assert |rest| == |keys| - 1;
    if rest != {} {
      MaxExists(rest);
      var m :| m in rest && forall k :: k in rest ==> k <= m;
      BoundAfterAdding(keys, x, m);
    } else {
      assert keys == {x};
    }
  }

  /** Adding `x` back to a set bounded by `m` leaves it bounded by the larger of the two. */
  lemma BoundAfterAdding(keys: set<u32>, x: u32, m: u32)
    requires x in keys && m in keys
    requires forall k :: k in keys - {x} ==> k <= m
    ensures var top := if x <= m then m else x; top in keys && forall k :: k in keys ==> k <= top
  {
    var top := if x <= m then m else x;
    forall k | k in keys ensures k <= top {
      if k != x { assert k in keys - {x}; }
    }
  }

  /**
   * The first height to fetch: one past the highest cached block (the
   * SQL `MAX` over the cached heights), or the built-in checkpoint's
   * height itself when the cache is empty.
   */
  function StartHeight(cached: set<u32>, checkpointHeight: u32): (h: u64)
    ensures cached != {} ==> 1 <= h <= 0x1_0000_0000
    ensures cached != {} ==> (h - 1) as u32 in cached && forall k :: k in cached ==> k < h
    ensures cached == {} ==> h == checkpointHeight
  {
    match MaxKey(cached)
    case Some(m) => m + 1
    case None => checkpointHeight
  }

  /** A compact block as streamed: its height and its protobuf encoding. */
  datatype CompactBlock = CompactBlock(height: u64, encoded: seq<byte>)

  /** A block range stream: the blocks received, and whether it then ended normally or with an error status. */
  datatype Stream = Stream(blocks: seq<CompactBlock>, endsCleanly: bool)

  /**
   * The cache after inserting `blocks` in order, one row per block keyed
   * by its height cast to `u32`; a plain INSERT on a height already
   * present fails, and the rows inserted before it stay. The second
   * component names the height that failed, if any.
   */
  function Ingest(rows: map<u32, seq<byte>>, blocks: seq<CompactBlock>): (r: (map<u32, seq<byte>>, Option<u32>))
    ensures rows.Keys <= r.0.Keys
    ensures r.1.Some? ==> r.1.value in r.0 && exists i :: 0 <= i < |blocks| && AsU32(blocks[i].height) == r.1.value
    decreases |blocks|
  {
    if blocks == [] then (rows, None)
    else
      var h := AsU32(blocks[0].height);
      if h in rows then (rows, Some(h))
      else Ingest(rows[h := blocks[0].encoded], blocks[1..])
  }

  /** Ingesting never overwrites or removes a row, and adds only streamed blocks' rows. */
  lemma {:induction false} IngestOnlyAdds(rows: map<u32, seq<byte>>, blocks: seq<CompactBlock>)
    ensures var after := Ingest(rows, blocks).0;
      && (forall k :: k in rows ==> k in after && after[k] == rows[k])
      && (forall k :: k in after && k !in rows ==> exists i :: 0 <= i < |blocks| && AsU32(blocks[i].height) == k && after[k] == blocks[i].encoded)
    decreases |blocks|
  {
    if blocks != [] {
      var h := AsU32(blocks[0].height);
      if h !in rows {
        var next := rows[h := blocks[0].encoded];
        IngestOnlyAdds(next, blocks[1..]);
        var after := Ingest(rows, blocks).0;
        forall k | k in after && k !in rows
          ensures exists i :: 0 <= i < |blocks| && AsU32(blocks[i].height) == k && after[k] == blocks[i].encoded
        {
          if k == h {
            assert AsU32(blocks[0].height) == k && after[k] == blocks[0].encoded;
          } else {
            var i :| 0 <= i < |blocks[1..]| && AsU32(blocks[1..][i].height) == k && after[k] == blocks[1..][i].encoded;
            assert blocks[i + 1] == blocks[1..][i];
          }
        }
      }
    }
  }

  /**
   * With no clash, every streamed block has a row under its own (cast)
   * height holding its encoding; the first clash instead names a height
   * that was already cached or came earlier in the stream.
   */
  lemma {:induction false} IngestStoresEachBlock(rows: map<u32, seq<byte>>, blocks: seq<CompactBlock>)
    ensures var (after, clash) := Ingest(rows, blocks);
      && (clash.None? ==> forall i :: 0 <= i < |blocks| ==> AsU32(blocks[i].height) in after && after[AsU32(blocks[i].height)] == blocks[i].encoded)
      && (clash.Some? ==> exists i :: (
            && 0 <= i < |blocks| && AsU32(blocks[i].height) == clash.value
            && (clash.value in rows || exists j :: 0 <= j < i && AsU32(blocks[j].height) == clash.value)))
    decreases |blocks|
  {
    if blocks != [] {
      var h := AsU32(blocks[0].height);
      if h !in rows {
        var next := rows[h := blocks[0].encoded];
        IngestStoresEachBlock(next, blocks[1..]);
        IngestOnlyAdds(next, blocks[1..]);
        var (after, clash) := Ingest(rows, blocks);
        if clash.None? {
          forall i | 0 <= i < |blocks|
            ensures AsU32(blocks[i].height) in after && after[AsU32(blocks[i].height)] == blocks[i].encoded
          {
            if i > 0 {
              assert blocks[i] == blocks[1..][i - 1];
            }
          }
        } else {
          var i :| 0 <= i < |blocks[1..]| && AsU32(blocks[1..][i].height) == clash.value &&
            (clash.value in next || exists j :: 0 <= j < i && AsU32(blocks[1..][j].height) == clash.value);
          assert blocks[i + 1] == blocks[1..][i];
          if clash.value !in rows {
            if clash.value == h {
              assert AsU32(blocks[0].height) == clash.value;
            } else {
              var j :| 0 <= j < i && AsU32(blocks[1..][j].height) == clash.value;
              assert blocks[j + 1] == blocks[1..][j];
            }
          }
        }
      }
    }
  }

  /** Why heights that differ by 2^32 clash: the cast keeps only the low 32 bits. */
  lemma WrappedHeightsClash(a: CompactBlock, b: CompactBlock)
    requires a.height < 0x1_0000_0000 && b.height == a.height + 0x1_0000_0000
    ensures Ingest(map[], [a, b]).1 == Some(a.height as u32)
  {
    AsU32Cases(a.height);
    AsU32Cases(b.height);
    assert [a, b][1..] == [b];
  }

  /** What `sync` reports on success: the range it fetched. */
  datatype SyncReport = SyncReport(start: u64, end: u64)

  /** The compact block cache: one row per height, as in the `compactblocks` table. */
  class BlockCache {
    var rows: map<u32, seq<byte>>

    constructor (initial: map<u32, seq<byte>>)
      ensures rows == initial
    {
      rows := initial;
    }

    /** A plain INSERT: a new height gets its row; an existing one is refused and nothing changes. */
    method Insert(height: u32, data: seq<byte>) returns (inserted: bool)
      modifies this
      ensures inserted <==> height !in old(rows)
      ensures rows == if inserted then old(rows)[height := data] else old(rows)
    {
      if height in rows {
        return false;
      }
      rows := rows[height := data];
      return true;
    }

    /**
     * `sync`: start one past the highest cached height (or at the
     * checkpoint), ask the light node for the tip, request the closed
     * range [start, tip] with no reorg margin, insert the blocks as they
     * arrive, and scan the cache once the stream is drained.
     * `tip` is `get_latest_block`, `fetch` is `get_block_range` and `scan`
     * is `scan_cached_blocks` run over the cache's rows.
     */
    method Sync(checkpointHeight: u32, tip: Option<u64>, fetch: (u64, u64) -> Option<Stream>,
                scan: map<u32, seq<byte>> -> bool) returns (r: Outcome<SyncReport>)
      modifies this
      ensures var start := StartHeight(old(rows).Keys, checkpointHeight);
        && (tip.None? ==> r == Err(Rpc) && rows == old(rows))
        && (tip.Some? && fetch(start, tip.value).None? ==> r == Err(Rpc) && rows == old(rows))
        && (tip.Some? && fetch(start, tip.value).Some? ==>
              var stream := fetch(start, tip.value).value;
              var (after, clash) := Ingest(old(rows), stream.blocks);
              && rows == after
              && r == (if clash.Some? then Err(DuplicateBlock(clash.value))
                       else if !stream.endsCleanly then Err(Rpc)
                       else if !scan(after) then Err(ScanFailed)
                       else Ok(SyncReport(start, tip.value))))
    {
      var start := StartHeight(rows.Keys, checkpointHeight);
      if tip.None? {
        return Err(Rpc);
      }
      var stream := fetch(start, tip.value);
      if stream.None? {
        return Err(Rpc);
      }
      var blocks := stream.value.blocks;
      for i := 0 to |blocks|
        invariant Ingest(old(rows), blocks) == Ingest(rows, blocks[i..])
      {
        var inserted := Insert(AsU32(blocks[i].height), blocks[i].encoded);
        if !inserted {
          return Err(DuplicateBlock(AsU32(blocks[i].height)));
        }
        assert blocks[i..][1..] == blocks[i + 1..];
      }
      if !stream.value.endsCleanly {
        return Err(Rpc);
      }
      if !scan(rows) {
        return Err(ScanFailed);
      }
      return Ok(SyncReport(start, tip.value));
    }
  }

  /** A successful sync asked for exactly [start, tip], starting right after the cache's last block, and stored every block it received. */
  lemma SyncRangeAndContents(rows: map<u32, seq<byte>>, checkpointHeight: u32, tip: u64, stream: Stream)
    requires Ingest(rows, stream.blocks).1.None?
    ensures var start := StartHeight(rows.Keys, checkpointHeight);
      && (rows != map[] ==> start == MaxKey(rows.Keys).value + 1 && forall k :: k in rows ==> k < start)
      && (rows == map[] ==> start == checkpointHeight)
      && forall i :: 0 <= i < |stream.blocks| ==>
           var h := AsU32(stream.blocks[i].height);
           h in Ingest(rows, stream.blocks).0 && Ingest(rows, stream.blocks).0[h] == stream.blocks[i].encoded
  {
    IngestStoresEachBlock(rows, stream.blocks);
  }
}
