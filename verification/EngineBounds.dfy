/** How many messages the engine holds in RAM. */
module EngineBounds {
  import opened Basics
  import opened WalCodec
  import opened EngineSpec
  import opened Books
  import opened EngineSteps
  import opened EngineRuns
  import opened EngineTheorems

  /** A push raises the number of messages in RAM only while it is below the cap. */
  lemma PushWithinCap(cfg: Config, e: Engine, queue: string, item: Item, now: nat)
    ensures var e' := PushOne(cfg, e, queue, item, now).engine;
            e'.total == e.total || (e'.total == e.total + 1 && e'.total <= cfg.cap)
  {
  }

  /** So does a batch: it never takes the number past the cap. */
  lemma {:induction false} BatchWithinCap(cfg: Config, e: Engine, queue: string, items: seq<Item>, now: nat)
    ensures var e' := BatchItems(cfg, e, queue, items, now).engine;
            e.total <= e'.total <= e.total + |items| && e'.total <= Max(e.total, cfg.cap)
  {
    if items != [] {
      BatchWithinCap(cfg, e, queue, items[..|items| - 1], now);
    }
  }

  lemma {:induction false} PageRecordsCount(cfg: Config, e: Engine, records: seq<WalRecord>, now: nat)
    ensures PageRecords(cfg, e, records, now).total <= e.total + |records|
  {
    if records != [] {
      PageRecordsCount(cfg, e, records[..|records| - 1], now);
    }
  }

  function CountBelow(cfg: Config, records: seq<WalRecord>, n: nat): nat {
    if records == [] then 0
    else
      CountBelow(cfg, records[..|records| - 1], n)
      + if ShardIdx(cfg, records[|records| - 1].queue) < n then 1 else 0
  }

  lemma {:induction false} CountBelowStep(cfg: Config, records: seq<WalRecord>, n: nat)
    ensures CountBelow(cfg, records, n + 1) == CountBelow(cfg, records, n) + |RecordsOfShard(cfg, records, n)|
  {
    if records != [] {
      CountBelowStep(cfg, records[..|records| - 1], n);
    }
  }

  lemma {:induction false} CountBelowAll(cfg: Config, records: seq<WalRecord>)
    ensures CountBelow(cfg, records, NUM_SHARDS) == |records|
  {
    if records != [] {
      CountBelowAll(cfg, records[..|records| - 1]);
    }
  }

  lemma {:induction false} GroupedCount(cfg: Config, records: seq<WalRecord>, n: nat)
    ensures |Grouped(cfg, records, n)| == CountBelow(cfg, records, n)
  {
    if n == 0 {
      CountNone(cfg, records);
    } else {
      GroupedCount(cfg, records, n - 1);
      CountBelowStep(cfg, records, n - 1);
    }
  }

  lemma {:induction false} CountNone(cfg: Config, records: seq<WalRecord>)
    ensures CountBelow(cfg, records, 0) == 0
  {
    if records != [] {
      CountNone(cfg, records[..|records| - 1]);
    }
  }

  lemma PageStepCount(cfg: Config, e: Engine, target: string, now: nat, limit: nat, flushed: bool)
    ensures var p := PageStep(cfg, e, target, now, limit, flushed);
            && p.engine.total <= e.total + limit
            && (p.Continue? ==> p.engine.total <= Max(e.total, cfg.cap - 1))
  {
    hide PageRecords, Grouped;
    var n := ChunkLen(e, limit);
    var records := e.disk[e.spill..e.spill + n];
    PageRecordsCount(cfg, e.(spill := e.spill + n), Grouped(cfg, records, NUM_SHARDS), now);
    GroupedCount(cfg, records, NUM_SHARDS);
    CountBelowAll(cfg, records);
  }

  /** One page-in overshoots the cap by at most the records of one read. */
  lemma {:induction false} PageInWithin(cfg: Config, e: Engine, target: string, now: nat, limit: nat, flushed: bool)
    ensures PageIn(cfg, e, target, now, limit, flushed).total <= Max(e.total, cfg.cap - 1) + limit
    decreases |e.disk| - e.spill, if flushed then 0 else 1
  {
    PageStepCount(cfg, e, target, now, limit, flushed);
    match PageStep(cfg, e, target, now, limit, flushed)
    case Stop(_) =>
    case Continue(e', flushed') => PageInWithin(cfg, e', target, now, limit, flushed');
  }

  /** In every run the counter of messages in RAM is the number of hot messages, and the next push or
      batch does not take that number past the cap. */
  lemma RamWithinCap(cfg: Config, home: Homes, calls: seq<Call>)
    requires 0 < |calls| && AllowedRun(cfg, home, calls)
    requires var op := calls[|calls| - 1].op; op.PushOp? || op.PushBatchOp?
    ensures var before, after := Run(cfg, calls[..|calls| - 1]).engine, Run(cfg, calls).engine;
            HotCount(after.shards) <= Max(HotCount(before.shards), cfg.cap)
  {
    hide Allowed, Admit, MaybeCompact, HotCount;
    var front, c := calls[..|calls| - 1], calls[|calls| - 1];
    var before := Run(cfg, front).engine;
    EveryRunOnePlace(cfg, home, front);
    EveryRunOnePlace(cfg, home, calls);
    match c.op
    case PushOp(q, item) => PushWithinCap(cfg, before, q, item, c.now);
    case PushBatchOp(q, items, survivors) =>
      BatchWithinCap(cfg, before, q, items, c.now);
      CompactTotal(cfg, BatchItems(cfg, before, q, items, c.now).engine, survivors);
  }

  lemma CompactTotal(cfg: Config, e: Engine, survivors: seq<WalRecord>)
    ensures MaybeCompact(cfg, e, survivors).total == e.total
  {
  }
}

/** The model counts records where the code counts bytes. */
module EngineOffsets {
  import opened Framing
  import opened WalCodec
  import opened EngineSpec
  import R = Recovery
  import WW = WalWriter

  /** `spill_read_offset` when the page-in position is at record `n`. */
  function OffsetAt(disk: seq<WalRecord>, n: nat): nat
    requires n <= |disk|
  {
    BytesOf(Size, disk[..n])
  }

  /** Reading the encoded segment from the byte offset of the page-in position returns the chunk of
      records that the model reads, and leaves the offset at its end. */
  lemma ReadsByOffset(ctx: Context, e: Engine, limit: nat)
    requires AllFit(ctx.names, e.disk)
    ensures var f, n := WalFormat(ctx), ChunkLen(e, limit);
            ReadFrom(f, EncodeAll(f, e.disk), OffsetAt(e.disk, e.spill), limit)
            == Chunk(e.disk[e.spill..e.spill + n], OffsetAt(e.disk, e.spill + n))
  {
    hide ReadFrom, EncodeAll, BytesOf, RecordsInRead, CarriesAll, Progress, Encode, Decode;
    var f := WalFormat(ctx);
    WalCarries(ctx, e.disk);
    WalProgress(ctx);
    ReadOfEncoded(f, e.disk, e.spill, limit);
  }

  /** One read of a page-in takes all the records that are left, or as many as asked for, or as many as fit
      in 1 MiB. */
  lemma ChunkTakesMost(e: Engine, limit: nat)
    ensures var n, rest := ChunkLen(e, limit), e.disk[e.spill..];
            && BytesOf(Size, rest[..n]) <= 1048576
            && (n == |rest| || n == limit || 1048576 < BytesOf(Size, rest[..n]) + Size(rest[n]))
  {
    ReadTakesMost(Size, e.disk[e.spill..], CHUNK, limit);
  }

  /** The offset has reached the end of the file exactly when every record has been read. */
  lemma EndOfFileIff(ctx: Context, e: Engine)
    requires AllFit(ctx.names, e.disk)
    ensures |EncodeAll(WalFormat(ctx), e.disk)| <= OffsetAt(e.disk, e.spill) <==> e.spill == |e.disk|
  {
    hide EncodeAll, BytesOf, CarriesAll, Encode, Decode, AllFit;
    WalCarries(ctx, e.disk);
    EncodeAllBytes(WalFormat(ctx), e.disk);
    BytesOfSplit(Size, e.disk[..e.spill], e.disk[e.spill..]);
    assert e.disk == e.disk[..e.spill] + e.disk[e.spill..];
    SomeBytes(e.disk[e.spill..]);
  }

  lemma SomeBytes(log: seq<WalRecord>)
    ensures BytesOf(Size, log) == 0 <==> log == []
  {
  }

  /** What the engine decides on records is what the code decides on bytes: with an active segment that
      holds the encoding of the log, and an exact byte counter, the log is compacted exactly when the
      page-in offset has reached `active_bytes` and `active_bytes` the segment limit. */
  lemma CompactsByBytes(ctx: Context, cfg: Config, e: Engine, w: WW.Writer)
    requires AllFit(ctx.names, e.disk) && WW.Counted(w)
    requires R.Segment(w.files, w.activeIsB) == EncodeAll(WalFormat(ctx), e.disk)
    ensures ShouldCompact(cfg, e) <==> OffsetAt(e.disk, e.spill) >= w.activeBytes && w.activeBytes >= cfg.maxSegment
  {
    hide EncodeAll, BytesOf, CarriesAll, Encode, Decode, AllFit;
    EndOfFileIff(ctx, e);
    WalCarries(ctx, e.disk);
    EncodeAllBytes(WalFormat(ctx), e.disk);
  }
}
