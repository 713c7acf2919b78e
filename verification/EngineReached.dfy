/** A spilled message comes back: which polls page it in, and exactly when none ever does. */
module EngineReached {
  import opened Basics
  import opened WalCodec
  import opened EngineSpec
  import opened Books
  import opened EngineSteps
  import opened Lifecycle
  import opened EngineLife
  import opened EngineRuns
  import opened EngineCompaction
  import opened EngineTheorems
  import opened EngineNoLoss
  import opened EngineKept
  import Q = Queues
  import Framing

  /** The record fits one read of the segment. */
  predicate Small(r: WalRecord) {
    Size(r) <= 1048576
  }

  /** A poll whose queue is short of ready messages, so that it pages in. */
  ghost predicate Hungry(cfg: Config, e: Engine, c: Call) {
    c.op.PollOp? && NeedsPageIn(cfg, Returned(cfg, e, c.op.queue, c.now), c.op.queue, c.op.max)
  }

  // ---------------------------------------------------------------- one page-in

  lemma SmallIsRead(e: Engine, limit: nat)
    requires e.spill < |e.disk| && Small(e.disk[e.spill]) && 0 < limit
    ensures 0 < ChunkLen(e, limit)
  {
    SuffixStep(e.disk, e.spill);
  }

  /** A page-in brings a cold message in, or stops short of its record but past where it began. */
  lemma {:induction false} ReachPageIn(cfg: Config, home: Homes, e: Engine, target: string, now: nat, limit: nat,
                                       flushed: bool, id: Id, k: nat)
    returns (s: Status)
    requires Inv(cfg, home, e, []) && Has(cfg, home, e, [], id, Cold) && 0 < limit
    requires e.spill <= k < |e.disk| && Offers(e.disk[k], id, now)
    requires forall j :: e.spill <= j <= k ==> Small(e.disk[j])
    ensures var e' := PageIn(cfg, e, target, now, limit, flushed);
            Has(cfg, home, e', [], id, s) && Fetched(home(id), Cold, s) && (s.Cold? ==> e.spill < e'.spill <= k)
    decreases |e.disk| - e.spill, if flushed then 0 else 1
  {
    hide Inv, Has, Offers, Offered, PageStep, ChunkLen, Small;
    SmallIsRead(e, limit);
    s := PageStepLife(cfg, home, e, target, now, limit, flushed, id, Cold);
    PageStepInv(cfg, home, e, target, now, limit, flushed);
    ChunkStep(cfg, e, target, now, limit, flushed);
    match PageStep(cfg, e, target, now, limit, flushed)
    case Stop(_) =>
    case Continue(e', flushed') =>
      if s.Cold? {
        s := ReachPageIn(cfg, home, e', target, now, limit, flushed', id, k);
      } else {
        s := PageInLife(cfg, home, e', target, now, limit, flushed', id, s);
      }
  }

  lemma ChunkStep(cfg: Config, e: Engine, target: string, now: nat, limit: nat, flushed: bool)
    requires 0 < ChunkLen(e, limit)
    ensures var e' := PageStep(cfg, e, target, now, limit, flushed).engine;
            e'.spill == e.spill + ChunkLen(e, limit) && e'.disk == e.disk
  {
    hide Grouped, TargetAdded, ChunkLen, HasPush;
  }

  // ---------------------------------------------------------------- why a page-in stops

  /** The message was cold and now waits in the queue. */
  ghost predicate Brought(cfg: Config, home: Homes, e: Engine, e': Engine, target: string, id: Id) {
    Has(cfg, home, e, [], id, Cold) && Has(cfg, home, e', [], id, InQueue(target, 0))
  }

  ghost predicate BringsOne(cfg: Config, home: Homes, e: Engine, e': Engine, target: string) {
    exists id :: Brought(cfg, home, e, e', target, id)
  }

  /** A message counted for the target queue was cold and now waits there. */
  lemma {:induction false} CountedIsBrought(cfg: Config, home: Homes, e: Engine, records: seq<WalRecord>, now: nat,
                                            target: string)
    requires Inv(cfg, home, e, []) && forall k :: 0 <= k < |records| ==> records[k] in e.disk
    requires 0 < TargetAdded(cfg, e, records, now, target)
    ensures BringsOne(cfg, home, e, PageRecords(cfg, e, records, now), target)
  {
    hide Inv, Has, PageRecord, Offered;
    var front, r := records[..|records| - 1], records[|records| - 1];
    var mid, e' := PageRecords(cfg, e, front, now), PageRecords(cfg, e, records, now);
    PageRecordsInv(cfg, home, e, front, now);
    if 0 < TargetAdded(cfg, e, front, now, target) {
      CountedIsBrought(cfg, home, e, front, now, target);
      var id :| Brought(cfg, home, e, mid, target, id);
      var s := PageRecordLife(cfg, home, mid, r, now, id, InQueue(target, 0));
      assert Brought(cfg, home, e, e', target, id);
    } else {
      var s := AnyStatus(cfg, home, e, r.id);
      var t := PageRecordsLife(cfg, home, e, front, now, r.id, s);
      PagedFromCold(cfg, home, mid, r, now, t);
      assert Brought(cfg, home, e, e', target, r.id);
    }
  }

  lemma PagedFromCold(cfg: Config, home: Homes, e: Engine, r: WalRecord, now: nat, s: Status)
    requires Inv(cfg, home, e, []) && r in e.disk && r.Push? && Has(cfg, home, e, [], r.id, s)
    requires PageRecord(cfg, e, r, now).total != e.total
    ensures s == Cold && Has(cfg, home, PageRecord(cfg, e, r, now), [], r.id, InQueue(r.queue, 0))
  {
    hide Inv, Has;
    PagePushShape(cfg, e, r, now);
    ColdStatus(cfg, home, e, r, now, s);
    var s' := PageAddLife(cfg, home, e, r, now, r.id, s);
  }

  /** A turn of the paging loop stops only at the end of the segment, or in front of a record that is too
      large, where it wraps the position; or when the RAM is full; or with a message of the target queue. */
  lemma StepStopsOnly(cfg: Config, home: Homes, e: Engine, target: string, now: nat, limit: nat, flushed: bool)
    requires Inv(cfg, home, e, [])
    ensures var p := PageStep(cfg, e, target, now, limit, flushed);
            p.Stop? ==> p.engine.spill == 0 || cfg.cap <= p.engine.total || BringsOne(cfg, home, e, p.engine, target)
  {
    hide Inv, Has, Grouped, PageRecords, TargetAdded, HasPush, ChunkLen;
    var n := ChunkLen(e, limit);
    var e1, records := e.(spill := e.spill + n), e.disk[e.spill..e.spill + n];
    if 0 < n && HasPush(records) {
      var g := Grouped(cfg, records, NUM_SHARDS);
      SpillInv(cfg, home, e, e.spill + n);
      GroupedFromDisk(cfg, e.disk, e.spill, e.spill + n, g);
      if 0 < TargetAdded(cfg, e1, g, now, target) {
        CountedIsBrought(cfg, home, e1, g, now, target);
        var id :| Brought(cfg, home, e1, PageRecords(cfg, e1, g, now), target, id);
        DiskLife(cfg, home, e1, e, [], id, Cold);
        assert Brought(cfg, home, e, PageRecords(cfg, e1, g, now), target, id);
      }
    }
  }

  /** A page-in does not give up early: it ends at the end of the segment, or in front of a record that is too
      large, with the position wrapped to the start; or with the RAM full; or with a message brought into
      the polled queue. */
  lemma {:induction false} StopsOnly(cfg: Config, home: Homes, e: Engine, target: string, now: nat, limit: nat,
                                     flushed: bool)
    requires Inv(cfg, home, e, [])
    ensures var e' := PageIn(cfg, e, target, now, limit, flushed);
            e'.spill == 0 || cfg.cap <= e'.total || BringsOne(cfg, home, e, e', target)
    decreases |e.disk| - e.spill, if flushed then 0 else 1
  {
    hide Inv, Has, PageStep, ChunkLen, Offered, Offers;
    StepStopsOnly(cfg, home, e, target, now, limit, flushed);
    PageStepInv(cfg, home, e, target, now, limit, flushed);
    match PageStep(cfg, e, target, now, limit, flushed)
    case Stop(_) =>
    case Continue(e1, flushed') =>
      StopsOnly(cfg, home, e1, target, now, limit, flushed');
      var e' := PageIn(cfg, e1, target, now, limit, flushed');
      if BringsOne(cfg, home, e1, e', target) {
        var id :| Brought(cfg, home, e1, e', target, id);
        var s := AnyStatus(cfg, home, e, id);
        var t := PageStepLife(cfg, home, e, target, now, limit, flushed, id, s);
        ColdOnly(cfg, home, e1, id, t);
        assert Brought(cfg, home, e, e', target, id);
      }
  }

  // ---------------------------------------------------------------- records that are too large

  /** A read ends before a record that is too large for it. */
  lemma {:induction false} ReadEnds(log: seq<WalRecord>, room: nat, max: nat, i: nat)
    requires i < |log| && room < Size(log[i])
    ensures Framing.RecordsInRead(Size, log, room, max) <= i
  {
    if i > 0 && max > 0 && Size(log[0]) <= room {
      assert log[1..][i - 1] == log[i];
      ReadEnds(log[1..], room - Size(log[0]), max - 1, i - 1);
    }
  }

  lemma ChunkEnds(e: Engine, limit: nat, j: nat)
    requires e.spill <= j < |e.disk| && !Small(e.disk[j])
    ensures e.spill + ChunkLen(e, limit) <= j
  {
    assert e.disk[e.spill..][j - e.spill] == e.disk[j];
    ReadEnds(e.disk[e.spill..], Framing.CHUNK, limit, j - e.spill);
  }

  /** Record `j` is too large to be read, the page-in position is not past it, and no Push record of the
      message comes before it. */
  ghost predicate Blocked(e: Engine, id: Id, j: nat) {
    e.spill <= j < |e.disk| && !Small(e.disk[j]) && !Logged(e.disk[..j], id)
  }

  lemma BlockedChunk(e: Engine, n: nat, id: Id, j: nat, now: nat)
    requires Blocked(e, id, j) && e.spill + n <= j
    ensures !Offered(e.disk[e.spill..e.spill + n], id, now)
  {
    hide Offered, Logged, Small;
    OfferedLoggedBefore(e.disk, e.spill, e.spill + n, j, id, now);
  }

  lemma OfferedLoggedBefore(disk: seq<WalRecord>, from: nat, to: nat, j: nat, id: Id, now: nat)
    requires from <= to <= j <= |disk|
    ensures Offered(disk[from..to], id, now) ==> Logged(disk[..j], id)
  {
    var chunk := disk[from..to];
    if Offered(chunk, id, now) {
      var k :| 0 <= k < |chunk| && Offers(chunk[k], id, now);
      assert disk[..j][from + k] == chunk[k];
    }
  }

  lemma BlockedMoves(e: Engine, e': Engine, id: Id, j: nat)
    requires Blocked(e, id, j) && e.disk <= e'.disk && e'.spill <= j
    ensures Blocked(e', id, j)
  {
    assert e'.disk[..j] == e.disk[..j];
  }

  lemma StepSpill(cfg: Config, e: Engine, target: string, now: nat, limit: nat, flushed: bool)
    ensures var e' := PageStep(cfg, e, target, now, limit, flushed).engine;
            e'.disk == e.disk && e'.spill <= e.spill + ChunkLen(e, limit)
  {
    hide Grouped, TargetAdded, ChunkLen, HasPush;
  }

  /** No page-in gets past a record that is too large. */
  lemma {:induction false} BlockedPageIn(cfg: Config, home: Homes, e: Engine, target: string, now: nat, limit: nat,
                                         flushed: bool, id: Id, j: nat)
    requires Inv(cfg, home, e, []) && Has(cfg, home, e, [], id, Cold) && Blocked(e, id, j)
    ensures var e' := PageIn(cfg, e, target, now, limit, flushed);
            Has(cfg, home, e', [], id, Cold) && Blocked(e', id, j)
    decreases |e.disk| - e.spill, if flushed then 0 else 1
  {
    hide Inv, Has, Offered, PageStep, ChunkLen, Small, Logged;
    var s := PageStepLife(cfg, home, e, target, now, limit, flushed, id, Cold);
    ChunkEnds(e, limit, j);
    BlockedChunk(e, ChunkLen(e, limit), id, j, now);
    StepSpill(cfg, e, target, now, limit, flushed);
    PageStepInv(cfg, home, e, target, now, limit, flushed);
    BlockedMoves(e, PageStep(cfg, e, target, now, limit, flushed).engine, id, j);
    match PageStep(cfg, e, target, now, limit, flushed)
    case Stop(_) =>
    case Continue(e', flushed') => BlockedPageIn(cfg, home, e', target, now, limit, flushed', id, j);
  }

  // ---------------------------------------------------------------- one call

  /** A call leaves a cold message cold unless a page-in fetched it, and makes nothing cold again. */
  lemma {:induction false} ColdOrNot(h: string, s: Status, events: seq<Event>, now: nat)
    requires Accepts(h, s, events, now) && !s.Unseen?
    ensures (FireAll(s, events).Cold? <==> s.Cold?) && !FireAll(s, events).Unseen?
  {
    if events != [] {
      ColdOrNot(h, s, events[..|events| - 1], now);
    }
  }

  /** The claim that ends a poll. */
  lemma AfterClaim(cfg: Config, home: Homes, e: Engine, c: Call, id: Id, s: Status) returns (s': Status)
    requires c.op.PollOp? && Allowed(cfg, home, e, c)
    requires var e1 := ReadyToClaim(cfg, e, c.op.queue, c.now, c.op.max);
             Inv(cfg, home, e1, []) && Has(cfg, home, e1, [], id, s) && !s.Unseen?
    ensures var e1, e' := ReadyToClaim(cfg, e, c.op.queue, c.now, c.op.max), Step(cfg, e, c).engine;
            && e'.disk == e1.disk && e'.spill == e1.spill
            && Has(cfg, home, e', [], id, s') && (s'.Cold? <==> s.Cold?) && !s'.Unseen?
  {
    hide Inv, Has, ReadyToClaim, ClaimFrom, FireAll, Project, Accepts;
    var q, now := c.op.queue, c.now;
    var e1 := ReadyToClaim(cfg, e, q, now, c.op.max);
    var l := Lease(q, now, now + Timeout(cfg, c.op.visibility));
    ClaimLife(cfg, home, e1, l, c.op.max, c.op.secs, c.op.receipts, id, s);
    var mine := Project(ClaimFrom(e1.shards[ShardIdx(cfg, q)], l, c.op.max, c.op.secs, c.op.receipts).events, id);
    ColdOrNot(home(id), s, mine, now);
    s' := FireAll(s, mine);
  }

  lemma ReturnedCold(cfg: Config, home: Homes, e: Engine, queue: string, now: nat, id: Id)
    requires Inv(cfg, home, e, []) && Has(cfg, home, e, [], id, Cold)
    ensures var e' := Returned(cfg, e, queue, now);
            Inv(cfg, home, e', []) && Has(cfg, home, e', [], id, Cold) && e'.disk == e.disk && e'.spill == e.spill
  {
    hide Inv, Has, Expire;
    var s := ReturnedLife(cfg, home, e, queue, now, id, Cold);
    var i := ShardIdx(cfg, queue);
    var t := Expire(e.shards[i], now);
    RoutedKeeps(cfg, WithShard(e, i, t.shard), t.limbo, now);
  }

  /** A call other than a poll appends to the log and leaves the page-in position where it is, as long as
      something is unread. */
  lemma QuietStep(cfg: Config, home: Homes, e: Engine, c: Call, id: Id, s: Status) returns (s': Status)
    requires Inv(cfg, home, e, []) && Has(cfg, home, e, [], id, s) && Allowed(cfg, home, e, c) && !s.Unseen?
    requires !c.op.PollOp? && e.spill < |e.disk|
    ensures var e' := Step(cfg, e, c).engine;
            && Inv(cfg, home, e', []) && Has(cfg, home, e', [], id, s') && (s'.Cold? <==> s.Cold?) && !s'.Unseen?
            && e.disk <= e'.disk && e'.spill == e.spill
  {
    hide Inv, Has, Step, Logs, Compacts, Allowed, FireAll, Project, Accepts;
    var s1 := StepSound(cfg, home, e, c, id, s);
    var mine := Project(Step(cfg, e, c).events, id);
    ColdOrNot(home(id), s, mine, c.now);
    s' := FireAll(s, mine);
    CompactsIff(cfg, e, c);
    StepLogs(cfg, e, c);
    SpillStays(cfg, e, c);
  }

  lemma SpillStays(cfg: Config, e: Engine, c: Call)
    requires !c.op.PollOp? && !Compacts(cfg, e, c)
    ensures Step(cfg, e, c).engine.spill == e.spill
  {
    hide Admit, BatchItems, AckItems, ShouldCompact, Seen, CanAck;
    match c.op
    case PushOp(q, item) => AdmitShape(cfg, e, q, item, c.now);
    case PushBatchOp(q, items, _) => BatchLogs(cfg, e, q, items, c.now);
    case AckOp(_, _) =>
    case AckBatchOp(q, acks, _) => AcksLog(cfg, e, q, acks);
  }

  /** Every call brings a cold message that is due within the horizon in, or leaves its record ahead of the
      page-in position; a hungry poll moves the position on. */
  lemma ReachStep(cfg: Config, home: Homes, e: Engine, c: Call, id: Id, k: nat) returns (s: Status)
    requires Inv(cfg, home, e, []) && Has(cfg, home, e, [], id, Cold) && Allowed(cfg, home, e, c)
    requires e.spill <= k < |e.disk| && Offers(e.disk[k], id, c.now)
    requires forall j :: e.spill <= j <= k ==> Small(e.disk[j])
    ensures var e' := Step(cfg, e, c).engine;
            && Inv(cfg, home, e', []) && Has(cfg, home, e', [], id, s) && !s.Unseen?
            && (s.Cold? ==> e.disk <= e'.disk && e.spill + (if Hungry(cfg, e, c) then 1 else 0) <= e'.spill <= k)
  {
    hide Inv, Has, Step, Allowed, Returned, PageIn, NeedsPageIn, Offers, Small;
    if c.op.PollOp? {
      var q, max := c.op.queue, c.op.max;
      var e1 := Returned(cfg, e, q, c.now);
      var s0 := StepSound(cfg, home, e, c, id, Cold);
      ReturnedCold(cfg, home, e, q, c.now, id);
      s := Cold;
      if NeedsPageIn(cfg, e1, q, max) {
        PageInInv(cfg, home, e1, q, c.now, Max(Prefetch(max), 1000), false);
        s := ReachPageIn(cfg, home, e1, q, c.now, Max(Prefetch(max), 1000), false, id, k);
      }
      s := AfterClaim(cfg, home, e, c, id, s);
    } else {
      s := QuietStep(cfg, home, e, c, id, Cold);
    }
  }

  /** No call gets past a record that is too large. */
  lemma BlockedStep(cfg: Config, home: Homes, e: Engine, c: Call, id: Id, j: nat)
    requires Inv(cfg, home, e, []) && Has(cfg, home, e, [], id, Cold) && Allowed(cfg, home, e, c) && Blocked(e, id, j)
    ensures var e' := Step(cfg, e, c).engine;
            Inv(cfg, home, e', []) && Has(cfg, home, e', [], id, Cold) && Blocked(e', id, j)
  {
    hide Inv, Has, Step, Allowed, Returned, PageIn, NeedsPageIn, Small, Logged;
    var e' := Step(cfg, e, c).engine;
    if c.op.PollOp? {
      var q, max := c.op.queue, c.op.max;
      var e1 := Returned(cfg, e, q, c.now);
      var s0 := StepSound(cfg, home, e, c, id, Cold);
      ReturnedCold(cfg, home, e, q, c.now, id);
      BlockedMoves(e, e1, id, j);
      if NeedsPageIn(cfg, e1, q, max) {
        PageInInv(cfg, home, e1, q, c.now, Max(Prefetch(max), 1000), false);
        BlockedPageIn(cfg, home, e1, q, c.now, Max(Prefetch(max), 1000), false, id, j);
      }
      var s := AfterClaim(cfg, home, e, c, id, Cold);
      BlockedMoves(ReadyToClaim(cfg, e, q, c.now, max), e', id, j);
    } else {
      var s := QuietStep(cfg, home, e, c, id, Cold);
      BlockedMoves(e, e', id, j);
    }
  }

  // ---------------------------------------------------------------- whole runs

  /** Number of hungry polls among the calls from number `n` on. */
  ghost function Hungers(cfg: Config, calls: seq<Call>, n: nat): nat {
    if |calls| <= n then 0
    else
      var front, c := calls[..|calls| - 1], calls[|calls| - 1];
      Hungers(cfg, front, n) + if Hungry(cfg, Run(cfg, front).engine, c) then 1 else 0
  }

  /** A push of the message is record `k`, at or after the page-in position, and no later call finds it
      due beyond the horizon. */
  ghost predicate Ahead(e: Engine, calls: seq<Call>, n: nat, id: Id, k: nat) {
    && e.spill <= k < |e.disk| && e.disk[k].Push? && e.disk[k].id == id
    && forall i :: n <= i < |calls| ==> e.disk[k].visibleAt <= calls[i].now + Q.HORIZON
  }

  lemma AheadFront(e: Engine, calls: seq<Call>, n: nat, id: Id, k: nat)
    requires Ahead(e, calls, n, id, k) && n < |calls|
    ensures Ahead(e, calls[..|calls| - 1], n, id, k) && Offers(e.disk[k], id, calls[|calls| - 1].now)
  {
  }

  /** As long as the message is cold, each hungry poll brings the page-in position closer to its record. */
  lemma {:induction false} RunReach(cfg: Config, home: Homes, calls: seq<Call>, n: nat, id: Id,
                                    k: nat) returns (s: Status)
    requires AllowedRun(cfg, home, calls) && n <= |calls|
    requires var e := Run(cfg, calls[..n]).engine;
             && IsCold(cfg, home, e, id) && Ahead(e, calls, n, id, k)
             && forall j :: e.spill <= j <= k ==> Small(e.disk[j])
    ensures var e0, e := Run(cfg, calls[..n]).engine, Run(cfg, calls).engine;
            && Inv(cfg, home, e, []) && Has(cfg, home, e, [], id, s) && !s.Unseen?
            && (s.Cold? ==> e0.disk <= e.disk && e0.spill + Hungers(cfg, calls, n) <= e.spill <= k)
  {
    hide Inv, Has, Step, Allowed, Hungry, IsCold, Ahead, Small, Offers;
    var e0 := Run(cfg, calls[..n]).engine;
    if n == |calls| {
      assert calls[..n] == calls;
      s := RunLife(cfg, home, calls, id);
      StatusCold(cfg, home, e0, id, s);
      AheadStart(e0, calls, n, id, k);
    } else {
      var front, c := calls[..|calls| - 1], calls[|calls| - 1];
      assert front[..n] == calls[..n];
      AheadFront(e0, calls, n, id, k);
      s := RunReach(cfg, home, front, n, id, k);
      var e := Run(cfg, front).engine;
      if s.Cold? {
        AheadStart(e0, calls, n, id, k);
        assert forall j :: e.spill <= j <= k ==> e.disk[j] == e0.disk[j];
        s := ReachStep(cfg, home, e, c, id, k);
      } else {
        s := NeverColdAgain(cfg, home, e, c, id, s);
      }
    }
  }

  lemma AheadStart(e: Engine, calls: seq<Call>, n: nat, id: Id, k: nat)
    requires Ahead(e, calls, n, id, k)
    ensures e.spill <= k < |e.disk|
  {
  }

  lemma NeverColdAgain(cfg: Config, home: Homes, e: Engine, c: Call, id: Id, s: Status) returns (s': Status)
    requires Inv(cfg, home, e, []) && Has(cfg, home, e, [], id, s) && Allowed(cfg, home, e, c)
    requires !s.Cold? && !s.Unseen?
    ensures var e' := Step(cfg, e, c).engine;
            Inv(cfg, home, e', []) && Has(cfg, home, e', [], id, s') && !s'.Cold? && !s'.Unseen?
  {
    hide Inv, Has, Step, Allowed, FireAll, Project, Accepts, Offered;
    var s1 := StepSound(cfg, home, e, c, id, s);
    var mine := Project(Step(cfg, e, c).events, id);
    ColdOrNot(home(id), s1, mine, c.now);
    s' := FireAll(s1, mine);
  }

  lemma {:induction false} RunBlocked(cfg: Config, home: Homes, calls: seq<Call>, n: nat, id: Id, j: nat)
    requires AllowedRun(cfg, home, calls) && n <= |calls|
    requires var e := Run(cfg, calls[..n]).engine; IsCold(cfg, home, e, id) && Blocked(e, id, j)
    ensures var e := Run(cfg, calls).engine;
            Inv(cfg, home, e, []) && Has(cfg, home, e, [], id, Cold) && Blocked(e, id, j)
  {
    hide Inv, Has, Step, Allowed, IsCold, Blocked;
    if n == |calls| {
      assert calls[..n] == calls;
      var s := RunLife(cfg, home, calls, id);
      ColdIff(cfg, home, Run(cfg, calls).engine, id);
    } else {
      var front := calls[..|calls| - 1];
      assert front[..n] == calls[..n];
      RunBlocked(cfg, home, front, n, id, j);
      BlockedStep(cfg, home, Run(cfg, front).engine, calls[|calls| - 1], id, j);
    }
  }

  /** A spilled message comes back if and only if nothing blocks it. Take any moment of a run at which the
      message is cold and its first Push record `k` lies at or after the page-in position, and any later
      moment such that in between it is due within the horizon and more polls of whatever queues page in
      than there are records from the position to `k`. Then it has come into RAM by the later moment if
      and only if every unread record up to and including its own fits one read of 1 MiB. */
  lemma ReachedIff(cfg: Config, home: Homes, calls: seq<Call>, n: nat, id: Id, k: nat)
    requires AllowedRun(cfg, home, calls) && n <= |calls|
    requires var e := Run(cfg, calls[..n]).engine;
             && IsCold(cfg, home, e, id) && Ahead(e, calls, n, id, k) && !Logged(e.disk[..k], id)
             && k - e.spill < Hungers(cfg, calls, n)
    ensures var e := Run(cfg, calls[..n]).engine;
            !IsCold(cfg, home, Run(cfg, calls).engine, id) <==> forall j :: e.spill <= j <= k ==> Small(e.disk[j])
  {
    hide Inv, Has, Run, AllowedRun, IsCold, Small, Hungers, Logged;
    var e, e' := Run(cfg, calls[..n]).engine, Run(cfg, calls).engine;
    if forall j :: e.spill <= j <= k ==> Small(e.disk[j]) {
      var s := RunReach(cfg, home, calls, n, id, k);
      StatusCold(cfg, home, e', id, s);
    } else {
      var j :| e.spill <= j <= k && !Small(e.disk[j]);
      LoggedBefore(e.disk, j, k, id);
      RunBlocked(cfg, home, calls, n, id, j);
      ColdIff(cfg, home, e', id);
    }
  }

  lemma LoggedBefore(disk: seq<WalRecord>, j: nat, k: nat, id: Id)
    requires j <= k <= |disk|
    ensures Logged(disk[..j], id) ==> Logged(disk[..k], id)
  {
    if Logged(disk[..j], id) {
      var i :| 0 <= i < j && disk[..j][i].Push? && disk[..j][i].id == id;
      assert disk[..k][i] == disk[..j][i];
    }
  }

  /** So with a clock that does not step back, no delay above 300 s and no record above 1 MiB, every cold
      message comes back once more polls have paged in than there are unread records. */
  lemma ColdComesBack(cfg: Config, home: Homes, calls: seq<Call>, n: nat, id: Id)
    requires AllowedRun(cfg, home, calls) && MonotoneClock(calls) && n <= |calls|
    requires forall k :: 0 <= k < |calls| ==> ShortDelays(calls[k])
    requires var e := Run(cfg, calls[..n]).engine;
             && IsCold(cfg, home, e, id) && |e.disk| - e.spill <= Hungers(cfg, calls, n)
             && forall j :: e.spill <= j < |e.disk| ==> Small(e.disk[j])
    ensures !IsCold(cfg, home, Run(cfg, calls).engine, id)
  {
    hide Inv, Has, Run, AllowedRun, IsCold, Small, Hungers, ShortDelays, Ahead;
    var front, e := calls[..n], Run(cfg, calls[..n]).engine;
    PrefixAllowed(cfg, home, calls, n);
    assert forall k :: 0 <= k < |front| ==> front[k] == calls[k];
    var s := RunSafe(cfg, home, front, id);
    StatusCold(cfg, home, e, id, s);
    var k := DueAhead(e, calls, n, id);
    var s' := RunReach(cfg, home, calls, n, id, k);
    StatusCold(cfg, home, Run(cfg, calls).engine, id, s');
  }

  lemma {:induction false} PrefixAllowed(cfg: Config, home: Homes, calls: seq<Call>, n: nat)
    requires AllowedRun(cfg, home, calls) && n <= |calls|
    ensures AllowedRun(cfg, home, calls[..n])
  {
    hide Allowed, Run;
    if n == |calls| {
      assert calls[..n] == calls;
    } else {
      PrefixAllowed(cfg, home, calls[..|calls| - 1], n);
      assert calls[..|calls| - 1][..n] == calls[..n];
    }
  }

  lemma DueAhead(e: Engine, calls: seq<Call>, n: nat, id: Id) returns (k: nat)
    requires n <= |calls| && MonotoneClock(calls)
    requires OnDisk(e, id) && Recent(e, LastTime(calls[..n]) + Q.HORIZON)
    ensures Ahead(e, calls, n, id, k)
  {
    k :| e.spill <= k < |e.disk| && e.disk[k].Push? && e.disk[k].id == id;
    assert e.disk[k].visibleAt <= LastTime(calls[..n]) + Q.HORIZON;
    forall i | n <= i < |calls|
      ensures LastTime(calls[..n]) <= calls[i].now
    {
      if 0 < n {
        assert calls[..n][n - 1] == calls[n - 1] && calls[n - 1].now <= calls[i].now;
      }
    }
  }
}
