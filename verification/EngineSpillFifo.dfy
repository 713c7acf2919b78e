/** Messages that were spilled to disk are first handed out in the order of their records. */
module EngineSpillFifo {
  import opened Basics
  import opened WalCodec
  import opened EngineSpec
  import opened ShardInv
  import opened Books
  import opened EngineSteps
  import opened Lifecycle
  import opened EngineLife
  import opened EngineRuns
  import opened EngineTheorems
  import opened EngineNoLoss
  import opened EngineKept
  import opened EngineFifo
  import opened EnginePunctual
  import opened EngineAnswers
  import ER = EngineReached
  import Q = Queues

  // ---------------------------------------------------------------- grouping by shard keeps the order

  /** The records of a shard are those of the read, in the order of the read: position `k` among them is
      position `at[k]` of the read. */
  lemma {:induction false} ShardOrder(cfg: Config, records: seq<WalRecord>, i: nat) returns (at: seq<nat>)
    ensures var mine := RecordsOfShard(cfg, records, i);
            && |at| == |mine|
            && (forall k :: 0 <= k < |at| ==> at[k] < |records| && mine[k] == records[at[k]])
            && (forall j, k :: 0 <= j < k < |at| ==> at[j] < at[k])
            && (forall n :: 0 <= n < |records| && ShardIdx(cfg, records[n].queue) == i ==> n in at)
  {
    at := [];
    if records != [] {
      var n := |records| - 1;
      at := ShardOrder(cfg, records[..n], i);
      if ShardIdx(cfg, records[n].queue) == i {
        at := at + [n];
      }
    }
  }

  predicate About(r: WalRecord, x: Id, y: Id) {
    r.Push? && (r.id == x || r.id == y)
  }

  /** The first Push record of either message. */
  function First(records: seq<WalRecord>, x: Id, y: Id): Option<WalRecord> {
    if records == [] then None
    else
      var last := records[|records| - 1];
      match First(records[..|records| - 1], x, y)
      case Some(r) => Some(r)
      case None => if About(last, x, y) then Some(last) else None
  }

  lemma {:induction false} FirstJoin(a: seq<WalRecord>, b: seq<WalRecord>, x: Id, y: Id)
    ensures First(a + b, x, y) == if First(a, x, y).Some? then First(a, x, y) else First(b, x, y)
  {
    if b == [] {
      EmptyRight(a);
    } else {
      FirstJoin(a, b[..|b| - 1], x, y);
      SnocSplit(a, b);
    }
  }

  lemma FirstOne(r: WalRecord, x: Id, y: Id)
    ensures First([r], x, y) == if About(r, x, y) then Some(r) else None
  {
    assert [r][..0] == [];
  }

  lemma {:induction false} NoFirst(records: seq<WalRecord>, x: Id, y: Id)
    requires forall k :: 0 <= k < |records| ==> !About(records[k], x, y)
    ensures First(records, x, y) == None
  {
    if records != [] {
      NoFirst(records[..|records| - 1], x, y);
    }
  }

  lemma {:induction false} FirstOfShard(cfg: Config, records: seq<WalRecord>, x: Id, y: Id, q: string, i: nat)
    requires forall k :: 0 <= k < |records| && About(records[k], x, y) ==> records[k].queue == q
    ensures First(RecordsOfShard(cfg, records, i), x, y) == if i == ShardIdx(cfg, q) then First(records, x, y) else None
  {
    if records != [] {
      var front, last := records[..|records| - 1], records[|records| - 1];
      FirstOfShard(cfg, front, x, y, q, i);
      FirstJoin(RecordsOfShard(cfg, front, i), [last], x, y);
      FirstOne(last, x, y);
      EmptyRight(RecordsOfShard(cfg, front, i));
    }
  }

  lemma {:induction false} FirstGrouped(cfg: Config, records: seq<WalRecord>, x: Id, y: Id, q: string, n: nat)
    requires forall k :: 0 <= k < |records| && About(records[k], x, y) ==> records[k].queue == q
    ensures First(Grouped(cfg, records, n), x, y) == if ShardIdx(cfg, q) < n then First(records, x, y) else None
  {
    if n > 0 {
      FirstGrouped(cfg, records, x, y, q, n - 1);
      FirstOfShard(cfg, records, x, y, q, n - 1);
      FirstJoin(Grouped(cfg, records, n - 1), RecordsOfShard(cfg, records, n - 1), x, y);
    }
  }

  // ---------------------------------------------------------------- the two phases

  /** Both messages are cold, and of their Push records on disk the first is record `i`, of `x`, visible
      from `due` on, ahead of the page-in position. */
  ghost predicate Both(cfg: Config, home: Homes, e: Engine, x: Id, y: Id, i: nat, due: nat) {
    && Has(cfg, home, e, [], x, Cold) && Has(cfg, home, e, [], y, Cold)
    && e.spill <= i < |e.disk| && e.disk[i].Push? && e.disk[i].id == x && e.disk[i].visibleAt == due
    && forall k :: 0 <= k < i ==> !About(e.disk[k], x, y)
  }

  /** The message has not been handed out: it is cold or waits in `q`. */
  ghost predicate NotYetOut(cfg: Config, home: Homes, e: Engine, y: Id, q: string) {
    Has(cfg, home, e, [], y, Cold) || Has(cfg, home, e, [], y, InQueue(q, 0))
  }

  /** `x` is ready and `y` does not stand before it. */
  ghost predicate InFront(cfg: Config, home: Homes, e: Engine, x: Id, y: Id, q: string) {
    Ahead(ReadyOf(cfg, e, q), x, y) && NotYetOut(cfg, home, e, y, q)
  }

  lemma AheadGrows(ready: seq<Id>, ready': seq<Id>, x: Id, y: Id)
    requires Ahead(ready, x, y) && ready <= ready'
    ensures Ahead(ready', x, y)
  {
    var p :| 0 <= p < |ready| && ready[p] == x && forall s :: 0 <= s <= p ==> ready[s] != y;
    assert ready'[p] == x;
  }

  lemma ColdNotReady(cfg: Config, home: Homes, e: Engine, id: Id, q: string)
    requires Inv(cfg, home, e, []) && Has(cfg, home, e, [], id, Cold)
    ensures id !in ReadyOf(cfg, e, q)
  {
    hide OnePlace, HotCount, Balanced, BookOf, Apart, InOwnShard;
    ShardHot(cfg, home, e, ShardIdx(cfg, q), id);
    NotReady(ShardFor(cfg, e, q), q, id);
  }

  // ---------------------------------------------------------------- paging in

  /** A due record of a cold message puts it at the end of the ready queue of its home. */
  lemma PagedToReady(cfg: Config, home: Homes, e: Engine, r: WalRecord, now: nat, y: Id)
    requires Inv(cfg, home, e, []) && r in e.disk && r.Push? && r.visibleAt <= now && r.id != y
    requires Has(cfg, home, e, [], r.id, Cold) && Has(cfg, home, e, [], y, Cold)
    ensures Ahead(ReadyOf(cfg, PageRecord(cfg, e, r, now), home(r.id)), r.id, y)
  {
    hide Inv, Has, BookOf, Enqueue;
    var i, e' := ShardIdx(cfg, r.queue), PageRecord(cfg, e, r, now);
    ColdPagesIn(cfg, home, e, r, now);
    ColdStatus(cfg, home, e, r, now, Cold);
    PagePushShape(cfg, e, r, now);
    EnqueueReady(Noted(e.shards[i], r.id), r.id, Msg(r.queue, r.payload, r.visibleAt, 0), now, r.queue);
    ColdNotReady(cfg, home, e, y, r.queue);
    var ready := ReadyOf(cfg, e, r.queue);
    assert ReadyOf(cfg, e', r.queue) == ready + [r.id];
    assert (ready + [r.id])[|ready|] == r.id;
  }

  lemma StillNotOut(cfg: Config, home: Homes, e: Engine, r: WalRecord, now: nat, y: Id, q: string)
    requires Inv(cfg, home, e, []) && r in e.disk && home(y) == q && NotYetOut(cfg, home, e, y, q)
    ensures NotYetOut(cfg, home, PageRecord(cfg, e, r, now), y, q)
  {
    hide Inv, Has, PageRecord;
    var s := if Has(cfg, home, e, [], y, Cold) then Cold else InQueue(q, 0);
    var s' := PageRecordLife(cfg, home, e, r, now, y, s);
  }

  /** Cold messages meet a record. */
  lemma ColdMeets(cfg: Config, home: Homes, e: Engine, r: WalRecord, now: nat, x: Id, y: Id)
    requires Inv(cfg, home, e, []) && r in e.disk && x != y && home(x) == home(y)
    requires Has(cfg, home, e, [], x, Cold) && Has(cfg, home, e, [], y, Cold)
    requires About(r, x, y) ==> r.id == x && r.visibleAt <= now
    ensures var e' := PageRecord(cfg, e, r, now);
            if About(r, x, y) then InFront(cfg, home, e', x, y, home(x))
            else Has(cfg, home, e', [], x, Cold) && Has(cfg, home, e', [], y, Cold)
  {
    hide Inv, Has, PageRecord, ReadyOf, Ahead, Offers;
    if About(r, x, y) {
      PagedToReady(cfg, home, e, r, now, y);
      StillNotOut(cfg, home, e, r, now, y, home(y));
    } else {
      NoOffer(r, x, y, now);
      var s := PageRecordLife(cfg, home, e, r, now, x, Cold);
      var t := PageRecordLife(cfg, home, e, r, now, y, Cold);
    }
  }

  lemma FrontMeets(cfg: Config, home: Homes, e: Engine, r: WalRecord, now: nat, x: Id, y: Id)
    requires Inv(cfg, home, e, []) && r in e.disk && home(x) == home(y) && InFront(cfg, home, e, x, y, home(x))
    ensures InFront(cfg, home, PageRecord(cfg, e, r, now), x, y, home(x))
  {
    hide Inv, Has, PageRecord, ReadyOf, Ahead;
    PageRecordReady(cfg, home, e, r, now, home(x));
    AheadGrows(ReadyOf(cfg, e, home(x)), ReadyOf(cfg, PageRecord(cfg, e, r, now), home(x)), x, y);
    StillNotOut(cfg, home, e, r, now, y, home(y));
  }

  /** Applying records in order: the first one about either message decides. */
  lemma {:induction false} PagesInOrder(cfg: Config, home: Homes, e: Engine, records: seq<WalRecord>, now: nat,
                                        x: Id, y: Id)
    requires Inv(cfg, home, e, []) && (forall k :: 0 <= k < |records| ==> records[k] in e.disk)
    requires x != y && home(x) == home(y) && Has(cfg, home, e, [], x, Cold) && Has(cfg, home, e, [], y, Cold)
    requires var f := First(records, x, y);
             f.Some? ==> f.value.id == x && About(f.value, x, y) && f.value.visibleAt <= now
    ensures var e' := PageRecords(cfg, e, records, now);
            if First(records, x, y).None? then Has(cfg, home, e', [], x, Cold) && Has(cfg, home, e', [], y, Cold)
            else InFront(cfg, home, e', x, y, home(x))
  {
    hide Inv, Has, PageRecord, InFront, About;
    if records != [] {
      var front, r := records[..|records| - 1], records[|records| - 1];
      PagesInOrder(cfg, home, e, front, now, x, y);
      PageRecordsInv(cfg, home, e, front, now);
      var mid := PageRecords(cfg, e, front, now);
      if First(front, x, y).Some? {
        FrontMeets(cfg, home, mid, r, now, x, y);
      } else {
        ColdMeets(cfg, home, mid, r, now, x, y);
      }
    }
  }

  lemma NoOffer(r: WalRecord, x: Id, y: Id, now: nat)
    requires !About(r, x, y)
    ensures !Offers(r, x, now) && !Offers(r, y, now)
  {
  }

  /** The records of a cold message name its home queue. */
  lemma ColdRecordsHome(cfg: Config, home: Homes, e: Engine, id: Id)
    requires Inv(cfg, home, e, []) && Has(cfg, home, e, [], id, Cold)
    ensures forall k :: 0 <= k < |e.disk| && e.disk[k].Push? && e.disk[k].id == id ==> e.disk[k].queue == home(id)
  {
    hide OnePlace, HotCount, SpotOk, Apart, InOwnShard;
    var b := BookOf(cfg, e, []);
    forall k | 0 <= k < |e.disk| && e.disk[k].Push? && e.disk[k].id == id
      ensures e.disk[k].queue == home(id)
    {
      assert RecordOk(cfg, home, b, b.disk[k]);
    }
  }

  /** The first record of a chunk about either message is record `i`, if the chunk holds it. */
  lemma FirstOfChunk(cfg: Config, home: Homes, e: Engine, n: nat, x: Id, y: Id, i: nat, due: nat)
    requires Both(cfg, home, e, x, y, i, due) && e.spill + n <= |e.disk|
    ensures First(e.disk[e.spill..e.spill + n], x, y) == if i < e.spill + n then Some(e.disk[i]) else None
  {
    hide Has;
    var chunk := e.disk[e.spill..e.spill + n];
    if i < e.spill + n {
      var m := i - e.spill;
      NoFirst(chunk[..m], x, y);
      PrefixStep(chunk, m);
      FirstJoin(chunk[..m], [chunk[m]], x, y);
      FirstOne(chunk[m], x, y);
      FirstJoin(chunk[..m + 1], chunk[m + 1..], x, y);
      assert chunk == chunk[..m + 1] + chunk[m + 1..];
    } else {
      NoFirst(chunk, x, y);
    }
  }

  lemma BothMoves(cfg: Config, home: Homes, e: Engine, e': Engine, x: Id, y: Id, i: nat, due: nat)
    requires Both(cfg, home, e, x, y, i, due) && e.disk <= e'.disk && e'.spill <= i
    requires Has(cfg, home, e', [], x, Cold) && Has(cfg, home, e', [], y, Cold)
    ensures Both(cfg, home, e', x, y, i, due)
  {
    hide Has;
    forall k | 0 <= k < i
      ensures !About(e'.disk[k], x, y)
    {
      assert e'.disk[k] == e.disk[k] && !About(e.disk[k], x, y);
    }
  }

  lemma OrderRound(cfg: Config, home: Homes, e: Engine, n: nat, now: nat, x: Id, y: Id, i: nat, due: nat)
    requires Inv(cfg, home, e, []) && e.spill + n <= |e.disk| && x != y && home(x) == home(y)
    requires Both(cfg, home, e, x, y, i, due) && due <= now
    ensures var e1 := e.(spill := e.spill + n);
            var e2 := PageRecords(cfg, e1, Grouped(cfg, e.disk[e.spill..e.spill + n], NUM_SHARDS), now);
            Both(cfg, home, e2, x, y, i, due) || InFront(cfg, home, e2, x, y, home(x))
  {
    hide Inv, Has, Grouped, PageRecords, InFront, First, RecordsOfShard;
    var e1, chunk := e.(spill := e.spill + n), e.disk[e.spill..e.spill + n];
    var g := Grouped(cfg, chunk, NUM_SHARDS);
    SpillInv(cfg, home, e, e.spill + n);
    DiskLife(cfg, home, e, e1, [], x, Cold);
    DiskLife(cfg, home, e, e1, [], y, Cold);
    GroupedFromDisk(cfg, e.disk, e.spill, e.spill + n, g);
    ColdRecordsHome(cfg, home, e, x);
    ColdRecordsHome(cfg, home, e, y);
    assert forall k :: 0 <= k < |chunk| ==> chunk[k] == e.disk[e.spill + k];
    FirstGrouped(cfg, chunk, x, y, home(x), NUM_SHARDS);
    FirstOfChunk(cfg, home, e, n, x, y, i, due);
    PagesInOrder(cfg, home, e1, g, now, x, y);
    if e.spill + n <= i {
      BothMoves(cfg, home, e, PageRecords(cfg, e1, g, now), x, y, i, due);
    }
  }

  lemma PushInChunk(disk: seq<WalRecord>, from: nat, n: nat, i: nat)
    requires from + n <= |disk| && from <= i < |disk| && disk[i].Push?
    ensures i < from + n ==> HasPush(disk[from..from + n])
  {
    if i < from + n {
      assert disk[from..from + n][i - from].Push?;
    }
  }

  lemma OrderPageStep(cfg: Config, home: Homes, e: Engine, target: string, now: nat, limit: nat, flushed: bool,
                      x: Id, y: Id, i: nat, due: nat)
    requires Inv(cfg, home, e, []) && x != y && home(x) == home(y)
    requires Both(cfg, home, e, x, y, i, due) && due <= now
    ensures var e' := PageStep(cfg, e, target, now, limit, flushed).engine;
            Both(cfg, home, e', x, y, i, due) || InFront(cfg, home, e', x, y, home(x))
  {
    hide Inv, Has, Grouped, PageRecords, TargetAdded, InFront, ChunkLen;
    var n := ChunkLen(e, limit);
    var e' := PageStep(cfg, e, target, now, limit, flushed).engine;
    if 0 < n && HasPush(e.disk[e.spill..e.spill + n]) {
      OrderRound(cfg, home, e, n, now, x, y, i, due);
    } else {
      DiskLife(cfg, home, e, e', [], x, Cold);
      DiskLife(cfg, home, e, e', [], y, Cold);
      PushInChunk(e.disk, e.spill, n, i);
      BothMoves(cfg, home, e, e', x, y, i, due);
    }
  }

  lemma {:induction false} OrderPageIn(cfg: Config, home: Homes, e: Engine, target: string, now: nat, limit: nat,
                                       flushed: bool, x: Id, y: Id, i: nat, due: nat)
    requires Inv(cfg, home, e, []) && x != y && home(x) == home(y)
    requires Both(cfg, home, e, x, y, i, due) && due <= now
    ensures var e' := PageIn(cfg, e, target, now, limit, flushed);
            Both(cfg, home, e', x, y, i, due) || InFront(cfg, home, e', x, y, home(x))
    decreases |e.disk| - e.spill, if flushed then 0 else 1
  {
    hide Inv, Has, PageStep, InFront, About;
    OrderPageStep(cfg, home, e, target, now, limit, flushed, x, y, i, due);
    PageStepInv(cfg, home, e, target, now, limit, flushed);
    match PageStep(cfg, e, target, now, limit, flushed)
    case Stop(_) =>
    case Continue(e', flushed') =>
      if Both(cfg, home, e', x, y, i, due) {
        OrderPageIn(cfg, home, e', target, now, limit, flushed', x, y, i, due);
      } else {
        FrontPageIn(cfg, home, e', target, now, limit, flushed', x, y);
      }
  }

  lemma FrontPageIn(cfg: Config, home: Homes, e: Engine, target: string, now: nat, limit: nat, flushed: bool,
                    x: Id, y: Id)
    requires Inv(cfg, home, e, []) && home(x) == home(y) && InFront(cfg, home, e, x, y, home(x))
    ensures InFront(cfg, home, PageIn(cfg, e, target, now, limit, flushed), x, y, home(x))
  {
    hide Inv, Has, PageIn, ReadyOf, Ahead, Offered;
    var e', q := PageIn(cfg, e, target, now, limit, flushed), home(x);
    PageInReady(cfg, home, e, target, now, limit, flushed, q);
    AheadGrows(ReadyOf(cfg, e, q), ReadyOf(cfg, e', q), x, y);
    var s := if Has(cfg, home, e, [], y, Cold) then Cold else InQueue(q, 0);
    var s' := PageInLife(cfg, home, e, target, now, limit, flushed, y, s);
  }

  // ---------------------------------------------------------------- a poll

  ghost predicate Phase(cfg: Config, home: Homes, e: Engine, x: Id, y: Id, i: nat, due: nat) {
    Both(cfg, home, e, x, y, i, due) || InFront(cfg, home, e, x, y, home(x))
  }

  lemma ReturnedPhase(cfg: Config, home: Homes, e: Engine, queue: string, now: nat, x: Id, y: Id, i: nat, due: nat)
    requires Inv(cfg, home, e, []) && home(x) == home(y) && Phase(cfg, home, e, x, y, i, due)
    ensures var e' := Returned(cfg, e, queue, now);
            && Inv(cfg, home, e', []) && Phase(cfg, home, e', x, y, i, due)
            && (Both(cfg, home, e, x, y, i, due) ==> Both(cfg, home, e', x, y, i, due) && e'.disk == e.disk)
            && (InFront(cfg, home, e, x, y, home(x)) ==> InFront(cfg, home, e', x, y, home(x)))
  {
    hide Inv, Has, Returned, ReadyOf, Ahead;
    var e', q := Returned(cfg, e, queue, now), home(x);
    ReturnedInv(cfg, home, e, queue, now);
    if Both(cfg, home, e, x, y, i, due) {
      ER.ReturnedCold(cfg, home, e, queue, now, x);
      ER.ReturnedCold(cfg, home, e, queue, now, y);
      BothMoves(cfg, home, e, e', x, y, i, due);
    }
    if InFront(cfg, home, e, x, y, q) {
      ReturnedReady(cfg, home, e, queue, now, q);
      AheadGrows(ReadyOf(cfg, e, q), ReadyOf(cfg, e', q), x, y);
      var s := if Has(cfg, home, e, [], y, Cold) then Cold else InQueue(q, 0);
      var s' := ReturnedLife(cfg, home, e, queue, now, y, s);
    }
  }

  lemma ReadyPhase(cfg: Config, home: Homes, e: Engine, c: Call, x: Id, y: Id, i: nat, due: nat)
    requires Inv(cfg, home, e, []) && x != y && home(x) == home(y) && c.op.PollOp? && Phase(cfg, home, e, x, y, i, due)
    requires due <= c.now
    ensures var e' := ReadyToClaim(cfg, e, c.op.queue, c.now, c.op.max);
            Inv(cfg, home, e', []) && Phase(cfg, home, e', x, y, i, due)
  {
    hide Inv, Has, Returned, PageIn, NeedsPageIn, InFront, About;
    var q, now, limit := c.op.queue, c.now, Max(Prefetch(c.op.max), 1000);
    var e1 := Returned(cfg, e, q, now);
    ReturnedPhase(cfg, home, e, q, now, x, y, i, due);
    if NeedsPageIn(cfg, e1, q, c.op.max) {
      PageInInv(cfg, home, e1, q, now, limit, false);
      if InFront(cfg, home, e1, x, y, home(x)) {
        FrontPageIn(cfg, home, e1, q, now, limit, false, x, y);
      } else {
        OrderPageIn(cfg, home, e1, q, now, limit, false, x, y, i, due);
      }
    }
  }

  /** `x` is handed out and `y` not before it. */
  ghost predicate OutFirst(events: seq<Event>, x: Id, y: Id) {
    exists m :: 0 <= m < |events| && events[m].Delivered? && events[m].id == x && NoneOut(events[..m], y)
  }

  ghost predicate NoneOut(events: seq<Event>, y: Id) {
    forall k :: 0 <= k < |events| && events[k].Delivered? ==> events[k].id != y
  }

  lemma NoneOfMine(events: seq<Event>, y: Id)
    requires Project(events, y) == []
    ensures NoneOut(events, y)
  {
    forall k | 0 <= k < |events| && events[k].Delivered?
      ensures events[k].id != y
    {
      if events[k].id == y {
        var p := Standing(events, y, k);
        assert false;
      }
    }
  }

  lemma NotEarly(h: string, s: Status, events: seq<Event>, now: nat)
    requires Accepts(h, s, events, now) && (s.Cold? || s.InQueue?) && NoHandOut(events)
    ensures events == [] && FireAll(s, events) == s
  {
    if events != [] {
      FirstLegal(h, s, events, now);
      assert false;
    }
  }

  lemma {:induction false} FirstLegal(h: string, s: Status, events: seq<Event>, now: nat)
    requires Accepts(h, s, events, now) && events != []
    ensures Legal(h, s, events[0], now)
  {
    if |events| > 1 {
      FirstLegal(h, s, events[..|events| - 1], now);
    } else {
      assert events[..0] == [];
    }
  }

  /** A claim that does not hand `y` out leaves it as it was. */
  lemma ClaimSpares(cfg: Config, home: Homes, e: Engine, l: Lease, max: nat, secs: seq<nat>,
                    receipts: nat -> Receipt, y: Id, s: Status)
    requires Inv(cfg, home, e, []) && Has(cfg, home, e, [], y, s) && l.now <= l.until && (s.Cold? || s.InQueue?)
    requires var qs := ShardFor(cfg, e, l.queue).queues; l.queue in qs ==> Q.IsDrainOrder(qs[l.queue], l.now, secs)
    requires var i := ShardIdx(cfg, l.queue);
             s == InQueue(l.queue, 0) ==> NoneOut(ClaimFrom(e.shards[i], l, max, secs, receipts).events, y)
    ensures var i := ShardIdx(cfg, l.queue);
            var r := ClaimFrom(e.shards[i], l, max, secs, receipts);
            s == Cold || s.count == 0 ==> Has(cfg, home, WithShard(e, i, r.shard), [], y, s) && NoneOut(r.events, y)
  {
    hide Balanced, OnePlace, HotCount, BookOf, ClaimFrom, Has, Q.IsDrainOrder, InOwnShard, Apart;
    var i := ShardIdx(cfg, l.queue);
    var r := ClaimFrom(e.shards[i], l, max, secs, receipts);
    ClaimLife(cfg, home, e, l, max, secs, receipts, y, s);
    ClaimAnswers(e.shards[i], l, max, secs, receipts);
    var mine := Project(r.events, y);
    if s == Cold || s.count == 0 {
      if mine != [] {
        FirstLegal(home(y), s, mine, l.now);
        FirstMine(r.events, l.queue, y);
        assert false;
      }
      NoneOfMine(r.events, y);
      NoEvents(home(y), s, l.now);
    }
  }

  lemma FirstMine(events: seq<Event>, queue: string, y: Id)
    requires forall k :: 0 <= k < |events| ==> events[k].Delivered? && events[k].queue == queue
    requires Project(events, y) != []
    ensures Project(events, y)[0].Delivered? && Project(events, y)[0].queue == queue && !NoneOut(events, y)
  {
    MineIn(events, y);
    assert Project(events, y)[0] in events;
    var k :| 0 <= k < |events| && events[k] == Project(events, y)[0];
  }

  lemma {:induction false} MineIn(events: seq<Event>, y: Id)
    ensures forall k :: 0 <= k < |Project(events, y)| ==> Project(events, y)[k] in events
  {
    if events != [] {
      MineIn(events[..|events| - 1], y);
    }
  }

  /** Taking the front of a ready queue in which `x` stands before `y`. */
  lemma TakesFront(ready: seq<Id>, n: nat, events: seq<Event>, x: Id, y: Id)
    requires Ahead(ready, x, y) && n <= |ready| && |events| == n
    requires forall k :: 0 <= k < n ==> events[k].Delivered? && events[k].id == ready[k]
    ensures OutFirst(events, x, y) || (NoneOut(events, y) && Ahead(ready[n..], x, y))
  {
    var p :| 0 <= p < |ready| && ready[p] == x && forall s :: 0 <= s <= p ==> ready[s] != y;
    if p < n {
      assert events[p].id == x && NoneOut(events[..p], y);
    } else {
      assert ready[n..][p - n] == x;
    }
  }

  lemma FrontClaim(cfg: Config, home: Homes, e: Engine, l: Lease, max: nat, secs: seq<nat>,
                   receipts: nat -> Receipt, x: Id, y: Id)
    requires Inv(cfg, home, e, []) && l.now <= l.until && InFront(cfg, home, e, x, y, home(x))
    requires var qs := ShardFor(cfg, e, l.queue).queues; l.queue in qs ==> Q.IsDrainOrder(qs[l.queue], l.now, secs)
    ensures var i := ShardIdx(cfg, l.queue);
            var r := ClaimFrom(e.shards[i], l, max, secs, receipts);
            || OutFirst(r.events, x, y)
            || (NoneOut(r.events, y) && InFront(cfg, home, WithShard(e, i, r.shard), x, y, home(x)))
  {
    hide Balanced, OnePlace, HotCount, BookOf, ClaimFrom, Has, Q.IsDrainOrder, Q.Drain, InOwnShard, Apart, Ahead,
      OutFirst, NoneOut;
    var i, q := ShardIdx(cfg, l.queue), home(x);
    var sh, r := e.shards[i], ClaimFrom(e.shards[i], l, max, secs, receipts);
    var s := if Has(cfg, home, e, [], y, Cold) then Cold else InQueue(q, 0);
    if q == l.queue {
      ClaimAnswers(sh, l, max, secs, receipts);
      var ready := if q in sh.queues then Q.Drain(sh.queues[q], l.now, secs).ready else [];
      AheadGrows(ReadyOf(cfg, e, q), ready, x, y);
      TakesFront(ready, Min(max, |ready|), r.events, x, y);
      if !OutFirst(r.events, x, y) {
        ClaimSpares(cfg, home, e, l, max, secs, receipts, y, s);
      }
    } else {
      ClaimSpares(cfg, home, e, l, max, secs, receipts, y, s);
      ClaimOther(sh, l, max, secs, receipts, q);
      SameReady(cfg, e, WithShard(e, i, r.shard), i, q);
    }
  }

  lemma BothClaim(cfg: Config, home: Homes, e: Engine, l: Lease, max: nat, secs: seq<nat>,
                  receipts: nat -> Receipt, x: Id, y: Id, k: nat, due: nat)
    requires Inv(cfg, home, e, []) && l.now <= l.until && Both(cfg, home, e, x, y, k, due)
    requires var qs := ShardFor(cfg, e, l.queue).queues; l.queue in qs ==> Q.IsDrainOrder(qs[l.queue], l.now, secs)
    ensures var i := ShardIdx(cfg, l.queue);
            var r := ClaimFrom(e.shards[i], l, max, secs, receipts);
            NoneOut(r.events, y) && Both(cfg, home, WithShard(e, i, r.shard), x, y, k, due)
  {
    hide Inv, ClaimFrom, Has, Q.IsDrainOrder, About;
    var i := ShardIdx(cfg, l.queue);
    ClaimSpares(cfg, home, e, l, max, secs, receipts, x, Cold);
    ClaimSpares(cfg, home, e, l, max, secs, receipts, y, Cold);
    BothMoves(cfg, home, e, WithShard(e, i, ClaimFrom(e.shards[i], l, max, secs, receipts).shard), x, y, k, due);
  }

  /** The call hands out `x` first, or does not hand out `y` and leaves the two in this order. */
  ghost predicate Settles(cfg: Config, home: Homes, o: Outcome, x: Id, y: Id, i: nat, due: nat) {
    OutFirst(o.events, x, y) || (NoneOut(o.events, y) && Phase(cfg, home, o.engine, x, y, i, due))
  }

  lemma OrderPoll(cfg: Config, home: Homes, e: Engine, c: Call, x: Id, y: Id, i: nat, due: nat)
    requires Inv(cfg, home, e, []) && x != y && home(x) == home(y) && Phase(cfg, home, e, x, y, i, due)
    requires due <= c.now
    requires c.op.PollOp? && Allowed(cfg, home, e, c)
    ensures Settles(cfg, home, Step(cfg, e, c), x, y, i, due)
  {
    hide Inv, Has, ReadyToClaim, ClaimFrom, Both, InFront, Q.IsDrainOrder, OutFirst, NoneOut;
    var q, now := c.op.queue, c.now;
    var e1, l := ReadyToClaim(cfg, e, q, now, c.op.max), Lease(q, now, now + Timeout(cfg, c.op.visibility));
    ReadyPhase(cfg, home, e, c, x, y, i, due);
    if InFront(cfg, home, e1, x, y, home(x)) {
      FrontClaim(cfg, home, e1, l, c.op.max, c.op.secs, c.op.receipts, x, y);
    } else {
      BothClaim(cfg, home, e1, l, c.op.max, c.op.secs, c.op.receipts, x, y, i, due);
    }
  }

  // ---------------------------------------------------------------- other calls

  lemma AdmitReady(cfg: Config, e: Engine, queue: string, item: Item, now: nat, q: string)
    ensures var o := Admit(cfg, Log(e, PushRecord(queue, item, now)), queue, item, now);
            ReadyOf(cfg, e, q) <= ReadyOf(cfg, o.engine, q)
  {
    hide Enqueue, ReadyIn, HasRoom, Admit;
    AdmitShape(cfg, e, queue, item, now);
    var i, msg := ShardIdx(cfg, queue), MsgOf(queue, item, now);
    var sh := Noted(e.shards[i], item.id);
    var e' := Admit(cfg, Log(e, PushRecord(queue, item, now)), queue, item, now).engine;
    AckedReady(e.shards[i], sh, q);
    if HasRoom(cfg, e, queue, item.id, item.delay) {
      EnqueueReady(sh, item.id, msg, now, q);
      ReadyWith(cfg, e, i, Enqueue(sh, item.id, msg, now), q);
      SameShards(cfg, WithShard(e, i, Enqueue(sh, item.id, msg, now)), e', q);
    } else {
      SameReady(cfg, e, e', i, q);
    }
  }

  lemma {:induction false} BatchReady(cfg: Config, e: Engine, queue: string, items: seq<Item>, now: nat, q: string)
    ensures ReadyOf(cfg, e, q) <= ReadyOf(cfg, BatchItems(cfg, e, queue, items, now).engine, q)
  {
    hide Admit, ReadyOf, Seen;
    if items != [] {
      var front := items[..|items| - 1];
      BatchReady(cfg, e, queue, front, now, q);
      AdmitReady(cfg, BatchItems(cfg, e, queue, front, now).engine, queue, items[|items| - 1], now, q);
    }
  }

  lemma {:induction false} AcksReady(cfg: Config, home: Homes, e: Engine, queue: string, acks: seq<Receipted>,
                                     q: string)
    requires Inv(cfg, home, e, [])
    ensures var e' := AckItems(cfg, e, queue, acks).engine;
            Inv(cfg, home, e', []) && ReadyOf(cfg, e', q) == ReadyOf(cfg, e, q)
  {
    hide Inv, Settle, CanAck, ReadyOf;
    if acks != [] {
      var front, a := acks[..|acks| - 1], acks[|acks| - 1];
      AcksReady(cfg, home, e, queue, front, q);
      var mid := AckItems(cfg, e, queue, front).engine;
      if CanAck(cfg, mid, queue, a) {
        SettleInv(cfg, home, mid, queue, a);
        SettleReady(cfg, home, mid, queue, a, q);
      }
    }
  }

  lemma SameShards(cfg: Config, e: Engine, e': Engine, q: string)
    requires e'.shards == e.shards
    ensures ReadyOf(cfg, e', q) == ReadyOf(cfg, e, q)
  {
  }

  /** Only polls take messages off a ready queue. */
  lemma ReadyKept(cfg: Config, home: Homes, e: Engine, c: Call, q: string)
    requires Inv(cfg, home, e, []) && !c.op.PollOp?
    ensures ReadyOf(cfg, e, q) <= ReadyOf(cfg, Step(cfg, e, c).engine, q)
  {
    hide Inv, Admit, Settle, CanAck, Seen, BatchItems, AckItems, ReadyOf, ShouldCompact;
    var e' := Step(cfg, e, c).engine;
    match c.op
    case PushOp(queue, item) =>
      AdmitReady(cfg, e, queue, item, c.now, q);
      SameShards(cfg, e, Log(e, PushRecord(queue, item, c.now)), q);
    case PushBatchOp(queue, items, _) =>
      BatchReady(cfg, e, queue, items, c.now, q);
      SameShards(cfg, BatchItems(cfg, e, queue, items, c.now).engine, e', q);
    case AckOp(queue, a) =>
      if CanAck(cfg, e, queue, a) {
        SettleReady(cfg, home, e, queue, a, q);
      }
    case AckBatchOp(queue, acks, _) =>
      AcksReady(cfg, home, e, queue, acks, q);
      SameShards(cfg, AckItems(cfg, e, queue, acks).engine, e', q);
  }

  lemma OrderQuiet(cfg: Config, home: Homes, e: Engine, c: Call, x: Id, y: Id, i: nat, due: nat)
    requires Inv(cfg, home, e, []) && home(x) == home(y) && Phase(cfg, home, e, x, y, i, due)
    requires !c.op.PollOp? && Allowed(cfg, home, e, c)
    ensures Settles(cfg, home, Step(cfg, e, c), x, y, i, due)
  {
    hide Inv, Has, Step, Allowed, Ahead, ReadyOf, Project, FireAll, Accepts, About, Offered;
    var o, q := Step(cfg, e, c), home(x);
    NoneDelivered(cfg, e, c);
    if Both(cfg, home, e, x, y, i, due) {
      var s := ER.QuietStep(cfg, home, e, c, x, Cold);
      var t := ER.QuietStep(cfg, home, e, c, y, Cold);
      BothMoves(cfg, home, e, o.engine, x, y, i, due);
    } else {
      ReadyKept(cfg, home, e, c, q);
      AheadGrows(ReadyOf(cfg, e, q), ReadyOf(cfg, o.engine, q), x, y);
      var s := if Has(cfg, home, e, [], y, Cold) then Cold else InQueue(q, 0);
      var s1 := StepSound(cfg, home, e, c, y, s);
      NoHandOutOf(o.events, y);
      NotEarly(home(y), s, Project(o.events, y), c.now);
    }
  }

  lemma NoHandOutOf(events: seq<Event>, y: Id)
    requires NoHandOut(events)
    ensures NoHandOut(Project(events, y))
  {
    MineIn(events, y);
  }

  // ---------------------------------------------------------------- whole runs

  lemma OrderStep(cfg: Config, home: Homes, e: Engine, c: Call, x: Id, y: Id, i: nat, due: nat)
    requires Inv(cfg, home, e, []) && x != y && home(x) == home(y) && Phase(cfg, home, e, x, y, i, due)
    requires due <= c.now
    requires Allowed(cfg, home, e, c)
    ensures Settles(cfg, home, Step(cfg, e, c), x, y, i, due)
  {
    hide Inv, Both, InFront, Step, Allowed, Settles;
    if c.op.PollOp? {
      OrderPoll(cfg, home, e, c, x, y, i, due);
    } else {
      OrderQuiet(cfg, home, e, c, x, y, i, due);
    }
  }

  lemma OutThen(a: seq<Event>, b: seq<Event>, x: Id, y: Id)
    ensures OutFirst(a, x, y) || (NoneOut(a, y) && OutFirst(b, x, y)) ==> OutFirst(a + b, x, y)
    ensures NoneOut(a, y) && NoneOut(b, y) ==> NoneOut(a + b, y)
  {
    if OutFirst(a, x, y) {
      var m :| 0 <= m < |a| && a[m].Delivered? && a[m].id == x && NoneOut(a[..m], y);
      assert (a + b)[m] == a[m] && (a + b)[..m] == a[..m];
    } else if NoneOut(a, y) && OutFirst(b, x, y) {
      var m :| 0 <= m < |b| && b[m].Delivered? && b[m].id == x && NoneOut(b[..m], y);
      assert (a + b)[|a| + m] == b[m] && (a + b)[..|a| + m] == a + b[..m];
    }
  }

  /** A cold message has not been handed out. */
  lemma ColdNeverOut(cfg: Config, home: Homes, calls: seq<Call>, y: Id)
    requires AllowedRun(cfg, home, calls) && Has(cfg, home, Run(cfg, calls).engine, [], y, Cold)
    ensures NoneOut(RunEvents(cfg, calls), y)
  {
    hide AllowedRun, Run, Has, Orderly, Numbered, Limited;
    var events := RunEvents(cfg, calls);
    var s := RunLives(cfg, home, calls, y, false);
    ColdOnly(cfg, home, Run(cfg, calls).engine, y, s);
    var hist := Project(events, y);
    ColdShallow(hist, -1);
    forall k | 0 <= k < |events| && events[k].Delivered?
      ensures events[k].id != y
    {
      if events[k].id == y {
        var p := Standing(events, y, k);
        assert false;
      }
    }
  }

  lemma {:induction false} RunOrder(cfg: Config, home: Homes, calls: seq<Call>, n: nat, x: Id, y: Id, i: nat, due: nat)
    requires AllowedRun(cfg, home, calls) && n <= |calls| && x != y && home(x) == home(y)
    requires Both(cfg, home, Run(cfg, calls[..n]).engine, x, y, i, due)
    requires forall k :: n <= k < |calls| ==> due <= calls[k].now
    ensures var e, events := Run(cfg, calls).engine, RunEvents(cfg, calls);
            || OutFirst(events, x, y)
            || (NoneOut(events, y) && Phase(cfg, home, e, x, y, i, due))
  {
    hide Inv, Has, Step, Allowed, Phase, OutFirst, NoneOut, About;
    if n == |calls| {
      assert calls[..n] == calls;
      ColdNeverOut(cfg, home, calls, y);
      BothIsPhase(cfg, home, Run(cfg, calls).engine, x, y, i, due);
    } else {
      var front, c := calls[..|calls| - 1], calls[|calls| - 1];
      assert front[..n] == calls[..n];
      RunOrder(cfg, home, front, n, x, y, i, due);
      var before := Run(cfg, front);
      var o := Step(cfg, before.engine, c);
      var events := EventsOf(before.log);
      Snoc(before.log, Entry(c.now, o.events));
      assert RunEvents(cfg, calls) == events + o.events;
      OutThen(events, o.events, x, y);
      if !OutFirst(events, x, y) {
        var s := RunLife(cfg, home, front, x);
        OrderStep(cfg, home, before.engine, c, x, y, i, due);
      }
    }
  }

  lemma BothIsPhase(cfg: Config, home: Homes, e: Engine, x: Id, y: Id, i: nat, due: nat)
    requires Both(cfg, home, e, x, y, i, due)
    ensures Phase(cfg, home, e, x, y, i, due)
  {
  }

  /** Of two spilled messages of one queue, the one whose record comes first is first handed out first.
      Take any moment of a run at which both are cold and of all their Push records the first is one of
      `x`, ahead of the page-in position and due at every later call. Then `y` is handed out only after
      `x` has been, whatever page-ins, polls, expiries, acks and pushes happen. */
  lemma SpilledFirstInFirstOut(cfg: Config, home: Homes, calls: seq<Call>, n: nat, x: Id, y: Id, i: nat, k: nat)
    requires AllowedRun(cfg, home, calls) && n <= |calls| && x != y && home(x) == home(y)
    requires var e := Run(cfg, calls[..n]).engine;
             && IsCold(cfg, home, e, x) && IsCold(cfg, home, e, y)
             && e.spill <= i < |e.disk| && e.disk[i].Push? && e.disk[i].id == x
             && (forall j :: 0 <= j < i ==> !About(e.disk[j], x, y))
             && (forall m :: n <= m < |calls| ==> e.disk[i].visibleAt <= calls[m].now)
    requires k < |RunEvents(cfg, calls)| && RunEvents(cfg, calls)[k].Delivered? && RunEvents(cfg, calls)[k].id == y
    ensures HandedOut(RunEvents(cfg, calls), k, x)
  {
    hide AllowedRun, Run, Inv, Has, IsCold, About, Phase, RunEvents;
    var e := Run(cfg, calls[..n]).engine;
    ER.PrefixAllowed(cfg, home, calls, n);
    var s := RunLife(cfg, home, calls[..n], x);
    ColdIff(cfg, home, e, x);
    ColdIff(cfg, home, e, y);
    RunOrder(cfg, home, calls, n, x, y, i, e.disk[i].visibleAt);
    var events := RunEvents(cfg, calls);
    var m :| 0 <= m < |events| && events[m].Delivered? && events[m].id == x && NoneOut(events[..m], y);
    NotOutBefore(events, m, y);
  }

  lemma NotOutBefore(events: seq<Event>, m: nat, y: Id)
    requires m <= |events| && NoneOut(events[..m], y)
    ensures forall k :: 0 <= k < m && events[k].Delivered? ==> events[k].id != y
  {
    assert forall k :: 0 <= k < m ==> events[k] == events[..m][k];
  }
}
