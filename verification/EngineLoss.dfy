/** A delay above the horizon can lose a message: for every configuration that has room for one message
    in RAM there is a run that does. */
module EngineLoss {
  import opened Basics
  import opened WalCodec
  import opened EngineSpec
  import opened Books
  import opened EngineSteps
  import opened Lifecycle
  import opened EngineLife
  import opened EngineRuns
  import opened EngineTheorems
  import opened EngineNoLoss
  import opened EngineKept
  import Q = Queues
  import Framing

  // ---------------------------------------------------------------- listing what the hash maps hold

  lemma {:induction false} Listing<T>(s: set<T>) returns (list: seq<T>)
    ensures NoDup(list) && Elems(list) == s
  {
    list := [];
    if s != {} {
      var x :| x in s;
      var rest := Listing(s - {x});
      list := rest + [x];
      assert forall i :: 0 <= i < |rest| ==> rest[i] in Elems(rest);
      assert forall y :: y in list <==> y in rest || y == x;
      assert forall y :: y in Elems(list) <==> y in Elems(rest) || y == x;
    }
  }

  lemma SurvivorListing(e: Engine) returns (survivors: seq<WalRecord>)
    ensures IsSurvivorList(e, survivors)
  {
    var all := set i, id | 0 <= i < NUM_SHARDS && id in e.shards[i].messages :: RecordOf(id, e.shards[i].messages[id]);
    survivors := Listing(all);
    forall r
      ensures r in survivors <==> SurvivesIn(e, r)
    {
      assert r in survivors <==> r in Elems(survivors);
      if SurvivesIn(e, r) {
        var i :| 0 <= i < NUM_SHARDS && r.id in e.shards[i].messages && r == RecordOf(r.id, e.shards[i].messages[r.id]);
        assert r in all;
      }
    }
  }

  // ---------------------------------------------------------------- a page-in past long delays

  /** Not due within the horizon, so no page-in brings it. */
  predicate FarOff(r: WalRecord, now: nat) {
    r.Push? && now + Q.HORIZON < r.visibleAt
  }

  lemma {:induction false} PageNothing(cfg: Config, e: Engine, records: seq<WalRecord>, now: nat)
    requires forall k :: 0 <= k < |records| ==> FarOff(records[k], now)
    ensures PageRecords(cfg, e, records, now) == e
    ensures forall target :: TargetAdded(cfg, e, records, now, target) == 0
  {
    if records != [] {
      PageNothing(cfg, e, records[..|records| - 1], now);
    }
  }

  /** Among records that are all far off but `r`, the target queue gets the message of `r`. */
  lemma {:induction false} TargetFound(cfg: Config, e: Engine, records: seq<WalRecord>, now: nat, r: WalRecord)
    requires r in records && PagedIn(cfg, e, r, now)
    requires forall k :: 0 <= k < |records| ==> records[k] == r || FarOff(records[k], now)
    ensures 0 < TargetAdded(cfg, e, records, now, r.queue)
  {
    hide PageRecord;
    var front, last := records[..|records| - 1], records[|records| - 1];
    if r in front {
      TargetFound(cfg, e, front, now, r);
    } else {
      PageNothing(cfg, e, front, now);
      PagePushShape(cfg, e, r, now);
    }
  }

  /** The disk from the page-in position on: records that are far off and then `r`, all small enough to
      be read. */
  ghost predicate EndsWith(e: Engine, r: WalRecord, now: nat) {
    && e.spill < |e.disk| && e.disk[|e.disk| - 1] == r
    && (forall k :: e.spill <= k < |e.disk| ==> Size(e.disk[k]) <= Framing.CHUNK)
    && (forall k :: e.spill <= k < |e.disk| - 1 ==> FarOff(e.disk[k], now))
  }

  lemma SomethingRead(e: Engine, limit: nat)
    requires e.spill < |e.disk| && Size(e.disk[e.spill]) <= Framing.CHUNK && 0 < limit
    ensures 0 < ChunkLen(e, limit)
  {
    SuffixStep(e.disk, e.spill);
  }

  lemma SkimStep(cfg: Config, e: Engine, now: nat, limit: nat, flushed: bool, r: WalRecord)
    requires EndsWith(e, r, now) && 0 < limit && PagedIn(cfg, e, r, now) && e.total < cfg.cap
    ensures var p := PageStep(cfg, e, r.queue, now, limit, flushed);
            if p.Continue? then p.engine == e.(spill := p.engine.spill) && e.spill < p.engine.spill < |e.disk|
            else p.engine.spill == |e.disk|
  {
    hide Grouped, PageRecords, TargetAdded, ChunkLen, FarOff;
    SomethingRead(e, limit);
    var n := ChunkLen(e, limit);
    var e1, chunk := e.(spill := e.spill + n), e.disk[e.spill..e.spill + n];
    var g := Grouped(cfg, chunk, NUM_SHARDS);
    ChunkPush(e, n, now, r);
    GroupedFar(cfg, e, n, now, r, g);
    PagedInDisk(cfg, e, e1, r, now);
    if e.spill + n < |e.disk| {
      PageNothing(cfg, e1, g, now);
    } else {
      TargetFound(cfg, e1, g, now, r);
    }
  }

  lemma PagedInDisk(cfg: Config, e: Engine, e': Engine, r: WalRecord, now: nat)
    requires e'.shards == e.shards
    ensures PagedIn(cfg, e', r, now) <==> PagedIn(cfg, e, r, now)
  {
  }

  lemma ChunkPush(e: Engine, n: nat, now: nat, r: WalRecord)
    requires EndsWith(e, r, now) && 0 < n && e.spill + n <= |e.disk| && r.Push?
    ensures HasPush(e.disk[e.spill..e.spill + n])
  {
    assert e.disk[e.spill..e.spill + n][0] == e.disk[e.spill];
  }

  lemma GroupedFar(cfg: Config, e: Engine, n: nat, now: nat, r: WalRecord, g: seq<WalRecord>)
    requires EndsWith(e, r, now) && 0 < n && e.spill + n <= |e.disk|
    requires g == Grouped(cfg, e.disk[e.spill..e.spill + n], NUM_SHARDS)
    ensures forall k :: 0 <= k < |g| ==> FarOff(g[k], now) || (e.spill + n == |e.disk| && g[k] == r)
    ensures e.spill + n == |e.disk| ==> r in g
  {
    hide Grouped, FarOff;
    var chunk := e.disk[e.spill..e.spill + n];
    GroupedIn(cfg, chunk, NUM_SHARDS);
    forall k | 0 <= k < |g|
      ensures FarOff(g[k], now) || (e.spill + n == |e.disk| && g[k] == r)
    {
      assert g[k] in g && g[k] in chunk;
      var j :| 0 <= j < |chunk| && chunk[j] == g[k];
      assert chunk[j] == e.disk[e.spill + j];
    }
    if e.spill + n == |e.disk| {
      assert chunk[n - 1] == r;
    }
  }

  /** The page-in stops at the end of the file, past everything that is far off. */
  lemma {:induction false} SkimsToEnd(cfg: Config, e: Engine, now: nat, limit: nat, flushed: bool, r: WalRecord)
    requires EndsWith(e, r, now) && 0 < limit && PagedIn(cfg, e, r, now) && e.total < cfg.cap
    ensures PageIn(cfg, e, r.queue, now, limit, flushed).spill == |e.disk|
    decreases |e.disk| - e.spill, if flushed then 0 else 1
  {
    hide FarOff, PagedIn, PageStep;
    SkimStep(cfg, e, now, limit, flushed, r);
    match PageStep(cfg, e, r.queue, now, limit, flushed)
    case Stop(_) =>
    case Continue(e', flushed') =>
      PagedInDisk(cfg, e, e', r, now);
      SkimsToEnd(cfg, e', now, limit, flushed', r);
  }

  // ---------------------------------------------------------------- the pushes

  /** Nothing was ever in RAM. */
  ghost predicate Quiet(e: Engine) {
    && e.total == 0 && e.spill == 0
    && forall i :: 0 <= i < NUM_SHARDS ==>
         var sh := e.shards[i];
         sh.queues == map[] && sh.messages == map[] && sh.acked == {} && sh.wheel.index == map[]
  }

  ghost predicate AllFar(disk: seq<WalRecord>, now: nat) {
    forall k :: 0 <= k < |disk| ==> FarOff(disk[k], now) && Size(disk[k]) <= Framing.CHUNK
  }

  /** The run so far: pushes at `now`, all only on disk. */
  ghost predicate Piled(cfg: Config, home: Homes, calls: seq<Call>, now: nat) {
    && AllowedRun(cfg, home, calls) && (forall k :: 0 <= k < |calls| ==> calls[k].now == now)
    && Quiet(Run(cfg, calls).engine) && AllFar(Run(cfg, calls).engine.disk, now)
  }

  lemma QuietPush(cfg: Config, e: Engine, queue: string, item: Item, now: nat)
    requires Quiet(e) && (Q.HORIZON < item.delay || Seen(cfg, e, queue, item.id))
    ensures var o := PushOne(cfg, e, queue, item, now);
            && Quiet(o.engine) && o.engine.disk == e.disk + [PushRecord(queue, item, now)]
            && Seen(cfg, o.engine, queue, item.id)
            && (forall q, id :: Seen(cfg, e, q, id) ==> Seen(cfg, o.engine, q, id))
            && (!Seen(cfg, e, queue, item.id) ==> o.events == [Stored(queue, item.id, Spilled)])
  {
  }

  lemma FarSnoc(disk: seq<WalRecord>, r: WalRecord, now: nat)
    requires AllFar(disk, now) && FarOff(r, now) && Size(r) <= Framing.CHUNK
    ensures AllFar(disk + [r], now)
  {
  }

  /** One more push of a message that is far off. */
  lemma PileOne(cfg: Config, home: Homes, calls: seq<Call>, now: nat, item: Item) returns (calls': seq<Call>)
    requires Piled(cfg, home, calls, now) && Q.HORIZON < item.delay && 27 + |item.payload| <= Framing.CHUNK
    ensures calls' == calls + [Call(now, PushOp(home(item.id), item))] && Piled(cfg, home, calls', now)
    ensures var e, e' := Run(cfg, calls).engine, Run(cfg, calls').engine;
            && |e'.disk| == |e.disk| + 1 && Seen(cfg, e', home(item.id), item.id)
            && (forall q, id :: Seen(cfg, e, q, id) ==> Seen(cfg, e', q, id))
    ensures RunEvents(cfg, calls) <= RunEvents(cfg, calls')
    ensures !Seen(cfg, Run(cfg, calls).engine, home(item.id), item.id) ==>
              RunEvents(cfg, calls') == RunEvents(cfg, calls) + [Stored(home(item.id), item.id, Spilled)]
  {
    hide Run, AllowedRun, RunEvents, PushOne, Quiet, AllFar, Seen;
    var q, c, e := home(item.id), Call(now, PushOp(home(item.id), item)), Run(cfg, calls).engine;
    calls' := calls + [c];
    QuietPush(cfg, e, q, item, now);
    OneMore(cfg, home, calls, c);
    FarSnoc(e.disk, PushRecord(q, item, now), now);
  }

  /** So the log can be made as long as one likes. */
  lemma {:induction false} PileMany(cfg: Config, home: Homes, calls: seq<Call>, now: nat, item: Item,
                                    n: nat) returns (calls': seq<Call>)
    requires Piled(cfg, home, calls, now) && Q.HORIZON < item.delay && 27 + |item.payload| <= Framing.CHUNK
    ensures Piled(cfg, home, calls', now) && |Run(cfg, calls').engine.disk| == |Run(cfg, calls).engine.disk| + n
    ensures forall q, id :: Seen(cfg, Run(cfg, calls).engine, q, id) ==> Seen(cfg, Run(cfg, calls').engine, q, id)
    ensures RunEvents(cfg, calls) <= RunEvents(cfg, calls')
  {
    hide Piled, Run, RunEvents, Seen;
    calls' := calls;
    if 0 < n {
      calls' := PileMany(cfg, home, calls, now, item, n - 1);
      calls' := PileOne(cfg, home, calls', now, item);
    }
  }

  lemma NewPile(cfg: Config, home: Homes, now: nat)
    ensures Piled(cfg, home, [], now) && RunEvents(cfg, []) == []
    ensures forall q, id :: !Seen(cfg, Run(cfg, []).engine, q, id)
  {
  }

  /** The pushes: the long delay, another far-off message, the first one again until the segment is
      full, and the other one again, this time due. */
  lemma Pushes(cfg: Config, home: Homes, now: nat, item: Item, other: Id) returns (calls: seq<Call>)
    requires Q.HORIZON < item.delay && 27 + |item.payload| <= Framing.CHUNK && other != item.id
    ensures AllowedRun(cfg, home, calls) && forall k :: 0 <= k < |calls| ==> calls[k].now == now
    ensures [Stored(home(item.id), item.id, Spilled)] <= RunEvents(cfg, calls)
    ensures var e := Run(cfg, calls).engine;
            && Quiet(e) && EndsWith(e, PushRecord(home(other), Item(other, [], 0), now), now)
            && cfg.maxSegment <= |e.disk| && Seen(cfg, e, home(item.id), item.id)
  {
    hide Run, AllowedRun, RunEvents, PushOne, Seen, FarOff, Quiet;
    NewPile(cfg, home, now);
    var one := PileOne(cfg, home, [], now, item);
    var two := PileOne(cfg, home, one, now, Item(other, [], Q.HORIZON + 1));
    var many := PileMany(cfg, home, two, now, item, cfg.maxSegment);
    var due, e := Item(other, [], 0), Run(cfg, many).engine;
    var c := Call(now, PushOp(home(other), due));
    QuietPush(cfg, e, home(other), due, now);
    OneMore(cfg, home, many, c);
    calls := many + [c];
    DueLast(e, Run(cfg, calls).engine, PushRecord(home(other), due, now), now);
  }

  lemma DueLast(e: Engine, e': Engine, r: WalRecord, now: nat)
    requires AllFar(e.disk, now) && e'.disk == e.disk + [r] && e'.spill == 0 && Size(r) <= Framing.CHUNK
    ensures EndsWith(e', r, now)
  {
  }

  // ---------------------------------------------------------------- the poll

  lemma QuietPoll(cfg: Config, e: Engine, now: nat, max: nat, r: WalRecord)
    requires Quiet(e) && EndsWith(e, r, now) && r.Push? && r.visibleAt <= now && 0 < cfg.cap
    ensures var e' := ReadyToClaim(cfg, e, r.queue, now, max);
            e'.disk == e.disk && e'.spill == |e.disk|
  {
    hide PageIn, FarOff;
    var i := ShardIdx(cfg, r.queue);
    var t := Expire(e.shards[i], now);
    assert t.limbo == [] && t.shard.queues == map[] && t.shard.messages == map[] && t.shard.acked == {};
    var e1 := WithShard(e, i, t.shard);
    assert Returned(cfg, e, r.queue, now) == e1;
    SkimsToEnd(cfg, e1, now, Max(Prefetch(max), 1000), false, r);
  }

  lemma DrainListing(cfg: Config, e: Engine, queue: string, now: nat) returns (secs: seq<nat>)
    ensures var qs := ShardFor(cfg, e, queue).queues; queue in qs ==> Q.IsDrainOrder(qs[queue], now, secs)
  {
    var qs := ShardFor(cfg, e, queue).queues;
    secs := [];
    if queue in qs {
      secs := Listing(Q.DueSecs(qs[queue], now));
    }
  }

  lemma NotOffered(e: Engine, r: WalRecord, now: nat, id: Id)
    requires EndsWith(e, r, now) && e.spill == 0 && r.id != id
    ensures !Offered(e.disk, id, now)
  {
    forall k | 0 <= k < |e.disk|
      ensures !Offers(e.disk[k], id, now)
    {
      assert k < |e.disk| - 1 ==> FarOff(e.disk[k], now);
    }
  }

  lemma StaysCold(cfg: Config, home: Homes, e: Engine, c: Call, id: Id)
    requires Inv(cfg, home, e, []) && IsCold(cfg, home, e, id) && Allowed(cfg, home, e, c) && c.op.PollOp?
    requires !Offered(e.disk, id, c.now)
    ensures IsCold(cfg, home, Step(cfg, e, c).engine, id)
  {
    hide Inv, Has, IsCold, Allowed, Step, Offered;
    ColdIff(cfg, home, e, id);
    var s := StepSound(cfg, home, e, c, id, Cold);
    var o := Step(cfg, e, c);
    PollStoresNothing(cfg, e, c);
    ProjectKeeps(o.events, id);
    Moves(home(id), s, Project(o.events, id), c.now);
    ColdIff(cfg, home, o.engine, id);
  }

  lemma QuietCold(cfg: Config, home: Homes, e: Engine, id: Id)
    requires Quiet(e) && Seen(cfg, e, home(id), id)
    ensures IsCold(cfg, home, e, id)
  {
  }

  /** A poll of the other queue brings the due message in and leaves the page-in position at the end. */
  lemma PollPast(cfg: Config, home: Homes, calls: seq<Call>, now: nat, visibility: nat, max: nat,
                 receipts: nat -> Receipt, r: WalRecord, id: Id) returns (c: Call)
    requires AllowedRun(cfg, home, calls) && 0 < cfg.cap && r.id != id && r.Push? && r.visibleAt <= now
    requires var e := Run(cfg, calls).engine; Quiet(e) && EndsWith(e, r, now) && Seen(cfg, e, home(id), id)
    ensures c.now == now && c.op.PollOp? && c.op.queue == r.queue && c.op.max == max && c.op.visibility == visibility
    ensures AllowedRun(cfg, home, calls + [c]) && RunEvents(cfg, calls) <= RunEvents(cfg, calls + [c])
    ensures var e, e' := Run(cfg, calls).engine, Run(cfg, calls + [c]).engine;
            e'.disk == e.disk && e'.spill == |e.disk| && IsCold(cfg, home, e', id)
  {
    hide Run, AllowedRun, RunEvents, ReadyToClaim, Quiet, EndsWith, IsCold, Seen, ClaimFrom, Offered, Inv, Has;
    var e := Run(cfg, calls).engine;
    var secs := DrainListing(cfg, ReadyToClaim(cfg, e, r.queue, now, max), r.queue, now);
    c := Call(now, PollOp(r.queue, visibility, max, secs, receipts));
    OneMore(cfg, home, calls, c);
    QuietPoll(cfg, e, now, max, r);
    QuietCold(cfg, home, e, id);
    QuietStart(e);
    NotOffered(e, r, now, id);
    var s := RunLife(cfg, home, calls, id);
    StaysCold(cfg, home, e, c, id);
  }

  lemma QuietStart(e: Engine)
    requires Quiet(e)
    ensures e.spill == 0
  {
  }

  lemma {:induction false} ManyBytes(log: seq<WalRecord>)
    ensures |log| <= Framing.BytesOf(Size, log)
  {
    if log != [] {
      ManyBytes(log[1..]);
    }
  }

  /** The bound on delays in `NoLoss` is needed. For every message delayed beyond the horizon that fits
      one read, every segment limit, every cap above zero, and every poll, there is a run at one
      moment that accepts the message, passes it over in a page-in and truncates it in a compaction,
      so that it is nowhere although no one acknowledged it. */
  lemma LongDelayLost(cfg: Config, home: Homes, item: Item, other: Id, now: nat, visibility: nat, max: nat,
                      receipts: nat -> Receipt) returns (calls: seq<Call>)
    requires 0 < cfg.cap && Q.HORIZON < item.delay && 27 + |item.payload| <= Framing.CHUNK && other != item.id
    ensures AllowedRun(cfg, home, calls) && MonotoneClock(calls)
    ensures var e, events := Run(cfg, calls).engine, RunEvents(cfg, calls);
            && events != [] && events[0] == Stored(home(item.id), item.id, Spilled)
            && !HasAck(events, item.id) && !Present(e, item.id)
  {
    hide Run, AllowedRun, RunEvents, Quiet, EndsWith, IsCold, Seen, HasAck, Present, ShouldCompact, IsSurvivorList;
    var pushes := Pushes(cfg, home, now, item, other);
    var r := PushRecord(home(other), Item(other, [], 0), now);
    var poll := PollPast(cfg, home, pushes, now, visibility, max, receipts, r, item.id);
    var polled := pushes + [poll];
    var e := Run(cfg, polled).engine;
    var survivors := SurvivorListing(e);
    var c := Call(now, AckBatchOp(home(item.id), [], survivors));
    OneMore(cfg, home, polled, c);
    calls := polled + [c];
    Snoc(polled, c);
    ManyBytes(e.disk);
    Full(cfg, e);
    assert Drops(cfg, home, e, c, item.id);
    FirstEvent(RunEvents(cfg, pushes), RunEvents(cfg, calls), Stored(home(item.id), item.id, Spilled));
    KeptIff(cfg, home, calls, 0);
  }

  lemma Full(cfg: Config, e: Engine)
    requires e.spill == |e.disk| && cfg.maxSegment <= Framing.BytesOf(Size, e.disk)
    ensures ShouldCompact(cfg, e)
  {
  }

  lemma FirstEvent(a: seq<Event>, b: seq<Event>, ev: Event)
    requires [ev] <= a <= b
    ensures b != [] && b[0] == ev
  {
    assert [ev][0] == ev;
  }
}
