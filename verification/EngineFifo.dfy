/** Messages that go straight into the ready queue are first handed out in the order of their pushes. */
module EngineFifo {
  import opened Basics
  import opened WalCodec
  import opened EngineSpec
  import opened ShardInv
  import opened Books
  import opened EngineSteps
  import opened Lifecycle
  import opened EngineRuns
  import opened EngineTheorems
  import Q = Queues
  import W = Wheels

  // ---------------------------------------------------------------- the line of pushes not yet handed out

  /** The messages pushed straight to ready in queue `q` and not handed out since, oldest first. */
  function Line(events: seq<Event>, q: string): seq<Id> {
    if events == [] then [] else Moved(Line(events[..|events| - 1], q), events[|events| - 1], q)
  }

  function Moved(line: seq<Id>, ev: Event, q: string): seq<Id> {
    if ev.Stored? && ev.queue == q && ev.place.Ready? then line + [ev.id]
    else if ev.Delivered? && line != [] && line[0] == ev.id then line[1..]
    else line
  }

  /** Nobody jumps the line: a message of the line is handed out only when it is the first. */
  ghost predicate Fair(events: seq<Event>, q: string) {
    events == [] ||
    (var front, last := events[..|events| - 1], events[|events| - 1];
     && Fair(front, q)
     && (last.Delivered? && last.id in Line(front, q) ==> Line(front, q)[0] == last.id))
  }

  lemma FairSnoc(events: seq<Event>, ev: Event, q: string)
    ensures Fair(events + [ev], q) <==>
              Fair(events, q) && (ev.Delivered? && ev.id in Line(events, q) ==> Line(events, q)[0] == ev.id)
    ensures Line(events + [ev], q) == Moved(Line(events, q), ev, q)
  {
    Snoc(events, ev);
  }

  /** `line` is what remains of `ready` when some entries are skipped. */
  predicate Sub(line: seq<Id>, ready: seq<Id>) {
    if line == [] then true
    else if ready == [] then false
    else if line[0] == ready[0] then Sub(line[1..], ready[1..])
    else Sub(line, ready[1..])
  }

  lemma {:induction false} SubMember(line: seq<Id>, ready: seq<Id>, id: Id)
    requires Sub(line, ready) && id in line
    ensures id in ready
  {
    if line[0] == ready[0] {
      if id != line[0] {
        SubMember(line[1..], ready[1..], id);
      }
    } else {
      SubMember(line, ready[1..], id);
    }
  }

  lemma {:induction false} SubExtends(line: seq<Id>, ready: seq<Id>, more: seq<Id>)
    requires Sub(line, ready)
    ensures Sub(line, ready + more)
  {
    if line != [] {
      assert (ready + more)[1..] == ready[1..] + more;
      if line[0] == ready[0] {
        SubExtends(line[1..], ready[1..], more);
      } else {
        SubExtends(line, ready[1..], more);
      }
    }
  }

  lemma {:induction false} SubSnoc(line: seq<Id>, ready: seq<Id>, id: Id)
    requires Sub(line, ready) && id !in ready
    ensures Sub(line + [id], ready + [id])
  {
    if ready == [] {
      assert line + [id] == [id] && ready + [id] == [id];
    } else {
      assert (ready + [id])[1..] == ready[1..] + [id];
      if line != [] && line[0] == ready[0] {
        assert (line + [id])[1..] == line[1..] + [id];
        SubSnoc(line[1..], ready[1..], id);
      } else {
        SubSnoc(line, ready[1..], id);
      }
    }
  }

  /** The first ready entry is the first of the line or not in the line at all. */
  lemma SubHead(line: seq<Id>, ready: seq<Id>)
    requires Sub(line, ready) && ready != [] && NoDup(ready)
    ensures ready[0] in line ==> line[0] == ready[0]
    ensures Sub(if line != [] && line[0] == ready[0] then line[1..] else line, ready[1..])
  {
    assert forall k :: 0 <= k < |ready[1..]| ==> ready[1..][k] == ready[k + 1];
    if line != [] && line[0] != ready[0] && ready[0] in line {
      SubMember(line, ready[1..], ready[0]);
      assert false;
    }
  }

  // ---------------------------------------------------------------- the ready queue only grows at its end

  function ReadyIn(sh: Shard, q: string): seq<Id> {
    if q in sh.queues then sh.queues[q].ready else []
  }

  function ReadyOf(cfg: Config, e: Engine, q: string): seq<Id> {
    ReadyIn(ShardFor(cfg, e, q), q)
  }

  lemma ReadyWith(cfg: Config, e: Engine, i: nat, sh: Shard, q: string)
    requires i < NUM_SHARDS && ReadyIn(e.shards[i], q) <= ReadyIn(sh, q)
    ensures ReadyOf(cfg, e, q) <= ReadyOf(cfg, WithShard(e, i, sh), q)
  {
  }

  lemma EnqueueReady(sh: Shard, id: Id, msg: Msg, now: nat, q: string)
    ensures ReadyIn(sh, q) <= ReadyIn(Enqueue(sh, id, msg, now), q)
    ensures msg.visibleAt <= now ==> ReadyIn(Enqueue(sh, id, msg, now), msg.queue) == ReadyIn(sh, msg.queue) + [id]
  {
  }

  lemma NotReady(sh: Shard, q: string, id: Id)
    requires OnePlace(sh, {}) && id !in sh.messages
    ensures id !in ReadyIn(sh, q)
  {
    if q in sh.queues {
      assert Exact(sh, {}, q);
      assert Q.Holds(sh.queues[q], id) <==> Waiting(sh, {}, q, id);
    }
  }

  lemma TombstoneReady(sh: Shard, name: string, id: Id, q: string)
    requires OnePlace(sh, {}) && id !in sh.messages
    ensures ReadyIn(Tombstone(sh, name, id), q) == ReadyIn(sh, q)
  {
    hide OnePlace;
    NotReady(sh, name, id);
  }

  lemma RouteReady(cfg: Config, home: Homes, e: Engine, limbo: seq<Limbo>, now: nat, q: string)
    requires Inv(cfg, home, e, limbo) && limbo != []
    ensures ReadyOf(cfg, e, q) <= ReadyOf(cfg, Route(cfg, e, limbo[0], now), q)
  {
    hide Balanced, OnePlace, HotCount, BookOf, Enqueue, Tombstone, ReadyIn;
    var x := limbo[0];
    if cfg.maxDelivery <= x.msg.delivery {
      var from := ShardIdx(cfg, x.msg.queue);
      var sh1 := MarkAcked(e.shards[from], x.id);
      MarkedOnePlace(e.shards[from], x.id);
      TombstoneReady(sh1, x.msg.queue, x.id, q);
      AckedReady(e.shards[from], sh1, q);
      var e1 := WithShard(e, from, Tombstone(sh1, x.msg.queue, x.id));
      ReadyWith(cfg, e, from, Tombstone(sh1, x.msg.queue, x.id), q);
      var msg := x.msg.(queue := DeadLetter(x.msg.queue), visibleAt := now);
      FileReady(cfg, e1, Noted(ShardFor(cfg, e1, msg.queue), x.id), x.id, msg, now, q);
    } else {
      var msg := x.msg.(visibleAt := now);
      FileReady(cfg, e, ShardFor(cfg, e, msg.queue), x.id, msg, now, q);
    }
  }

  lemma AckedReady(sh: Shard, sh': Shard, q: string)
    requires sh'.queues == sh.queues
    ensures ReadyIn(sh', q) == ReadyIn(sh, q)
  {
  }

  /** Filing a message into a shard that has the same queues. */
  lemma FileReady(cfg: Config, e: Engine, sh: Shard, id: Id, msg: Msg, now: nat, q: string)
    requires sh.queues == ShardFor(cfg, e, msg.queue).queues
    ensures ReadyOf(cfg, e, q) <= ReadyOf(cfg, WithShard(e, ShardIdx(cfg, msg.queue), Enqueue(sh, id, msg, now)), q)
  {
    hide Enqueue, ReadyIn;
    AckedReady(ShardFor(cfg, e, msg.queue), sh, q);
    EnqueueReady(sh, id, msg, now, q);
    ReadyWith(cfg, e, ShardIdx(cfg, msg.queue), Enqueue(sh, id, msg, now), q);
  }

  lemma {:induction false} RouteAllReady(cfg: Config, home: Homes, e: Engine, limbo: seq<Limbo>, n: nat, now: nat,
                                         q: string)
    requires Inv(cfg, home, e, limbo) && n <= |limbo|
    ensures ReadyOf(cfg, e, q) <= ReadyOf(cfg, RouteAll(cfg, e, limbo[..n], now), q)
  {
    hide Inv, Route, ReadyOf;
    if n > 0 {
      RouteAllReady(cfg, home, e, limbo, n - 1, now, q);
      RouteAllInv(cfg, home, e, limbo, n - 1, now);
      PrefixStep(limbo, n - 1);
      SuffixStep(limbo, n - 1);
      RouteReady(cfg, home, RouteAll(cfg, e, limbo[..n - 1], now), limbo[n - 1..], now, q);
    }
  }

  lemma ReturnedReady(cfg: Config, home: Homes, e: Engine, queue: string, now: nat, q: string)
    requires Inv(cfg, home, e, [])
    ensures ReadyOf(cfg, e, q) <= ReadyOf(cfg, Returned(cfg, e, queue, now), q)
  {
    hide Balanced, OnePlace, HotCount, BookOf, Expire, RouteAll, ListsLimbo, DistinctIds, InOwnShard, Apart;
    var i := ShardIdx(cfg, queue);
    var t := Expire(e.shards[i], now);
    ExpireShard(e.shards[i], now);
    ExpireInv(cfg, home, e, i, now);
    AckedReady(e.shards[i], t.shard, q);
    RouteAllReady(cfg, home, WithShard(e, i, t.shard), t.limbo, |t.limbo|, now, q);
    assert t.limbo[..|t.limbo|] == t.limbo;
  }

  lemma PageRecordReady(cfg: Config, home: Homes, e: Engine, r: WalRecord, now: nat, q: string)
    requires Inv(cfg, home, e, []) && r in e.disk
    ensures ReadyOf(cfg, e, q) <= ReadyOf(cfg, PageRecord(cfg, e, r, now), q)
  {
    hide Balanced, OnePlace, HotCount, BookOf, Enqueue, Tombstone, ReadyIn;
    var i := ShardIdx(cfg, r.queue);
    var sh := e.shards[i];
    if r.Ack? {
      LoggedAck(cfg, home, e, r);
      assert sh.messages - {r.id} == sh.messages;
      MarkedOnePlace(sh, r.id);
      TombstoneReady(MarkAcked(sh, r.id), r.queue, r.id, q);
      AckedReady(sh, MarkAcked(sh, r.id), q);
      ReadyWith(cfg, e, i, Tombstone(MarkAcked(sh, r.id), r.queue, r.id), q);
    } else if PagedIn(cfg, e, r, now) {
      FileReady(cfg, e, Noted(sh, r.id), r.id, Msg(r.queue, r.payload, r.visibleAt, 0), now, q);
    }
  }

  lemma {:induction false} PageRecordsReady(cfg: Config, home: Homes, e: Engine, records: seq<WalRecord>, now: nat,
                                            q: string)
    requires Inv(cfg, home, e, []) && forall k :: 0 <= k < |records| ==> records[k] in e.disk
    ensures ReadyOf(cfg, e, q) <= ReadyOf(cfg, PageRecords(cfg, e, records, now), q)
  {
    hide Inv, PageRecord, ReadyOf;
    if records != [] {
      var front := records[..|records| - 1];
      PageRecordsReady(cfg, home, e, front, now, q);
      PageRecordsInv(cfg, home, e, front, now);
      PageRecordReady(cfg, home, PageRecords(cfg, e, front, now), records[|records| - 1], now, q);
    }
  }

  lemma PageStepReady(cfg: Config, home: Homes, e: Engine, target: string, now: nat, limit: nat, flushed: bool,
                      q: string)
    requires Inv(cfg, home, e, [])
    ensures ReadyOf(cfg, e, q) <= ReadyOf(cfg, PageStep(cfg, e, target, now, limit, flushed).engine, q)
  {
    hide Inv, Grouped, PageRecords;
    var n := ChunkLen(e, limit);
    var e1, g := e.(spill := e.spill + n), Grouped(cfg, e.disk[e.spill..e.spill + n], NUM_SHARDS);
    SpillInv(cfg, home, e, e.spill + n);
    GroupedFromDisk(cfg, e.disk, e.spill, e.spill + n, g);
    PageRecordsReady(cfg, home, e1, g, now, q);
  }

  lemma {:induction false} PageInReady(cfg: Config, home: Homes, e: Engine, target: string, now: nat, limit: nat,
                                       flushed: bool, q: string)
    requires Inv(cfg, home, e, [])
    ensures ReadyOf(cfg, e, q) <= ReadyOf(cfg, PageIn(cfg, e, target, now, limit, flushed), q)
    decreases |e.disk| - e.spill, if flushed then 0 else 1
  {
    hide Inv, ReadyOf;
    PageStepReady(cfg, home, e, target, now, limit, flushed, q);
    PageStepInv(cfg, home, e, target, now, limit, flushed);
    match PageStep(cfg, e, target, now, limit, flushed)
    case Stop(_) =>
    case Continue(e', flushed') => PageInReady(cfg, home, e', target, now, limit, flushed', q);
  }

  lemma SettleReady(cfg: Config, home: Homes, e: Engine, queue: string, a: Receipted, q: string)
    requires Inv(cfg, home, e, []) && CanAck(cfg, e, queue, a)
    ensures ReadyOf(cfg, Settle(cfg, e, queue, a).engine, q) == ReadyOf(cfg, e, q)
  {
    hide Balanced, OnePlace, HotCount, BookOf, Tombstone, ReadyIn;
    var i := ShardIdx(cfg, queue);
    var sh := e.shards[i];
    SettleShard(sh, queue, a);
    SettleShape(cfg, e, queue, a);
    SettleOnePlace(sh, a.id, a.receipt);
    var sh1 := sh.(wheel := W.RemoveIfValid(sh.wheel, a.id, a.receipt), messages := sh.messages - {a.id});
    MarkedOnePlace(sh1, a.id);
    TombstoneReady(MarkAcked(sh1, a.id), queue, a.id, q);
    AckedReady(sh, MarkAcked(sh1, a.id), q);
    SameReady(cfg, e, Settle(cfg, e, queue, a).engine, i, q);
  }

  lemma SameReady(cfg: Config, e: Engine, e': Engine, i: nat, q: string)
    requires i < NUM_SHARDS && e'.shards == e.shards[i := e'.shards[i]]
    requires ReadyIn(e'.shards[i], q) == ReadyIn(e.shards[i], q)
    ensures ReadyOf(cfg, e', q) == ReadyOf(cfg, e, q)
  {
  }

  // ---------------------------------------------------------------- the line stands in the ready queue

  /** So far nobody jumped the line, and the line stands in the ready queue in its order. */
  ghost predicate Queued(cfg: Config, e: Engine, q: string, hist: seq<Event>) {
    Fair(hist, q) && Sub(Line(hist, q), ReadyOf(cfg, e, q))
  }

  lemma QueuedLater(cfg: Config, e: Engine, e': Engine, q: string, hist: seq<Event>)
    requires Queued(cfg, e, q, hist) && ReadyOf(cfg, e, q) <= ReadyOf(cfg, e', q)
    ensures Queued(cfg, e', q, hist)
  {
    hide ReadyOf, Fair, Line;
    var r, r' := ReadyOf(cfg, e, q), ReadyOf(cfg, e', q);
    SubExtends(Line(hist, q), r, r'[|r|..]);
    assert r' == r + r'[|r|..];
  }

  lemma AdmitQueued(cfg: Config, home: Homes, e: Engine, queue: string, item: Item, now: nat, q: string,
                    hist: seq<Event>)
    requires Inv(cfg, home, e, []) && Queued(cfg, e, q, hist)
    ensures var o := Admit(cfg, Log(e, PushRecord(queue, item, now)), queue, item, now);
            Queued(cfg, o.engine, q, hist + o.events)
  {
    hide Balanced, OnePlace, HotCount, BookOf, Enqueue, Fair, Line, Sub, ReadyIn;
    var i, msg := ShardIdx(cfg, queue), MsgOf(queue, item, now);
    var o := Admit(cfg, Log(e, PushRecord(queue, item, now)), queue, item, now);
    var sh := Noted(e.shards[i], item.id);
    FairSnoc(hist, o.events[0], q);
    AckedReady(e.shards[i], sh, q);
    EnqueueReady(sh, item.id, msg, now, q);
    if HasRoom(cfg, e, queue, item.id, item.delay) {
      if queue == q && item.delay == 0 {
        NotReady(e.shards[i], q, item.id);
        SubSnoc(Line(hist, q), ReadyOf(cfg, e, q), item.id);
      } else {
        FileReady(cfg, e, sh, item.id, msg, now, q);
        QueuedLater(cfg, e, o.engine, q, hist);
      }
    } else {
      SameReady(cfg, e, o.engine, i, q);
    }
  }

  lemma {:induction false} BatchQueued(cfg: Config, home: Homes, e: Engine, queue: string, items: seq<Item>,
                                       now: nat, q: string, hist: seq<Event>)
    requires Inv(cfg, home, e, []) && Queued(cfg, e, q, hist)
    requires forall k :: 0 <= k < |items| ==> queue == home(items[k].id)
    ensures var o := BatchItems(cfg, e, queue, items, now);
            Inv(cfg, home, o.engine, []) && Queued(cfg, o.engine, q, hist + o.events)
  {
    hide Inv, Queued, Admit;
    if items == [] {
      EmptyRight(hist);
    } else {
      var front, item := items[..|items| - 1], items[|items| - 1];
      BatchQueued(cfg, home, e, queue, front, now, q, hist);
      var a := BatchItems(cfg, e, queue, front, now);
      var b := BatchItem(cfg, a.engine, queue, item, now);
      if Seen(cfg, a.engine, queue, item.id) {
        EmptyRight(a.events);
      } else {
        AdmitInv(cfg, home, a.engine, queue, item, now);
        AdmitQueued(cfg, home, a.engine, queue, item, now, q, hist + a.events);
        Assoc(hist, a.events, b.events);
      }
    }
  }

  lemma AckQueued(cfg: Config, home: Homes, e: Engine, queue: string, a: Receipted, q: string, hist: seq<Event>)
    requires Inv(cfg, home, e, []) && Queued(cfg, e, q, hist) && CanAck(cfg, e, queue, a)
    ensures var o := Settle(cfg, e, queue, a);
            Inv(cfg, home, o.engine, []) && Queued(cfg, o.engine, q, hist + o.events)
  {
    hide Inv, Fair, Line, Sub, ReadyOf;
    SettleInv(cfg, home, e, queue, a);
    SettleReady(cfg, home, e, queue, a, q);
    FairSnoc(hist, Acked(queue, a.id, a.receipt), q);
  }

  lemma {:induction false} AcksQueued(cfg: Config, home: Homes, e: Engine, queue: string, acks: seq<Receipted>,
                                      q: string, hist: seq<Event>)
    requires Inv(cfg, home, e, []) && Queued(cfg, e, q, hist)
    ensures var o := AckItems(cfg, e, queue, acks);
            Inv(cfg, home, o.engine, []) && Queued(cfg, o.engine, q, hist + o.events)
  {
    hide Inv, Queued, Settle, CanAck;
    if acks == [] {
      EmptyRight(hist);
    } else {
      var front, item := acks[..|acks| - 1], acks[|acks| - 1];
      AcksQueued(cfg, home, e, queue, front, q, hist);
      var a := AckItems(cfg, e, queue, front);
      var b := AckOne(cfg, a.engine, queue, item);
      if CanAck(cfg, a.engine, queue, item) {
        AckQueued(cfg, home, a.engine, queue, item, q, hist + a.events);
        Assoc(hist, a.events, b.events);
      } else {
        EmptyRight(a.events);
      }
    }
  }

  lemma CompactQueued(cfg: Config, home: Homes, o: Outcome, survivors: seq<WalRecord>, q: string, hist: seq<Event>)
    requires Inv(cfg, home, o.engine, []) && Queued(cfg, o.engine, q, hist) && Lists(cfg, o.engine, survivors)
    ensures var e' := MaybeCompact(cfg, o.engine, survivors);
            Inv(cfg, home, e', []) && Queued(cfg, e', q, hist)
  {
    hide Inv, Fair, Line, Sub, ShouldCompact, IsSurvivorList;
    CompactInv(cfg, home, o.engine, survivors);
  }

  // ---------------------------------------------------------------- claiming takes from the front

  lemma {:induction false} ClaimFront(q: Q.Queue, max: nat)
    requires Q.Tidy(q)
    ensures var c, n := Claim(q, max), Min(max, |q.ready|);
            c.ids == q.ready[..n] && c.queue.ready == q.ready[n..]
    decreases max
  {
    hide Q.Tidy, Q.PopReady, Q.Holds;
    if 0 < max {
      Q.TidyPop(q);
      if q.ready != [] {
        ClaimFront(Q.PopReady(q).queue, max - 1);
        FrontCons(q.ready, Min(max, |q.ready|));
      }
    }
  }

  lemma FrontCons(s: seq<Id>, n: nat)
    requires 0 < n <= |s|
    ensures s[..n] == [s[0]] + s[1..][..n - 1] && s[n..] == s[1..][n - 1..]
  {
  }

  /** Hand-outs of messages that are not in the line do not move it. */
  lemma {:induction false} PassBy(hist: seq<Event>, events: seq<Event>, q: string)
    requires Fair(hist, q)
    requires forall k :: 0 <= k < |events| ==> events[k].Delivered? && events[k].id !in Line(hist, q)
    ensures Fair(hist + events, q) && Line(hist + events, q) == Line(hist, q)
  {
    hide Fair, Line;
    if events == [] {
      EmptyRight(hist);
    } else {
      var front, last := events[..|events| - 1], events[|events| - 1];
      PassBy(hist, front, q);
      FairSnoc(hist + front, last, q);
      Assoc(hist, front, [last]);
      Unsnoc(events);
    }
  }

  /** Handing out the front of the ready queue in order keeps the line in order. */
  lemma {:induction false} ServeFront(hist: seq<Event>, events: seq<Event>, ready: seq<Id>, q: string)
    requires Fair(hist, q) && Sub(Line(hist, q), ready) && NoDup(ready) && |events| <= |ready|
    requires forall k :: 0 <= k < |events| ==> events[k].Delivered? && events[k].id == ready[k]
    ensures Fair(hist + events, q) && Sub(Line(hist + events, q), ready[|events|..])
  {
    hide Fair, Line, Sub;
    if events == [] {
      EmptyRight(hist);
      assert ready[0..] == ready;
    } else {
      var n := |events| - 1;
      var front, last := events[..n], events[n];
      ServeFront(hist, front, ready, q);
      FairSnoc(hist + front, last, q);
      Assoc(hist, front, [last]);
      Unsnoc(events);
      SuffixStep(ready, n);
      NoDupTail(ready, n);
      SubHead(Line(hist + front, q), ready[n..]);
    }
  }

  lemma NoDupTail(s: seq<Id>, n: nat)
    requires NoDup(s) && n <= |s|
    ensures NoDup(s[n..])
  {
  }

  lemma QueueTidy(sh: Shard, q: string)
    requires OnePlace(sh, {}) && q in sh.queues
    ensures Q.Tidy(sh.queues[q]) && forall id :: Q.Holds(sh.queues[q], id) <==> Waiting(sh, {}, q, id)
  {
    assert Exact(sh, {}, q);
  }

  lemma ReadyWaits(sh: Shard, q: string, id: Id)
    requires OnePlace(sh, {}) && id in ReadyIn(sh, q)
    ensures Waiting(sh, {}, q, id)
  {
    hide OnePlace;
    QueueTidy(sh, q);
    assert Q.Holds(sh.queues[q], id);
  }

  /** The polled queue: the claim hands out the front of its drained ready queue. */
  lemma ClaimHere(sh: Shard, l: Lease, max: nat, secs: seq<nat>, receipts: nat -> Receipt, hist: seq<Event>)
    requires OnePlace(sh, {}) && (l.queue in sh.queues ==> Q.IsDrainOrder(sh.queues[l.queue], l.now, secs))
    requires Fair(hist, l.queue) && Sub(Line(hist, l.queue), ReadyIn(sh, l.queue))
    ensures var r := ClaimFrom(sh, l, max, secs, receipts);
            Fair(hist + r.events, l.queue) && Sub(Line(hist + r.events, l.queue), ReadyIn(r.shard, l.queue))
  {
    hide OnePlace, Fair, Line, Sub, Leases, Q.Drain, Claim, Q.Tidy;
    var r := ClaimFrom(sh, l, max, secs, receipts);
    if l.queue in sh.queues {
      var q := Q.Drain(sh.queues[l.queue], l.now, secs);
      var n := Min(max, |q.ready|);
      var sh2 := sh.(queues := sh.queues[l.queue := Claim(q, max).queue]);
      var ready := q.ready;
      QueueTidy(sh, l.queue);
      Q.TidyDrain(sh.queues[l.queue], l.now, secs);
      TidyReady(q);
      ClaimFront(q, max);
      ClaimOut(sh, l, max, secs, receipts);
      var was := sh.queues[l.queue].ready;
      SubExtends(Line(hist, l.queue), was, ready[|was|..]);
      assert ready == was + ready[|was|..];
      ServeFront(hist, r.events, ready, l.queue);
    } else {
      EmptyRight(hist);
    }
  }

  lemma TidyReady(q: Q.Queue)
    requires Q.Tidy(q)
    ensures NoDup(q.ready)
  {
  }

  lemma ClaimOut(sh: Shard, l: Lease, max: nat, secs: seq<nat>, receipts: nat -> Receipt)
    requires OnePlace(sh, {}) && l.queue in sh.queues && Q.IsDrainOrder(sh.queues[l.queue], l.now, secs)
    ensures var r := ClaimFrom(sh, l, max, secs, receipts);
            var c := Claim(Q.Drain(sh.queues[l.queue], l.now, secs), max);
            && r.shard.queues == sh.queues[l.queue := c.queue] && |r.events| == |c.ids|
            && forall k :: 0 <= k < |c.ids| ==> r.events[k].Delivered? && r.events[k].id == c.ids[k]
  {
    hide OnePlace, CountsUp, AddsLeases, Receipts, Q.Drain, Claim, Q.IsDrainOrder;
    var q := Q.Drain(sh.queues[l.queue], l.now, secs);
    var c := Claim(q, max);
    var sh1, sh2 := sh.(queues := sh.queues[l.queue := q]), sh.(queues := sh.queues[l.queue := c.queue]);
    DrainOnePlace(sh, l.queue, l.now, secs);
    ClaimOnePlace(sh1, {}, l.queue, max);
    assert sh1.queues[l.queue := c.queue] == sh2.queues;
    assert {} + Elems(c.ids) == Elems(c.ids);
    LeaseAllShape(sh2, Elems(c.ids), c.ids, l, receipts);
  }

  lemma ClaimQueued(cfg: Config, home: Homes, e: Engine, l: Lease, max: nat, secs: seq<nat>,
                    receipts: nat -> Receipt, q: string, hist: seq<Event>)
    requires Inv(cfg, home, e, []) && Queued(cfg, e, q, hist)
    requires var qs := ShardFor(cfg, e, l.queue).queues; l.queue in qs ==> Q.IsDrainOrder(qs[l.queue], l.now, secs)
    ensures var i := ShardIdx(cfg, l.queue);
            var r := ClaimFrom(e.shards[i], l, max, secs, receipts);
            Queued(cfg, WithShard(e, i, r.shard), q, hist + r.events)
  {
    hide Balanced, OnePlace, HotCount, BookOf, ClaimFrom, Fair, Line, Sub;
    var i := ShardIdx(cfg, l.queue);
    var sh := e.shards[i];
    var r := ClaimFrom(sh, l, max, secs, receipts);
    if q == l.queue {
      ClaimHere(sh, l, max, secs, receipts, hist);
    } else {
      ClaimElsewhere(cfg, home, e, l, max, secs, receipts, q, hist);
      PassBy(hist, r.events, q);
    }
  }

  /** A claim from another queue hands out none of this line and leaves the ready queue alone. */
  lemma ClaimElsewhere(cfg: Config, home: Homes, e: Engine, l: Lease, max: nat, secs: seq<nat>,
                       receipts: nat -> Receipt, q: string, hist: seq<Event>)
    requires Inv(cfg, home, e, []) && Queued(cfg, e, q, hist) && q != l.queue
    requires var qs := ShardFor(cfg, e, l.queue).queues; l.queue in qs ==> Q.IsDrainOrder(qs[l.queue], l.now, secs)
    ensures var i := ShardIdx(cfg, l.queue);
            var r := ClaimFrom(e.shards[i], l, max, secs, receipts);
            && ReadyOf(cfg, WithShard(e, i, r.shard), q) == ReadyOf(cfg, e, q)
            && forall k :: 0 <= k < |r.events| ==> r.events[k].Delivered? && r.events[k].id !in Line(hist, q)
  {
    hide Balanced, OnePlace, HotCount, BookOf, ClaimFrom, Fair, Line, Sub, CountsUp, AddsLeases, Receipts;
    var i := ShardIdx(cfg, l.queue);
    var sh := e.shards[i];
    var r := ClaimFrom(sh, l, max, secs, receipts);
    var ids := ClaimShape(sh, l, max, secs, receipts);
    ClaimOther(sh, l, max, secs, receipts, q);
    forall k | 0 <= k < |r.events|
      ensures r.events[k].Delivered? && r.events[k].id !in Line(hist, q)
    {
      var id := ids[k];
      assert id in ids;
      if id in Line(hist, q) {
        SubMember(Line(hist, q), ReadyOf(cfg, e, q), id);
        ReadyWaits(ShardFor(cfg, e, q), q, id);
        HotOnce(cfg, home, e, [], i, ShardIdx(cfg, q), id);
        assert false;
      }
    }
  }

  lemma ClaimOther(sh: Shard, l: Lease, max: nat, secs: seq<nat>, receipts: nat -> Receipt, q: string)
    requires OnePlace(sh, {}) && (l.queue in sh.queues ==> Q.IsDrainOrder(sh.queues[l.queue], l.now, secs))
    requires q != l.queue
    ensures ReadyIn(ClaimFrom(sh, l, max, secs, receipts).shard, q) == ReadyIn(sh, q)
  {
    hide OnePlace, Q.IsDrainOrder;
    if l.queue in sh.queues {
      ClaimOut(sh, l, max, secs, receipts);
    }
  }

  // ---------------------------------------------------------------- whole runs

  lemma PollQueued(cfg: Config, home: Homes, e: Engine, c: Call, q: string, hist: seq<Event>)
    requires Inv(cfg, home, e, []) && Queued(cfg, e, q, hist) && c.op.PollOp? && Allowed(cfg, home, e, c)
    ensures var o := Step(cfg, e, c);
            Inv(cfg, home, o.engine, []) && Queued(cfg, o.engine, q, hist + o.events)
  {
    hide Inv, Queued, ReadyOf, NeedsPageIn, Returned, PageIn, ClaimFrom;
    var queue, now, max := c.op.queue, c.now, c.op.max;
    ReturnedInv(cfg, home, e, queue, now);
    ReturnedReady(cfg, home, e, queue, now, q);
    var e1 := Returned(cfg, e, queue, now);
    if NeedsPageIn(cfg, e1, queue, max) {
      PageInInv(cfg, home, e1, queue, now, Max(Prefetch(max), 1000), false);
      PageInReady(cfg, home, e1, queue, now, Max(Prefetch(max), 1000), false, q);
    }
    var e2, l := ReadyToClaim(cfg, e, queue, now, max), Lease(queue, now, now + Timeout(cfg, c.op.visibility));
    QueuedLater(cfg, e, e2, q, hist);
    ClaimInv(cfg, home, e2, l, max, c.op.secs, c.op.receipts);
    ClaimQueued(cfg, home, e2, l, max, c.op.secs, c.op.receipts, q, hist);
  }

  lemma PushQueued(cfg: Config, home: Homes, e: Engine, c: Call, q: string, hist: seq<Event>)
    requires Inv(cfg, home, e, []) && Queued(cfg, e, q, hist) && c.op.PushOp? && Allowed(cfg, home, e, c)
    ensures var o := Step(cfg, e, c);
            Inv(cfg, home, o.engine, []) && Queued(cfg, o.engine, q, hist + o.events)
  {
    hide Inv, Admit, Fair, Line, Sub;
    var queue, item := c.op.queue, c.op.item;
    var r := PushRecord(queue, item, c.now);
    if Seen(cfg, e, queue, item.id) {
      DuplicateInv(cfg, home, e, r);
      EmptyRight(hist);
    } else {
      AdmitInv(cfg, home, e, queue, item, c.now);
      AdmitQueued(cfg, home, e, queue, item, c.now, q, hist);
    }
  }

  lemma StepQueued(cfg: Config, home: Homes, e: Engine, c: Call, q: string, hist: seq<Event>)
    requires Inv(cfg, home, e, []) && Queued(cfg, e, q, hist) && Allowed(cfg, home, e, c)
    ensures var o := Step(cfg, e, c);
            Inv(cfg, home, o.engine, []) && Queued(cfg, o.engine, q, hist + o.events)
  {
    hide Inv, Queued, Lists, MaybeCompact, Settle, CanAck, Poll, PushOne;
    match c.op
    case PushOp(_, _) => PushQueued(cfg, home, e, c, q, hist);
    case PushBatchOp(queue, items, survivors) =>
      BatchQueued(cfg, home, e, queue, items, c.now, q, hist);
      CompactQueued(cfg, home, BatchItems(cfg, e, queue, items, c.now), survivors, q, hist + Step(cfg, e, c).events);
    case PollOp(_, _, _, _, _) => PollQueued(cfg, home, e, c, q, hist);
    case AckOp(queue, a) =>
      if CanAck(cfg, e, queue, a) {
        AckQueued(cfg, home, e, queue, a, q, hist);
      } else {
        EmptyRight(hist);
      }
    case AckBatchOp(queue, acks, survivors) =>
      AcksQueued(cfg, home, e, queue, acks, q, hist);
      CompactQueued(cfg, home, AckItems(cfg, e, queue, acks), survivors, q, hist + Step(cfg, e, c).events);
  }

  lemma {:induction false} RunQueued(cfg: Config, home: Homes, calls: seq<Call>, q: string)
    requires AllowedRun(cfg, home, calls)
    ensures Inv(cfg, home, Run(cfg, calls).engine, []) && Queued(cfg, Run(cfg, calls).engine, q, RunEvents(cfg, calls))
  {
    hide Inv, Queued, Step, Allowed;
    if |calls| == 0 {
      NewInv(cfg, home);
      NewQueued(cfg, q);
    } else {
      var front, c := calls[..|calls| - 1], calls[|calls| - 1];
      var before := Run(cfg, front);
      RunQueued(cfg, home, front, q);
      StepQueued(cfg, home, before.engine, c, q, EventsOf(before.log));
      Snoc(before.log, Entry(c.now, Step(cfg, before.engine, c).events));
    }
  }

  lemma NewQueued(cfg: Config, q: string)
    ensures Queued(cfg, NewEngine(), q, [])
  {
  }

  // ---------------------------------------------------------------- first in, first out

  ghost predicate HandedOut(events: seq<Event>, n: nat, id: Id) {
    exists m :: 0 <= m < n && m < |events| && events[m].Delivered? && events[m].id == id
  }

  /** `a` stands in the line, and `b` not before it. */
  ghost predicate Ahead(line: seq<Id>, a: Id, b: Id) {
    exists p :: 0 <= p < |line| && line[p] == a && forall s :: 0 <= s <= p ==> line[s] != b
  }

  lemma AheadMoves(line: seq<Id>, ev: Event, q: string, a: Id, b: Id)
    requires Ahead(line, a, b)
    ensures Ahead(Moved(line, ev, q), a, b) || (ev.Delivered? && ev.id == a)
  {
    var p :| 0 <= p < |line| && line[p] == a && forall s :: 0 <= s <= p ==> line[s] != b;
    var line' := Moved(line, ev, q);
    if ev.Delivered? && line[0] == ev.id {
      if p > 0 {
        assert line'[p - 1] == a;
      }
    } else {
      assert line'[p] == a;
    }
  }

  lemma {:induction false} LineStored(events: seq<Event>, q: string, id: Id)
    requires id in Line(events, q)
    ensures exists m :: 0 <= m < |events| && events[m].Stored? && events[m].id == id
  {
    var front, last := events[..|events| - 1], events[|events| - 1];
    if last.Stored? && last.id == id {
      assert events[|events| - 1].Stored?;
    } else {
      LineStored(front, q, id);
      var m :| 0 <= m < |front| && front[m].Stored? && front[m].id == id;
      assert events[m] == front[m];
    }
  }

  /** Until `a` is handed out it stands in the line, ahead of a later `b`. */
  lemma {:induction false} StaysAhead(events: seq<Event>, q: string, a: Id, b: Id, i: nat, n: nat)
    requires i < n <= |events| && events[i] == Stored(q, a, Ready) && a != b
    requires forall m :: 0 <= m <= i ==> events[m].id != b
    ensures Ahead(Line(events[..n], q), a, b) || HandedOut(events, n, a)
  {
    var front := events[..n - 1];
    PrefixStep(events, n - 1);
    FairSnoc(front, events[n - 1], q);
    if n == i + 1 {
      var line := Line(front, q);
      if b in line {
        LineStored(front, q, b);
        assert false;
      }
      assert (line + [a])[|line|] == a;
    } else {
      StaysAhead(events, q, a, b, i, n - 1);
      if !HandedOut(events, n - 1, a) {
        AheadMoves(Line(front, q), events[n - 1], q, a, b);
      }
    }
  }

  lemma {:induction false} FairAt(events: seq<Event>, q: string, k: nat)
    requires Fair(events, q) && k < |events| && events[k].Delivered? && events[k].id in Line(events[..k], q)
    ensures Line(events[..k], q)[0] == events[k].id
  {
    var front := events[..|events| - 1];
    if k < |front| {
      assert front[..k] == events[..k];
      FairAt(front, q, k);
    }
  }

  lemma {:induction false} HandOutOrder(events: seq<Event>, q: string, a: Id, b: Id, i: nat, j: nat, k: nat)
    requires Fair(events, q) && i < j && j < k < |events| && a != b
    requires events[i] == Stored(q, a, Ready) && events[j] == Stored(q, b, Ready)
    requires events[k].Delivered? && events[k].id == b
    requires forall m :: 0 <= m < j ==> events[m].id != b
    ensures HandedOut(events, k, a)
    decreases k
  {
    var line := Line(events[..k], q);
    StaysAhead(events, q, a, b, i, k);
    if b in line {
      FairAt(events, q, k);
    } else {
      StaysInLine(events, q, b, j, k);
      var m :| 0 <= m < k && events[m].Delivered? && events[m].id == b;
      HandOutOrder(events, q, a, b, i, j, m);
    }
  }

  lemma {:induction false} StaysInLine(events: seq<Event>, q: string, id: Id, i: nat, n: nat)
    requires i < n <= |events| && events[i] == Stored(q, id, Ready)
    ensures id in Line(events[..n], q) || HandedOut(events, n, id)
  {
    var front := events[..n - 1];
    PrefixStep(events, n - 1);
    FairSnoc(front, events[n - 1], q);
    if n > i + 1 {
      StaysInLine(events, q, id, i, n - 1);
    }
  }

  /** First deliveries are first in, first out: of two messages that went straight into the ready
      queue of the same queue, the later is handed out only after the earlier has been, whatever
      polls, expiries, acks and other pushes happen in between. */
  lemma FirstInFirstOut(cfg: Config, home: Homes, calls: seq<Call>, q: string, i: nat, j: nat, k: nat)
    requires AllowedRun(cfg, home, calls) && i < j < |RunEvents(cfg, calls)| && k < |RunEvents(cfg, calls)|
    requires var events := RunEvents(cfg, calls);
             && events[i].Stored? && events[i].queue == q && events[i].place.Ready?
             && events[j].Stored? && events[j].queue == q && events[j].place.Ready?
             && events[k].Delivered? && events[k].id == events[j].id
    ensures HandedOut(RunEvents(cfg, calls), k, RunEvents(cfg, calls)[i].id)
  {
    hide AllowedRun, Run, Line, Sub, Inv;
    var events := RunEvents(cfg, calls);
    RunQueued(cfg, home, calls, q);
    forall m | 0 <= m < j
      ensures events[m].id != events[j].id
    {
      if events[m].id == events[j].id {
        StoredFirst(cfg, home, calls, m, j);
        assert false;
      }
    }
    HandOutOrder(events, q, events[i].id, events[j].id, i, j, k);
  }
}
