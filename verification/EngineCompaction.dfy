/** When a call compacts the log, and what the log holds after every run. */
module EngineCompaction {
  import opened Basics
  import opened WalCodec
  import opened EngineSpec
  import opened Books
  import opened EngineSteps
  import opened EngineRuns

  // ---------------------------------------------------------------- when a call compacts

  /** The call makes its closing check and the check passes. A repeated push and a refused ack return
      before it; a poll has none. */
  ghost predicate Compacts(cfg: Config, e: Engine, c: Call) {
    match c.op
    case PushOp(q, item) => !Seen(cfg, e, q, item.id) && ShouldCompact(cfg, PushOne(cfg, e, q, item, c.now).engine)
    case PushBatchOp(q, items, _) => ShouldCompact(cfg, BatchItems(cfg, e, q, items, c.now).engine)
    case PollOp(_, _, _, _, _) => false
    case AckOp(q, a) => CanAck(cfg, e, q, a) && ShouldCompact(cfg, AckOne(cfg, e, q, a).engine)
    case AckBatchOp(q, acks, _) => ShouldCompact(cfg, AckItems(cfg, e, q, acks).engine)
  }

  /** A batch of pushes that were all seen before, or of acks that are all refused. */
  ghost predicate IdleBatch(cfg: Config, e: Engine, c: Call) {
    match c.op
    case PushBatchOp(q, items, _) => forall k :: 0 <= k < |items| ==> Seen(cfg, e, q, items[k].id)
    case AckBatchOp(q, acks, _) => forall k :: 0 <= k < |acks| ==> !CanAck(cfg, e, q, acks[k])
    case _ => false
  }

  /** Earlier items of the batch are noted, and nothing else is. */
  lemma {:induction false} BatchSeen(cfg: Config, e: Engine, queue: string, items: seq<Item>, now: nat, id: Id)
    ensures Seen(cfg, BatchItems(cfg, e, queue, items, now).engine, queue, id)
            <==> Seen(cfg, e, queue, id) || exists k :: 0 <= k < |items| && items[k].id == id
  {
    hide Enqueue;
    if items != [] {
      var front := items[..|items| - 1];
      BatchSeen(cfg, e, queue, front, now, id);
      AdmitShape(cfg, BatchItems(cfg, e, queue, front, now).engine, queue, items[|items| - 1], now);
      EnqueueSeen(ShardFor(cfg, BatchItems(cfg, e, queue, front, now).engine, queue), queue, items[|items| - 1], now);
      assert forall k :: 0 <= k < |front| ==> front[k] == items[k];
    }
  }

  lemma EnqueueSeen(sh: Shard, queue: string, item: Item, now: nat)
    ensures Enqueue(Noted(sh, item.id), item.id, MsgOf(queue, item, now), now).seen == sh.seen + {item.id}
  {
  }

  /** An earlier item of the batch with the same id has used the receipt up. */
  lemma {:induction false} AcksLeft(cfg: Config, e: Engine, queue: string, acks: seq<Receipted>, a: Receipted)
    ensures CanAck(cfg, AckItems(cfg, e, queue, acks).engine, queue, a) <==> CanAck(cfg, e, queue, a) && a !in acks
  {
    hide Settle;
    if acks != [] {
      var front, last := acks[..|acks| - 1], acks[|acks| - 1];
      var mid := AckItems(cfg, e, queue, front).engine;
      AcksLeft(cfg, e, queue, front, a);
      AcksLeft(cfg, e, queue, front, last);
      if CanAck(cfg, mid, queue, last) {
        SettleLeft(cfg, mid, queue, last, a);
      }
      assert a in acks <==> a in front || a == last;
    }
  }

  lemma SettleLeft(cfg: Config, e: Engine, queue: string, b: Receipted, a: Receipted)
    requires CanAck(cfg, e, queue, b)
    ensures CanAck(cfg, Settle(cfg, e, queue, b).engine, queue, a) <==> CanAck(cfg, e, queue, a) && a != b
  {
  }

  // ---------------------------------------------------------------- what a call logs

  /** The items of a batch that are logged: the first of each id that was not seen before. */
  ghost function Fresh(cfg: Config, e: Engine, queue: string, items: seq<Item>, now: nat): seq<WalRecord> {
    if items == [] then []
    else
      var front, item := items[..|items| - 1], items[|items| - 1];
      Fresh(cfg, e, queue, front, now)
      + if Seen(cfg, e, queue, item.id) || exists k :: 0 <= k < |front| && front[k].id == item.id then []
        else [PushRecord(queue, item, now)]
  }

  /** The acks of a batch that are logged: the first of each under a valid receipt. */
  ghost function Accepted(cfg: Config, e: Engine, queue: string, acks: seq<Receipted>): seq<WalRecord> {
    if acks == [] then []
    else
      var front, a := acks[..|acks| - 1], acks[|acks| - 1];
      Accepted(cfg, e, queue, front)
      + if CanAck(cfg, e, queue, a) && a !in front then [WalRecord.Ack(a.id, queue)] else []
  }

  /** The records a call adds to the log, read off the state before it. */
  ghost function Logs(cfg: Config, e: Engine, c: Call): seq<WalRecord> {
    match c.op
    case PushOp(q, item) => [PushRecord(q, item, c.now)]
    case PushBatchOp(q, items, _) => Fresh(cfg, e, q, items, c.now)
    case PollOp(_, _, _, _, _) => []
    case AckOp(q, a) => if CanAck(cfg, e, q, a) then [WalRecord.Ack(a.id, q)] else []
    case AckBatchOp(q, acks, _) => Accepted(cfg, e, q, acks)
  }

  lemma {:induction false} BatchLogs(cfg: Config, e: Engine, queue: string, items: seq<Item>, now: nat)
    ensures var e' := BatchItems(cfg, e, queue, items, now).engine;
            e'.disk == e.disk + Fresh(cfg, e, queue, items, now) && e'.spill == e.spill
  {
    hide Admit, Seen;
    if items == [] {
      EmptyRight(e.disk);
    } else {
      var front, item := items[..|items| - 1], items[|items| - 1];
      var mid := BatchItems(cfg, e, queue, front, now).engine;
      BatchLogs(cfg, e, queue, front, now);
      BatchSeen(cfg, e, queue, front, now, item.id);
      AdmitShape(cfg, mid, queue, item, now);
      var more := if Seen(cfg, mid, queue, item.id) then [] else [PushRecord(queue, item, now)];
      Assoc(e.disk, Fresh(cfg, e, queue, front, now), more);
      EmptyRight(mid.disk);
    }
  }

  lemma {:induction false} AcksLog(cfg: Config, e: Engine, queue: string, acks: seq<Receipted>)
    ensures var e' := AckItems(cfg, e, queue, acks).engine;
            e'.disk == e.disk + Accepted(cfg, e, queue, acks) && e'.spill == e.spill
  {
    hide CanAck;
    if acks == [] {
      EmptyRight(e.disk);
    } else {
      var front, a := acks[..|acks| - 1], acks[|acks| - 1];
      var mid := AckItems(cfg, e, queue, front).engine;
      AcksLog(cfg, e, queue, front);
      AcksLeft(cfg, e, queue, front, a);
      var more := if CanAck(cfg, mid, queue, a) then [WalRecord.Ack(a.id, queue)] else [];
      Assoc(e.disk, Accepted(cfg, e, queue, front), more);
      EmptyRight(mid.disk);
    }
  }

  lemma {:induction false} NothingFresh(cfg: Config, e: Engine, queue: string, items: seq<Item>, now: nat)
    ensures Fresh(cfg, e, queue, items, now) == []
            <==> forall k :: 0 <= k < |items| ==> Seen(cfg, e, queue, items[k].id)
  {
    hide Seen;
    if items != [] {
      var front := items[..|items| - 1];
      NothingFresh(cfg, e, queue, front, now);
      assert forall k :: 0 <= k < |front| ==> front[k] == items[k];
    }
  }

  lemma {:induction false} NothingAccepted(cfg: Config, e: Engine, queue: string, acks: seq<Receipted>)
    ensures Accepted(cfg, e, queue, acks) == [] <==> forall k :: 0 <= k < |acks| ==> !CanAck(cfg, e, queue, acks[k])
  {
    hide CanAck;
    if acks != [] {
      var front := acks[..|acks| - 1];
      NothingAccepted(cfg, e, queue, front);
      assert forall k :: 0 <= k < |front| ==> front[k] == acks[k];
    }
  }

  lemma {:induction false} IdlePushes(cfg: Config, e: Engine, queue: string, items: seq<Item>, now: nat)
    requires forall k :: 0 <= k < |items| ==> Seen(cfg, e, queue, items[k].id)
    ensures BatchItems(cfg, e, queue, items, now) == Outcome(e, [])
  {
    if items != [] {
      IdlePushes(cfg, e, queue, items[..|items| - 1], now);
    }
  }

  lemma {:induction false} IdleAcks(cfg: Config, e: Engine, queue: string, acks: seq<Receipted>)
    requires forall k :: 0 <= k < |acks| ==> !CanAck(cfg, e, queue, acks[k])
    ensures AckItems(cfg, e, queue, acks) == Outcome(e, [])
  {
    if acks != [] {
      IdleAcks(cfg, e, queue, acks[..|acks| - 1]);
    }
  }

  /** A call that logs something leaves unread records behind, so it does not compact. */
  lemma UnreadStays(cfg: Config, e: Engine, e': Engine, more: seq<WalRecord>)
    requires e'.disk == e.disk + more && e'.spill == e.spill
    ensures ShouldCompact(cfg, e') ==> more == []
  {
  }

  /** A call compacts the log exactly when it is a batch that logs nothing, the page-in position is at
      the end of the file and the segment has reached its limit. No single push and no single ack
      ever does. */
  lemma CompactsIff(cfg: Config, e: Engine, c: Call)
    ensures Compacts(cfg, e, c) <==> IdleBatch(cfg, e, c) && ShouldCompact(cfg, e)
  {
    hide ShouldCompact, Seen, CanAck, BatchItems, AckItems, Admit;
    match c.op
    case PushOp(q, item) =>
      AdmitShape(cfg, e, q, item, c.now);
      UnreadStays(cfg, e, PushOne(cfg, e, q, item, c.now).engine, [PushRecord(q, item, c.now)]);
    case PushBatchOp(q, items, _) =>
      BatchLogs(cfg, e, q, items, c.now);
      UnreadStays(cfg, e, BatchItems(cfg, e, q, items, c.now).engine, Fresh(cfg, e, q, items, c.now));
      NothingFresh(cfg, e, q, items, c.now);
      if IdleBatch(cfg, e, c) {
        IdlePushes(cfg, e, q, items, c.now);
      }
    case PollOp(_, _, _, _, _) =>
    case AckOp(q, a) =>
      UnreadStays(cfg, e, Settle(cfg, e, q, a).engine, [WalRecord.Ack(a.id, q)]);
    case AckBatchOp(q, acks, _) =>
      AcksLog(cfg, e, q, acks);
      UnreadStays(cfg, e, AckItems(cfg, e, q, acks).engine, Accepted(cfg, e, q, acks));
      NothingAccepted(cfg, e, q, acks);
      if IdleBatch(cfg, e, c) {
        IdleAcks(cfg, e, q, acks);
      }
  }

  // ---------------------------------------------------------------- what the log holds

  /** A compacting call replaces the log by the survivors and changes nothing else. */
  lemma CompactsTo(cfg: Config, home: Homes, e: Engine, c: Call)
    requires Compacts(cfg, e, c) && Allowed(cfg, home, e, c)
    ensures (c.op.PushBatchOp? || c.op.AckBatchOp?) && IsSurvivorList(e, c.op.survivors)
    ensures Step(cfg, e, c) == Outcome(e.(disk := c.op.survivors, spill := 0), [])
  {
    hide ShouldCompact, Admit, BatchItems, Settle, AckItems, CanAck, Seen;
    CompactsIff(cfg, e, c);
    match c.op
    case PushBatchOp(q, items, survivors) => IdlePushes(cfg, e, q, items, c.now);
    case AckBatchOp(q, acks, survivors) => IdleAcks(cfg, e, q, acks);
    case _ =>
  }

  /** Every other call appends what it logs. */
  lemma StepLogs(cfg: Config, e: Engine, c: Call)
    requires !Compacts(cfg, e, c)
    ensures Step(cfg, e, c).engine.disk == e.disk + Logs(cfg, e, c)
  {
    hide ShouldCompact, Admit, BatchItems, AckItems, CanAck, Seen, PageIn, NeedsPageIn, ClaimFrom, RouteAll, Expire;
    match c.op
    case PushOp(q, item) => AdmitShape(cfg, e, q, item, c.now);
    case PushBatchOp(q, items, _) => BatchLogs(cfg, e, q, items, c.now);
    case PollOp(_, _, _, _, _) => PollDisk(cfg, e, c);
    case AckOp(_, _) =>
      EmptyRight(e.disk);
    case AckBatchOp(q, acks, _) => AcksLog(cfg, e, q, acks);
  }

  lemma PollDisk(cfg: Config, e: Engine, c: Call)
    requires c.op.PollOp?
    ensures Step(cfg, e, c).engine.disk == e.disk + []
  {
    hide PageIn, NeedsPageIn, ClaimFrom, RouteAll, Expire;
    var i := ShardIdx(cfg, c.op.queue);
    var t := Expire(e.shards[i], c.now);
    RoutedKeeps(cfg, WithShard(e, i, t.shard), t.limbo, c.now);
    EmptyRight(e.disk);
  }

  /** What the calls from number `n` on log, in order. */
  ghost function LoggedSince(cfg: Config, calls: seq<Call>, n: nat): seq<WalRecord> {
    if |calls| <= n then []
    else
      var front, c := calls[..|calls| - 1], calls[|calls| - 1];
      LoggedSince(cfg, front, n) + Logs(cfg, Run(cfg, front).engine, c)
  }

  /** None of the calls from number `n` on is an idle batch at the end of a full segment. */
  ghost predicate Uncompacted(cfg: Config, calls: seq<Call>, n: nat) {
    |calls| <= n
    || (var front, c := calls[..|calls| - 1], calls[|calls| - 1];
        var e := Run(cfg, front).engine;
        Uncompacted(cfg, front, n) && !(IdleBatch(cfg, e, c) && ShouldCompact(cfg, e)))
  }

  /** Over any stretch of calls without an idle batch at the end of a full segment the log grows by
      every record that the pushes and accepted acks of the stretch log, in order, and loses none,
      however far past its limit the segment is. */
  lemma {:induction false} LogOnlyGrows(cfg: Config, calls: seq<Call>, n: nat)
    requires n <= |calls| && Uncompacted(cfg, calls, n)
    ensures Run(cfg, calls).engine.disk == Run(cfg, calls[..n]).engine.disk + LoggedSince(cfg, calls, n)
  {
    hide Step, Logs, IdleBatch, ShouldCompact;
    var start := Run(cfg, calls[..n]).engine.disk;
    if n == |calls| {
      assert calls[..n] == calls;
      EmptyRight(start);
    } else {
      var front, c := calls[..|calls| - 1], calls[|calls| - 1];
      var e := Run(cfg, front).engine;
      assert front[..n] == calls[..n];
      LogOnlyGrows(cfg, front, n);
      CompactsIff(cfg, e, c);
      StepLogs(cfg, e, c);
      Assoc(start, LoggedSince(cfg, front, n), Logs(cfg, e, c));
    }
  }

  /** And after an idle batch at the end of a full segment the log is exactly the survivors. */
  lemma CompactedLog(cfg: Config, home: Homes, calls: seq<Call>)
    requires AllowedRun(cfg, home, calls) && calls != []
    requires var e, c := Run(cfg, calls[..|calls| - 1]).engine, calls[|calls| - 1];
             IdleBatch(cfg, e, c) && ShouldCompact(cfg, e)
    ensures forall r :: r in Run(cfg, calls).engine.disk <==> SurvivesIn(Run(cfg, calls).engine, r)
    ensures Run(cfg, calls).engine.shards == Run(cfg, calls[..|calls| - 1]).engine.shards
            && Run(cfg, calls).engine.spill == 0
  {
    hide Step, Allowed, IdleBatch, ShouldCompact;
    var e, c := Run(cfg, calls[..|calls| - 1]).engine, calls[|calls| - 1];
    CompactsIff(cfg, e, c);
    CompactsTo(cfg, home, e, c);
    SurvivorsStay(e, Run(cfg, calls).engine, c.op.survivors);
  }

  lemma SurvivorsStay(e: Engine, e': Engine, survivors: seq<WalRecord>)
    requires IsSurvivorList(e, survivors) && e'.shards == e.shards
    ensures IsSurvivorList(e', survivors)
  {
    assert forall r :: SurvivesIn(e', r) <==> SurvivesIn(e, r);
  }
}
