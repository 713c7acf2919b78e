/** What a restart brings back of the messages of a run: recovery replays the log that the run left. */
module EngineRestart {
  import opened Basics
  import opened WalCodec
  import opened EngineSpec
  import opened ShardInv
  import opened Books
  import opened EngineSteps
  import opened Lifecycle
  import opened EngineLife
  import opened EngineRuns
  import opened EngineCompaction
  import opened EngineTheorems
  import opened EngineNoLoss
  import opened EngineKept
  import opened EngineOpen
  import opened Framing
  import Q = Queues
  import R = Recovery

  /** Replaying the log brings the message back, in some shard. */
  ghost predicate Returns(cfg: Config, log: seq<WalRecord>, id: Id) {
    exists i: nat :: R.Key(i, id) in R.Live(Sharding(cfg), log)
  }

  ghost predicate NoAckOf(log: seq<WalRecord>, id: Id) {
    forall k :: 0 <= k < |log| && log[k].Ack? ==> log[k].id != id
  }

  lemma ReturnsLogged(cfg: Config, log: seq<WalRecord>, id: Id)
    ensures Returns(cfg, log, id) ==> Logged(log, id)
  {
    if Returns(cfg, log, id) {
      var i: nat :| R.Key(i, id) in R.Live(Sharding(cfg), log);
      R.LiveIff(Sharding(cfg), log, R.Key(i, id));
      var n: nat :| R.Stands(Sharding(cfg), log, n, R.Key(i, id));
      assert log[n].Push? && log[n].id == id;
    }
  }

  /** Without an Ack in the log any Push record brings the message back. */
  lemma UnackedReturns(cfg: Config, log: seq<WalRecord>, id: Id)
    requires NoAckOf(log, id)
    ensures Returns(cfg, log, id) <==> Logged(log, id)
  {
    ReturnsLogged(cfg, log, id);
    if Logged(log, id) {
      var n: nat :| n < |log| && log[n].Push? && log[n].id == id;
      var k := R.KeyOf(Sharding(cfg), log[n]);
      assert R.Stands(Sharding(cfg), log, n, k);
      R.LiveIff(Sharding(cfg), log, k);
      assert k == R.Key(k.shard, id);
    }
  }

  /** Acks are logged of finished messages only. */
  lemma UnfinishedNoAck(cfg: Config, home: Homes, e: Engine, id: Id, s: Status)
    requires Inv(cfg, home, e, []) && Has(cfg, home, e, [], id, s) && !s.Gone?
    ensures NoAckOf(e.disk, id)
  {
    hide OnePlace, HotCount, Until, SpotOk;
    var b := BookOf(cfg, e, []);
    HasHot(cfg, home, e, id, s);
    NotReturning(cfg, home, e, id, s);
    if s.Unseen? {
      NotSeenNotHot(cfg, home, b, id);
    }
    forall k | 0 <= k < |e.disk| && e.disk[k].Ack?
      ensures e.disk[k].id != id
    {
      assert RecordOk(cfg, home, b, b.disk[k]);
    }
  }

  lemma GoneSeen(cfg: Config, home: Homes, e: Engine, id: Id)
    requires Inv(cfg, home, e, []) && Has(cfg, home, e, [], id, Gone)
    ensures Seen(cfg, e, home(id), id) && !HotSomewhere(e, id)
  {
    hide OnePlace, HotCount, RecordOk, SpotOk;
    HotIff(cfg, home, e, id);
    var m := At(cfg, home(id), id);
    assert Mark(m.shard, id) in BookOf(cfg, e, []).acked;
    assert m in BookOf(cfg, e, []).seen;
  }

  // ---------------------------------------------------------------- acknowledged messages

  /** The call acknowledges the message. */
  ghost predicate AcksNow(cfg: Config, e: Engine, c: Call, id: Id) {
    match c.op
    case AckOp(q, a) => a.id == id && CanAck(cfg, e, q, a)
    case AckBatchOp(q, acks, _) => exists k :: 0 <= k < |acks| && acks[k].id == id && CanAck(cfg, e, q, acks[k])
    case _ => false
  }

  /** Some Push record of the message lies in another shard than an Ack under `queue`. */
  ghost predicate Elsewhere(cfg: Config, disk: seq<WalRecord>, queue: string, id: Id) {
    exists k :: 0 <= k < |disk| && disk[k].Push? && disk[k].id == id
      && ShardIdx(cfg, disk[k].queue) != ShardIdx(cfg, queue)
  }

  /** The log still brings the acknowledged message back: when it was acknowledged, some Push record of it
      lay in another shard, or a single push of it came after that; and no call has compacted the log
      since. */
  ghost predicate Stale(cfg: Config, calls: seq<Call>, id: Id) {
    |calls| > 0 &&
    (var front, c := calls[..|calls| - 1], calls[|calls| - 1];
     var e := Run(cfg, front).engine;
     StaleAfter(cfg, e, c, id, Stale(cfg, front, id)))
  }

  ghost predicate StaleAfter(cfg: Config, e: Engine, c: Call, id: Id, stale: bool) {
    !(IdleBatch(cfg, e, c) && ShouldCompact(cfg, e))
    && (if AcksNow(cfg, e, c, id) then Elsewhere(cfg, e.disk, c.op.queue, id) else Relogs(c, id) || stale)
  }

  lemma {:induction false} AckEvents(cfg: Config, e: Engine, queue: string, acks: seq<Receipted>, id: Id)
    requires HasAck(AckItems(cfg, e, queue, acks).events, id)
    ensures exists k :: 0 <= k < |acks| && acks[k].id == id && CanAck(cfg, e, queue, acks[k])
  {
    hide CanAck;
    if acks != [] {
      var front, a := acks[..|acks| - 1], acks[|acks| - 1];
      var before := AckItems(cfg, e, queue, front);
      AcksLeft(cfg, e, queue, front, a);
      if HasAck(before.events, id) {
        AckEvents(cfg, e, queue, front, id);
        var k :| 0 <= k < |front| && front[k].id == id && CanAck(cfg, e, queue, front[k]);
        assert acks[k] == front[k];
      } else {
        LastAck(before.events, AckOne(cfg, before.engine, queue, a).events, id);
        assert acks[|front|] == a;
      }
    }
  }

  lemma LastAck(a: seq<Event>, b: seq<Event>, id: Id)
    requires HasAck(a + b, id) && !HasAck(a, id)
    ensures HasAck(b, id)
  {
    var k :| 0 <= k < |a + b| && (a + b)[k].Acked? && (a + b)[k].id == id;
    assert b[k - |a|] == (a + b)[k];
  }

  lemma {:induction false} BatchNoAck(cfg: Config, e: Engine, queue: string, items: seq<Item>, now: nat, id: Id)
    ensures !HasAck(BatchItems(cfg, e, queue, items, now).events, id)
  {
    if items != [] {
      BatchNoAck(cfg, e, queue, items[..|items| - 1], now, id);
    }
  }

  lemma {:induction false} LeasesNoAck(sh: Shard, ids: seq<Id>, l: Lease, receipts: nat -> Receipt, id: Id)
    ensures !HasAck(LeaseAll(sh, ids, l, receipts).events, id)
  {
    if ids != [] {
      LeasesNoAck(sh, ids[..|ids| - 1], l, receipts, id);
    }
  }

  lemma PollNoAck(cfg: Config, e: Engine, c: Call, id: Id)
    requires c.op.PollOp?
    ensures !HasAck(Step(cfg, e, c).events, id)
  {
    hide ReadyToClaim, Q.Drain, Claim, LeaseAll, HasAck;
    var l := Lease(c.op.queue, c.now, c.now + Timeout(cfg, c.op.visibility));
    var sh := ShardFor(cfg, ReadyToClaim(cfg, e, l.queue, c.now, c.op.max), l.queue);
    NoAckInNone(id);
    if l.queue in sh.queues {
      var got := Claim(Q.Drain(sh.queues[l.queue], l.now, c.op.secs), c.op.max);
      LeasesNoAck(sh.(queues := sh.queues[l.queue := got.queue]), got.ids, l, c.op.receipts, id);
    }
  }

  lemma NoAckInNone(id: Id)
    ensures !HasAck([], id)
  {
  }

  lemma StepAcks(cfg: Config, e: Engine, c: Call, id: Id)
    ensures HasAck(Step(cfg, e, c).events, id) ==> AcksNow(cfg, e, c, id)
  {
    hide Poll, BatchItems, AckItems, CanAck;
    match c.op
    case PushOp(_, _) =>
    case PushBatchOp(q, items, _) => BatchNoAck(cfg, e, q, items, c.now, id);
    case PollOp(_, _, _, _, _) => PollNoAck(cfg, e, c, id);
    case AckOp(_, _) =>
    case AckBatchOp(q, acks, _) =>
      if HasAck(AckItems(cfg, e, q, acks).events, id) {
        AckEvents(cfg, e, q, acks, id);
      }
  }

  lemma {:induction false} GoneByAck(s: Status, events: seq<Event>, id: Id)
    requires FireAll(s, Project(events, id)).Gone?
    ensures s.Gone? || HasAck(events, id)
  {
    if events != [] {
      var front, last := events[..|events| - 1], events[|events| - 1];
      if last.id == id {
        assert Project(events, id) == Project(front, id) + [last];
        Snoc(Project(front, id), last);
        assert events[|events| - 1].Acked?;
      } else {
        EmptyRight(Project(front, id));
        GoneByAck(s, front, id);
        if HasAck(front, id) {
          var k :| 0 <= k < |front| && front[k].Acked? && front[k].id == id;
          assert events[k] == front[k];
        }
      }
    }
  }

  /** Nothing in `log` is about the message. */
  ghost predicate NothingOf(log: seq<WalRecord>, id: Id) {
    forall k :: 0 <= k < |log| ==> log[k].id != id
  }

  lemma {:induction false} FreshNothingOf(cfg: Config, e: Engine, queue: string, items: seq<Item>, now: nat, id: Id)
    requires Seen(cfg, e, queue, id) || forall k :: 0 <= k < |items| ==> items[k].id != id
    ensures NothingOf(Fresh(cfg, e, queue, items, now), id)
  {
    hide Seen;
    if items != [] {
      var front := items[..|items| - 1];
      assert forall k :: 0 <= k < |front| ==> front[k] == items[k];
      FreshNothingOf(cfg, e, queue, front, now, id);
    }
  }

  lemma {:induction false} AcceptedNothingOf(cfg: Config, e: Engine, queue: string, acks: seq<Receipted>, id: Id)
    requires forall k :: 0 <= k < |acks| && acks[k].id == id ==> !CanAck(cfg, e, queue, acks[k])
    ensures NothingOf(Accepted(cfg, e, queue, acks), id)
  {
    hide CanAck;
    if acks != [] {
      var front := acks[..|acks| - 1];
      assert forall k :: 0 <= k < |front| ==> front[k] == acks[k];
      AcceptedNothingOf(cfg, e, queue, front, id);
    }
  }

  /** A call that neither pushes nor acknowledges a seen message logs nothing about it. */
  lemma LogsNothingOf(cfg: Config, home: Homes, e: Engine, c: Call, id: Id)
    requires Seen(cfg, e, home(id), id) && Allowed(cfg, home, e, c) && !Relogs(c, id) && !AcksNow(cfg, e, c, id)
    ensures NothingOf(Logs(cfg, e, c), id)
  {
    hide Seen, CanAck, Fresh, Accepted, Lists;
    match c.op
    case PushOp(_, _) =>
    case PushBatchOp(q, items, _) => FreshNothingOf(cfg, e, q, items, c.now, id);
    case PollOp(_, _, _, _, _) =>
    case AckOp(_, _) =>
    case AckBatchOp(q, acks, _) => AcceptedNothingOf(cfg, e, q, acks, id);
  }

  lemma ReturnsSame(cfg: Config, log: seq<WalRecord>, more: seq<WalRecord>, id: Id)
    requires NothingOf(more, id)
    ensures Returns(cfg, log + more, id) <==> Returns(cfg, log, id)
  {
    var shardOf := Sharding(cfg);
    R.ReplaySplit(shardOf, map[], log, more);
    forall i: nat
      ensures R.Key(i, id) in R.Live(shardOf, log + more) <==> R.Key(i, id) in R.Live(shardOf, log)
    {
      R.ReplayLocal(shardOf, R.Live(shardOf, log), more, R.Key(i, id));
    }
  }

  lemma ReturnsPushed(cfg: Config, log: seq<WalRecord>, r: WalRecord)
    requires r.Push?
    ensures Returns(cfg, log + [r], r.id)
  {
    Snoc(log, r);
    var k := R.KeyOf(Sharding(cfg), r);
    assert R.Key(k.shard, r.id) in R.Live(Sharding(cfg), log + [r]);
  }

  /** `more` acknowledges the message, under `queue`, and pushes nothing. */
  ghost predicate OnlyAcks(more: seq<WalRecord>, queue: string) {
    forall k :: 0 <= k < |more| ==> more[k].Ack? && more[k].queue == queue
  }

  lemma ReturnsAcked(cfg: Config, log: seq<WalRecord>, more: seq<WalRecord>, queue: string, id: Id)
    requires NoAckOf(log, id) && OnlyAcks(more, queue) && WalRecord.Ack(id, queue) in more
    ensures Returns(cfg, log + more, id) <==> Elsewhere(cfg, log, queue, id)
  {
    var shardOf, all := Sharding(cfg), log + more;
    if Returns(cfg, all, id) {
      var i: nat :| R.Key(i, id) in R.Live(shardOf, all);
      R.LiveIff(shardOf, all, R.Key(i, id));
      var n: nat :| R.Stands(shardOf, all, n, R.Key(i, id));
      var m :| 0 <= m < |more| && more[m] == WalRecord.Ack(id, queue);
      assert all[|log| + m] == more[m];
      assert n < |log| && all[n] == log[n];
    }
    if Elsewhere(cfg, log, queue, id) {
      var n :| 0 <= n < |log| && log[n].Push? && log[n].id == id && ShardIdx(cfg, log[n].queue) != ShardIdx(cfg, queue);
      var k := R.Key(ShardIdx(cfg, log[n].queue), id);
      forall j | n < j < |all| && R.KeyOf(shardOf, all[j]) == k
        ensures all[j].Push?
      {
        assert j < |log| ==> all[j] == log[j];
      }
      assert all[n] == log[n];
      assert R.Stands(shardOf, all, n, k);
      R.LiveIff(shardOf, all, k);
    }
  }

  lemma {:induction false} AcceptedShape(cfg: Config, e: Engine, queue: string, acks: seq<Receipted>, id: Id)
    ensures OnlyAcks(Accepted(cfg, e, queue, acks), queue)
    ensures (exists k :: 0 <= k < |acks| && acks[k].id == id && CanAck(cfg, e, queue, acks[k])) ==>
              WalRecord.Ack(id, queue) in Accepted(cfg, e, queue, acks)
  {
    hide CanAck;
    if acks != [] {
      var front, a := acks[..|acks| - 1], acks[|acks| - 1];
      AcceptedShape(cfg, e, queue, front, id);
      assert forall k :: 0 <= k < |front| ==> front[k] == acks[k];
      assert a in front ==> exists k :: 0 <= k < |front| && front[k] == a;
    }
  }

  lemma AcksNowLogs(cfg: Config, e: Engine, c: Call, id: Id)
    requires AcksNow(cfg, e, c, id)
    ensures OnlyAcks(Logs(cfg, e, c), c.op.queue) && WalRecord.Ack(id, c.op.queue) in Logs(cfg, e, c)
  {
    hide CanAck, Accepted;
    if c.op.AckBatchOp? {
      AcceptedShape(cfg, e, c.op.queue, c.op.acks, id);
    }
  }

  lemma AcksNowLeased(cfg: Config, home: Homes, e: Engine, c: Call, id: Id, s: Status)
    requires Inv(cfg, home, e, []) && Has(cfg, home, e, [], id, s) && AcksNow(cfg, e, c, id)
    ensures s.OnLease?
  {
    hide Inv, Has, CanAck;
    if c.op.AckOp? {
      LeasedStatus(cfg, home, e, c.op.queue, c.op.ack, s);
    } else {
      var k :| 0 <= k < |c.op.acks| && c.op.acks[k].id == id && CanAck(cfg, e, c.op.queue, c.op.acks[k]);
      LeasedStatus(cfg, home, e, c.op.queue, c.op.acks[k], s);
    }
  }

  lemma StaleCompact(cfg: Config, home: Homes, e: Engine, c: Call, id: Id)
    requires Inv(cfg, home, e, []) && Has(cfg, home, e, [], id, Gone) && Allowed(cfg, home, e, c) && Compacts(cfg, e, c)
    ensures !Returns(cfg, Step(cfg, e, c).engine.disk, id)
  {
    hide Inv, Has, Step, Compacts, Allowed, Returns, Logged;
    CompactsTo(cfg, home, e, c);
    GoneSeen(cfg, home, e, id);
    SurvivorLogged(cfg, e, c.op.survivors, id);
    ReturnsLogged(cfg, c.op.survivors, id);
  }

  /** What a call does to whether an acknowledged message would come back. */
  lemma StaleStep(cfg: Config, home: Homes, e: Engine, c: Call, id: Id, s: Status, stale: bool) returns (s': Status)
    requires Inv(cfg, home, e, []) && Has(cfg, home, e, [], id, s) && Allowed(cfg, home, e, c)
    requires s.Gone? ==> (Returns(cfg, e.disk, id) <==> stale)
    ensures var e' := Step(cfg, e, c).engine;
            && Inv(cfg, home, e', []) && Has(cfg, home, e', [], id, s')
            && (s'.Gone? ==> (Returns(cfg, e'.disk, id) <==> StaleAfter(cfg, e, c, id, stale)))
  {
    hide Inv, Has, Step, Compacts, Returns, IdleBatch, ShouldCompact, Allowed, Project, FireAll, Accepts, Logs, AcksNow,
      Elsewhere, HasAck, Relogs, NothingOf, OnlyAcks, NoAckOf;
    var s1 := StepSound(cfg, home, e, c, id, s);
    var o := Step(cfg, e, c);
    s' := FireAll(s1, Project(o.events, id));
    CompactsIff(cfg, e, c);
    if s'.Gone? {
      GoneByAck(s1, o.events, id);
      StepAcks(cfg, e, c, id);
      if Compacts(cfg, e, c) {
        CompactsTo(cfg, home, e, c);
        NoAckInNone(id);
        StaleCompact(cfg, home, e, c, id);
      } else {
        StepLogs(cfg, e, c);
        if AcksNow(cfg, e, c, id) {
          AcksNowLeased(cfg, home, e, c, id, s);
          UnfinishedNoAck(cfg, home, e, id, s);
          AcksNowLogs(cfg, e, c, id);
          ReturnsAcked(cfg, e.disk, Logs(cfg, e, c), c.op.queue, id);
        } else {
          GoneSeen(cfg, home, e, id);
          StaleOn(cfg, home, e, c, id);
        }
      }
    }
  }

  lemma StaleOn(cfg: Config, home: Homes, e: Engine, c: Call, id: Id)
    requires Seen(cfg, e, home(id), id) && Allowed(cfg, home, e, c) && !AcksNow(cfg, e, c, id)
    ensures Returns(cfg, e.disk + Logs(cfg, e, c), id) <==> Relogs(c, id) || Returns(cfg, e.disk, id)
  {
    hide Returns, Allowed, AcksNow, Seen;
    if Relogs(c, id) {
      ReturnsPushed(cfg, e.disk, PushRecord(c.op.queue, c.op.item, c.now));
    } else {
      LogsNothingOf(cfg, home, e, c, id);
      ReturnsSame(cfg, e.disk, Logs(cfg, e, c), id);
    }
  }

  // ---------------------------------------------------------------- whole runs

  lemma {:induction false} RunStale(cfg: Config, home: Homes, calls: seq<Call>, id: Id) returns (s: Status)
    requires AllowedRun(cfg, home, calls)
    ensures var e := Run(cfg, calls).engine;
            && Inv(cfg, home, e, []) && Has(cfg, home, e, [], id, s)
            && (s.Gone? ==> (Returns(cfg, e.disk, id) <==> Stale(cfg, calls, id)))
  {
    hide Inv, Has, Step, Allowed, Returns, StaleAfter;
    if |calls| == 0 {
      NewInv(cfg, home);
      s := Unseen;
    } else {
      var front := calls[..|calls| - 1];
      s := RunStale(cfg, home, front, id);
      s := StaleStep(cfg, home, Run(cfg, front).engine, calls[|calls| - 1], id, s, Stale(cfg, front, id));
    }
  }

  /** For every run and every message it accepted: replaying the log that the run left brings the message
      back exactly when it should, that is, when it was not acknowledged, unless it was dropped; and an
      acknowledged message comes back exactly when it is stale. */
  lemma ReturnsIff(cfg: Config, home: Homes, calls: seq<Call>, k: nat)
    requires AllowedRun(cfg, home, calls)
    requires k < |RunEvents(cfg, calls)| && RunEvents(cfg, calls)[k].Stored?
    ensures var disk, events := Run(cfg, calls).engine.disk, RunEvents(cfg, calls);
            var id := events[k].id;
            Returns(cfg, disk, id) <==>
            if HasAck(events, id) then Stale(cfg, calls, id) else !Dropped(cfg, home, calls, id)
  {
    hide AllowedRun, Run, Inv, Has, Logged, HasAck, Dropped, Stale, Returns;
    var e, events := Run(cfg, calls).engine, RunEvents(cfg, calls);
    var id := events[k].id;
    var s := RunStale(cfg, home, calls, id);
    AckedIff(cfg, home, calls, k, s);
    if !s.Gone? {
      var t := RunKept(cfg, home, calls, id);
      SameKind(cfg, home, e, id, s, t);
      NotReturning(cfg, home, e, id, t);
      UnfinishedNoAck(cfg, home, e, id, s);
      UnackedReturns(cfg, e.disk, id);
    }
  }

  /** Whatever comes back comes back under a queue of its family. */
  lemma ReturnsInFamily(cfg: Config, home: Homes, calls: seq<Call>, k: R.Key)
    requires AllowedRun(cfg, home, calls) && k in R.Live(Sharding(cfg), Run(cfg, calls).engine.disk)
    ensures InFamily(home(k.id), R.Live(Sharding(cfg), Run(cfg, calls).engine.disk)[k].queue)
  {
    hide AllowedRun, Run, OnePlace, HotCount, Has, SpotOk;
    var e := Run(cfg, calls).engine;
    var s := RunLife(cfg, home, calls, k.id);
    R.LiveIff(Sharding(cfg), e.disk, k);
    var n: nat :| R.Stands(Sharding(cfg), e.disk, n, k) && R.Live(Sharding(cfg), e.disk)[k] == R.StoredOf(e.disk[n]);
    assert RecordOk(cfg, home, BookOf(cfg, e, []), BookOf(cfg, e, []).disk[n]);
  }

  // ---------------------------------------------------------------- crashes during compaction

  /** The records that a restart reads. */
  ghost function ReadBack(ctx: Context, s: R.Segments): seq<WalRecord>
    requires Progress(WalFormat(ctx))
  {
    DecodeAll(WalFormat(ctx), s.a) + DecodeAll(WalFormat(ctx), s.b)
  }

  /** Any crash point of a compaction reads back as the old log beside a part of the survivors, or as the
      survivors alone. */
  lemma CrashReads(ctx: Context, wasB: bool, disk: seq<WalRecord>, survivors: seq<WalRecord>,
                   s: R.Segments) returns (n: nat)
    requires AllFit(ctx.names, disk) && AllFit(ctx.names, survivors)
    requires R.CrashPoint(ctx, wasB, EncodeAll(WalFormat(ctx), disk), survivors, s)
    ensures Progress(WalFormat(ctx)) && n <= |survivors|
    ensures var read := ReadBack(ctx, s);
            read == disk + survivors[..n] || read == survivors[..n] + disk || read == survivors
  {
    hide Encode, Decode, DecodeAll, EncodeAll;
    var f := WalFormat(ctx);
    var copy, part := EncodeAll(f, survivors), R.Segment(s, !wasB);
    WalTornTail(ctx, disk, 0);
    WalTornTail(ctx, survivors, if |part| <= |copy| then |part| else 0);
    NothingDecoded(f);
    n := WholeWithin(f.size, survivors, |part|);
    R.EmptySides(survivors);
    if part <= copy {
      R.PrefixIs(part, copy);
    }
  }

  lemma UnackedBoth(cfg: Config, a: seq<WalRecord>, b: seq<WalRecord>, id: Id)
    requires NoAckOf(a, id) && NoAckOf(b, id)
    ensures Logged(a, id) || Logged(b, id) ==> Returns(cfg, a + b, id)
  {
    hide Logged, Returns;
    assert NoAckOf(a + b, id);
    UnackedReturns(cfg, a + b, id);
    LoggedMore(a, b, id);
  }

  lemma SurvivorsPush(e: Engine, survivors: seq<WalRecord>, n: nat, id: Id)
    requires IsSurvivorList(e, survivors) && n <= |survivors|
    ensures NoAckOf(survivors[..n], id) && NoAckOf(survivors, id)
  {
    forall k | 0 <= k < |survivors|
      ensures survivors[k].Push?
    {
      assert survivors[k] in survivors && SurvivesIn(e, survivors[k]);
    }
  }

  /** A message whose Push record is in the old log and in the survivors survives a crash at any point. */
  lemma CrashReturns(ctx: Context, cfg: Config, wasB: bool, e: Engine, survivors: seq<WalRecord>, s: R.Segments, id: Id)
    requires AllFit(ctx.names, e.disk) && AllFit(ctx.names, survivors) && IsSurvivorList(e, survivors)
    requires R.CrashPoint(ctx, wasB, EncodeAll(WalFormat(ctx), e.disk), survivors, s)
    requires NoAckOf(e.disk, id) && Logged(e.disk, id) && HotSomewhere(e, id)
    ensures Progress(WalFormat(ctx)) && Returns(cfg, ReadBack(ctx, s), id)
  {
    hide Logged, Returns, HotSomewhere, IsSurvivorList, AllFit, R.CrashPoint, ReadBack, NoAckOf;
    var n := CrashReads(ctx, wasB, e.disk, survivors, s);
    SurvivorsPush(e, survivors, n, id);
    SurvivorLogged(cfg, e, survivors, id);
    UnackedBoth(cfg, e.disk, survivors[..n], id);
    UnackedBoth(cfg, survivors[..n], e.disk, id);
    UnackedReturns(cfg, survivors, id);
  }

  /** For every run that ends in a compacting call, whichever segment was active: an accepted,
      unacknowledged message is recovered from every crash point of the compaction if and only if it was
      not cold. */
  lemma CrashKeepsIff(ctx: Context, cfg: Config, home: Homes, calls: seq<Call>, k: nat, wasB: bool)
    requires AllowedRun(cfg, home, calls) && 0 < |calls|
    requires Compacts(cfg, Run(cfg, calls[..|calls| - 1]).engine, calls[|calls| - 1])
    requires k < |RunEvents(cfg, calls)| && RunEvents(cfg, calls)[k].Stored?
    requires !HasAck(RunEvents(cfg, calls), RunEvents(cfg, calls)[k].id)
    requires AllFit(ctx.names, Run(cfg, calls[..|calls| - 1]).engine.disk)
             && AllFit(ctx.names, Run(cfg, calls).engine.disk)
    ensures Progress(WalFormat(ctx))
    ensures var disk, survivors := Run(cfg, calls[..|calls| - 1]).engine.disk, Run(cfg, calls).engine.disk;
            var id := RunEvents(cfg, calls)[k].id;
            (forall s :: R.CrashPoint(ctx, wasB, EncodeAll(WalFormat(ctx), disk), survivors, s) ==>
               Returns(cfg, ReadBack(ctx, s), id))
            <==> !IsCold(cfg, home, Run(cfg, calls).engine, id)
  {
    hide HasAck, Compacts, Allowed, Step, Inv, Has, Logged, IsCold, HotSomewhere, AllFit, Returns, ReadBack,
      R.CrashPoint, IsSurvivorList;
    var front, c := calls[..|calls| - 1], calls[|calls| - 1];
    var e, e', id := Run(cfg, front).engine, Run(cfg, calls).engine, RunEvents(cfg, calls)[k].id;
    WalProgress(ctx);
    CompactsTo(cfg, home, e, c);
    var s := RunKept(cfg, home, front, id);
    UnackedBefore(cfg, home, calls, k, s);
    if IsCold(cfg, home, e', id) {
      ColdNotHot(cfg, home, e', id);
      SurvivorsStay(e, e', c.op.survivors);
      SurvivorLogged(cfg, e', e'.disk, id);
      ReturnsLogged(cfg, e'.disk, id);
      var done := CopyDone(ctx, wasB, EncodeAll(WalFormat(ctx), e.disk), e'.disk);
      assert !Returns(cfg, ReadBack(ctx, done), id);
    } else {
      forall s | R.CrashPoint(ctx, wasB, EncodeAll(WalFormat(ctx), e.disk), e'.disk, s)
        ensures Returns(cfg, ReadBack(ctx, s), id)
      {
        CrashReturns(ctx, cfg, wasB, e, e'.disk, s, id);
      }
    }
  }

  lemma ColdNotHot(cfg: Config, home: Homes, e: Engine, id: Id)
    requires IsCold(cfg, home, e, id)
    ensures !HotSomewhere(e, id)
  {
  }

  /** The last crash point: only the survivors are left. */
  lemma CopyDone(ctx: Context, wasB: bool, old_: Bytes, survivors: seq<WalRecord>) returns (done: R.Segments)
    requires AllFit(ctx.names, survivors)
    ensures Progress(WalFormat(ctx))
    ensures R.CrashPoint(ctx, wasB, old_, survivors, done) && ReadBack(ctx, done) == survivors
  {
    hide Encode, Decode, DecodeAll, EncodeAll;
    var f := WalFormat(ctx);
    WalProgress(ctx);
    done := R.WithSegment(R.Segments([], []), !wasB, EncodeAll(f, survivors));
    WalTornTail(ctx, survivors, 0);
    NothingDecoded(f);
    R.EmptySides(survivors);
  }

  /** Before the compacting call the message was unacknowledged too: logged, and hot unless it is cold. */
  lemma UnackedBefore(cfg: Config, home: Homes, calls: seq<Call>, k: nat, s: Status)
    requires AllowedRun(cfg, home, calls) && 0 < |calls|
    requires Compacts(cfg, Run(cfg, calls[..|calls| - 1]).engine, calls[|calls| - 1])
    requires k < |RunEvents(cfg, calls)| && RunEvents(cfg, calls)[k].Stored?
    requires !HasAck(RunEvents(cfg, calls), RunEvents(cfg, calls)[k].id)
    requires var front, id := calls[..|calls| - 1], RunEvents(cfg, calls)[k].id;
             var e := Run(cfg, front).engine;
             Inv(cfg, home, e, []) && Has(cfg, home, e, [], id, s) && Kept(e, id, s, Dropped(cfg, home, front, id))
    ensures var e, e', id := Run(cfg, calls[..|calls| - 1]).engine, Run(cfg, calls).engine, RunEvents(cfg, calls)[k].id;
            && NoAckOf(e.disk, id)
            && (!IsCold(cfg, home, e', id) ==> Logged(e.disk, id) && HotSomewhere(e, id))
  {
    hide HasAck, Compacts, Allowed, Step, Inv, Has, Logged, IsCold, HotSomewhere, NoAckOf, Dropped, IsSurvivorList;
    var e, e', id := Run(cfg, calls[..|calls| - 1]).engine, Run(cfg, calls).engine, RunEvents(cfg, calls)[k].id;
    CompactsTo(cfg, home, e, calls[|calls| - 1]);
    DiskLife(cfg, home, e, e', [], id, s);
    var t := RunLife(cfg, home, calls, id);
    AckedIff(cfg, home, calls, k, s);
    StatusCold(cfg, home, e', id, s);
    StatusHot(cfg, home, e, id, s);
    NotReturning(cfg, home, e, id, s);
    UnfinishedNoAck(cfg, home, e, id, s);
  }

  // ---------------------------------------------------------------- counting after a restart

  /** The counter goes wrong in an ordinary run: after the same message was pushed twice a restart counts
      two messages although one is in RAM. */
  lemma RepeatedPushMiscounts(cfg: Config, home: Homes, item: Item, now: nat, later: nat) returns (calls: seq<Call>)
    requires 2 <= cfg.cap
    ensures AllowedRun(cfg, home, calls)
    ensures var e := Recover(cfg, Run(cfg, calls).engine.disk, later);
            e.total == 2 && HotCount(e.shards) == 1
  {
    hide Run, AllowedRun, HotCount, Recover, R.Live;
    var q, c := home(item.id), Call(now, PushOp(home(item.id), item));
    var r := PushRecord(q, item, now);
    NewRun(cfg, home);
    OneMore(cfg, home, [], c);
    OneMore(cfg, home, [] + [c], c);
    calls := [] + [c] + [c];
    PushLogs(cfg, NewEngine(), c, r);
    PushLogs(cfg, Run(cfg, [] + [c]).engine, c, r);
    assert [] + [r] + [r] == [r, r];
    OpenIsReplay(cfg, [r, r], later);
    TwicePushed(cfg, r, later);
  }

  lemma NewRun(cfg: Config, home: Homes)
    ensures Run(cfg, []).engine == NewEngine() && RunEvents(cfg, []) == [] && AllowedRun(cfg, home, [])
  {
  }

  lemma PushLogs(cfg: Config, e: Engine, c: Call, r: WalRecord)
    requires c.op.PushOp? && r == PushRecord(c.op.queue, c.op.item, c.now)
    ensures Step(cfg, e, c).engine.disk == e.disk + [r]
  {
    hide Admit;
    AdmitShape(cfg, e, c.op.queue, c.op.item, c.now);
  }

  lemma NothingRead(cfg: Config, now: nat)
    ensures Recover(cfg, [], now).total == 0 && Admitted(cfg, [], now) == [] && Repeats(cfg, []) == 0
  {
  }

  lemma OneRead(cfg: Config, log: seq<WalRecord>, r: WalRecord, now: nat)
    requires r.Push? && Recover(cfg, log, now).total < cfg.cap
    ensures Recover(cfg, log + [r], now).total == Recover(cfg, log, now).total + 1
    ensures Admitted(cfg, log + [r], now) == Admitted(cfg, log, now) + [r]
  {
    hide Enqueue;
    Snoc(log, r);
  }

  lemma OneCounted(cfg: Config, log: seq<WalRecord>, r: WalRecord)
    requires r.Push?
    ensures Repeats(cfg, log + [r])
            == Repeats(cfg, log) + if R.KeyOf(Sharding(cfg), r) in R.Live(Sharding(cfg), log) then 1 else 0
  {
    hide R.Live;
    Snoc(log, r);
  }

  lemma LiveOne(cfg: Config, r: WalRecord)
    requires r.Push?
    ensures R.Live(Sharding(cfg), []) == map[] && R.KeyOf(Sharding(cfg), r) in R.Live(Sharding(cfg), [r])
  {
    assert [r][..0] == [];
  }

  lemma TwicePushed(cfg: Config, r: WalRecord, now: nat)
    requires 2 <= cfg.cap && r.Push?
    ensures Recover(cfg, [r, r], now).total == 2 && Repeats(cfg, Admitted(cfg, [r, r], now)) == 1
  {
    hide Recover, Admitted, Repeats, R.Live;
    assert [] + [r] == [r] && [r] + [r] == [r, r];
    NothingRead(cfg, now);
    OneRead(cfg, [], r, now);
    OneRead(cfg, [r], r, now);
    LiveOne(cfg, r);
    OneCounted(cfg, [], r);
    OneCounted(cfg, [r], r);
  }
}
