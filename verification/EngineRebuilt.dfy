/** What a restart rebuilds besides the message map: marks, queue entries and their places. */
module EngineRebuilt {
  import opened Basics
  import opened WalCodec
  import opened EngineSpec
  import opened EngineOpen
  import Q = Queues
  import R = Recovery
  import W = Wheels

  // ---------------------------------------------------------------- marks

  /** The ids that the log pushes to queues of a shard ... */
  function PushIds(cfg: Config, log: seq<WalRecord>, i: nat): set<Id> {
    set r | r in log && r.Push? && ShardIdx(cfg, r.queue) == i :: r.id
  }

  /** ... and those it acknowledges there. */
  function AckIds(cfg: Config, log: seq<WalRecord>, i: nat): set<Id> {
    set r | r in log && r.Ack? && ShardIdx(cfg, r.queue) == i :: r.id
  }

  lemma MarksSnoc(cfg: Config, front: seq<WalRecord>, r: WalRecord, i: nat)
    ensures PushIds(cfg, front + [r], i)
            == PushIds(cfg, front, i) + if r.Push? && ShardIdx(cfg, r.queue) == i then {r.id} else {}
    ensures AckIds(cfg, front + [r], i)
            == AckIds(cfg, front, i) + if r.Ack? && ShardIdx(cfg, r.queue) == i then {r.id} else {}
  {
    assert forall x :: x in front + [r] <==> x in front || x == r;
  }

  /** For every log: after a restart each shard has seen exactly the ids that the log pushes to its queues,
      has marked exactly those it acknowledges there, and has no leases. */
  lemma {:induction false} OpenMarks(cfg: Config, log: seq<WalRecord>, now: nat, i: nat)
    requires i < NUM_SHARDS
    ensures var sh := Recover(cfg, log, now).shards[i];
            && sh.seen == PushIds(cfg, log, i) && sh.acked == AckIds(cfg, log, i)
            && sh.wheel == W.NewWheel(3600)
  {
    hide PushIds, AckIds, Q.Insert, Q.MarkDeleted, W.NewWheel;
    if log == [] {
      NoMarks(cfg, i);
    } else {
      var front, r := log[..|log| - 1], log[|log| - 1];
      OpenMarks(cfg, front, now, i);
      Unsnoc(log);
      MarksSnoc(cfg, front, r, i);
    }
  }

  lemma NoMarks(cfg: Config, i: nat)
    ensures PushIds(cfg, [], i) == {} && AckIds(cfg, [], i) == {}
  {
  }

  // ---------------------------------------------------------------- queues with at most one entry per id

  ghost predicate Single(q: Q.Queue) {
    && NoDup(q.ready)
    && (forall sec :: sec in q.buckets ==> NoDup(q.buckets[sec]))
    && (forall j, k :: 0 <= j < k < |q.far| ==> q.far[j].id != q.far[k].id)
    && (forall sec, id :: Q.InBucket(q, sec, id) ==> id !in q.ready && !Q.InFar(q, id))
    && (forall s, t, id :: Q.InBucket(q, s, id) && Q.InBucket(q, t, id) ==> s == t)
    && (forall id :: id in q.ready ==> !Q.InFar(q, id))
  }

  /** The queue has an entry of the message, and no tombstone for it. */
  ghost predicate Entry(q: Q.Queue, id: Id) {
    Q.Holds(q, id) && id !in q.deleted
  }

  /** The entry stands where its time says: ready, in the bucket of its second, or in the far list. */
  ghost predicate FiledFor(q: Q.Queue, id: Id, visibleAt: nat, now: nat) {
    if visibleAt <= now then id in q.ready
    else if visibleAt <= now + 300 then Q.InBucket(q, visibleAt, id)
    else Q.FarItem(id, visibleAt) in q.far
  }

  /** Only `id` changed between the two queues. */
  ghost predicate OthersKept(q: Q.Queue, q': Q.Queue, id: Id) {
    forall x :: x != id ==>
      && (x in q'.ready <==> x in q.ready)
      && (forall sec :: Q.InBucket(q', sec, x) <==> Q.InBucket(q, sec, x))
      && (forall v :: Q.FarItem(x, v) in q'.far <==> Q.FarItem(x, v) in q.far)
      && (x in q'.deleted <==> x in q.deleted)
  }

  lemma FarIff(q: Q.Queue, id: Id)
    ensures Q.InFar(q, id) <==> exists v :: Q.FarItem(id, v) in q.far
  {
    if Q.InFar(q, id) {
      var k :| 0 <= k < |q.far| && q.far[k].id == id;
      assert q.far[k] == Q.FarItem(id, q.far[k].visibleAt) && q.far[k] in q.far;
    }
    if exists v :: Q.FarItem(id, v) in q.far {
      var v :| Q.FarItem(id, v) in q.far;
      var k :| 0 <= k < |q.far| && q.far[k] == Q.FarItem(id, v);
      assert q.far[k].id == id;
    }
  }

  lemma KeptHolds(q: Q.Queue, q': Q.Queue, id: Id)
    requires OthersKept(q, q', id)
    ensures forall x :: x != id ==> (Q.Holds(q', x) <==> Q.Holds(q, x)) && (Entry(q', x) <==> Entry(q, x))
    ensures forall x, v: nat, now: nat :: x != id && FiledFor(q, x, v, now) ==> FiledFor(q', x, v, now)
  {
    forall x | x != id
      ensures (Q.Holds(q', x) <==> Q.Holds(q, x)) && (Entry(q', x) <==> Entry(q, x))
    {
      FarIff(q, x);
      FarIff(q', x);
    }
    forall x, v: nat, now: nat | x != id && FiledFor(q, x, v, now)
      ensures FiledFor(q', x, v, now)
    {
      assert (x in q'.ready <==> x in q.ready) && (Q.InBucket(q', v, x) <==> Q.InBucket(q, v, x));
      assert Q.FarItem(x, v) in q'.far <==> Q.FarItem(x, v) in q.far;
    }
  }

  lemma SingleInsert(q: Q.Queue, id: Id, visibleAt: nat, now: nat)
    requires Single(q) && !Q.Holds(q, id)
    ensures var q' := Q.Insert(q, id, visibleAt, now);
            Single(q') && OthersKept(q, q', id) && Entry(q', id) && FiledFor(q', id, visibleAt, now)
            && q'.lastDrained == q.lastDrained
  {
    if visibleAt <= now {
      InsertReady(q, id, visibleAt, now);
    } else if visibleAt <= now + Q.HORIZON {
      InsertBucket(q, id, visibleAt, now);
    } else {
      InsertFar(q, id, visibleAt, now);
    }
  }

  lemma InsertReady(q: Q.Queue, id: Id, visibleAt: nat, now: nat)
    requires Single(q) && !Q.Holds(q, id) && visibleAt <= now
    ensures var q' := Q.Insert(q, id, visibleAt, now);
            Single(q') && OthersKept(q, q', id) && Entry(q', id) && FiledFor(q', id, visibleAt, now)
  {
    var q' := Q.Insert(q, id, visibleAt, now);
    Q.NoDupSnoc(q.ready, id);
    assert forall sec, x :: Q.InBucket(q', sec, x) <==> Q.InBucket(q, sec, x);
    assert forall x :: Q.InFar(q', x) <==> Q.InFar(q, x);
  }

  lemma InsertBucket(q: Q.Queue, id: Id, visibleAt: nat, now: nat)
    requires Single(q) && !Q.Holds(q, id) && now < visibleAt <= now + Q.HORIZON
    ensures var q' := Q.Insert(q, id, visibleAt, now);
            Single(q') && OthersKept(q, q', id) && Entry(q', id) && FiledFor(q', id, visibleAt, now)
  {
    var q' := Q.Insert(q, id, visibleAt, now);
    assert !Q.InBucket(q, visibleAt, id);
    Q.NoDupSnoc(Q.Bucket(q.buckets, visibleAt), id);
    assert forall sec, x :: Q.InBucket(q', sec, x) <==> Q.InBucket(q, sec, x) || (sec == visibleAt && x == id);
    assert Q.InBucket(q', visibleAt, id);
    assert forall x :: Q.InFar(q', x) <==> Q.InFar(q, x);
  }

  lemma InsertFar(q: Q.Queue, id: Id, visibleAt: nat, now: nat)
    requires Single(q) && !Q.Holds(q, id) && now + Q.HORIZON < visibleAt
    ensures var q' := Q.Insert(q, id, visibleAt, now);
            Single(q') && OthersKept(q, q', id) && Entry(q', id) && FiledFor(q', id, visibleAt, now)
  {
    var q' := Q.Insert(q, id, visibleAt, now);
    assert forall sec, x :: Q.InBucket(q', sec, x) <==> Q.InBucket(q, sec, x);
    assert q'.far[|q.far|] == Q.FarItem(id, visibleAt);
    assert forall item :: item in q'.far <==> item in q.far || item == Q.FarItem(id, visibleAt);
    forall x
      ensures Q.InFar(q', x) <==> Q.InFar(q, x) || x == id
    {
      FarIff(q, x);
      FarIff(q', x);
    }
  }

  /** A tombstone removes the entry at the front or covers it. */
  lemma SingleMark(q: Q.Queue, id: Id)
    requires Single(q)
    ensures var q' := Q.MarkDeleted(q, id);
            && Single(q') && OthersKept(q, q', id) && !Entry(q', id) && (Q.Holds(q', id) ==> Q.Holds(q, id))
            && q'.lastDrained == q.lastDrained
  {
    var q' := Q.MarkDeleted(q, id);
    assert forall sec, x :: Q.InBucket(q', sec, x) <==> Q.InBucket(q, sec, x);
    assert forall x :: Q.InFar(q', x) <==> Q.InFar(q, x);
    if q.ready != [] && q.ready[0] == id {
      assert forall x :: x in q.ready <==> x == id || x in q.ready[1..];
    }
  }

  // ---------------------------------------------------------------- one shard

  /** Every queue has at most one entry per id, of ids the shard has seen, and every message has an entry in
      its own queue, without a tombstone, where its time says. */
  ghost predicate Filed(sh: Shard, now: nat) {
    && (forall name :: name in sh.queues ==> Single(sh.queues[name]) && sh.queues[name].lastDrained == now)
    && (forall name, id :: name in sh.queues && Q.Holds(sh.queues[name], id) ==> id in sh.seen)
    && (forall id :: id in sh.messages ==>
          var m := sh.messages[id];
          && m.queue in sh.queues && Entry(sh.queues[m.queue], id)
          && FiledFor(sh.queues[m.queue], id, m.visibleAt, now))
  }

  ghost predicate EntryIn(sh: Shard, name: string, id: Id) {
    name in sh.queues && Entry(sh.queues[name], id)
  }

  lemma NewQueueSingle(now: nat)
    ensures Single(Q.NewQueue(now)) && forall id :: !Q.Holds(Q.NewQueue(now), id)
  {
  }

  lemma FilePush(sh: Shard, id: Id, msg: Msg, now: nat)
    requires Filed(sh, now) && id !in sh.seen
    ensures var sh' := Enqueue(Noted(sh, id), id, msg, now);
            && Filed(sh', now)
            && (forall name, x :: EntryIn(sh', name, x) <==> EntryIn(sh, name, x) || (x == id && name == msg.queue))
  {
    hide Single, Entry, FiledFor, Q.Holds, Q.Insert, OthersKept, Q.NewQueue;
    var q, sh' := QueueOr(sh, msg.queue, now), Enqueue(Noted(sh, id), id, msg, now);
    NewQueueSingle(now);
    EmptyQueue(now);
    SingleInsert(q, id, msg.visibleAt, now);
    KeptHolds(q, sh'.queues[msg.queue], id);
    EntryHolds(q, id);
  }

  lemma EmptyQueue(now: nat)
    ensures Q.NewQueue(now).lastDrained == now && forall id :: !Entry(Q.NewQueue(now), id)
  {
  }

  lemma EntryHolds(q: Q.Queue, id: Id)
    ensures Entry(q, id) ==> Q.Holds(q, id)
  {
  }

  lemma FileAck(sh: Shard, name: string, id: Id, now: nat)
    requires Filed(sh, now)
    ensures var sh' := Tombstone(sh.(acked := sh.acked + {id}, messages := sh.messages - {id}), name, id);
            Filed(sh', now) && forall n, x :: EntryIn(sh', n, x) <==> EntryIn(sh, n, x) && !(x == id && n == name)
  {
    hide Single, Entry, FiledFor, Q.Holds, Q.MarkDeleted, OthersKept;
    var sh' := Tombstone(sh.(acked := sh.acked + {id}, messages := sh.messages - {id}), name, id);
    if name in sh.queues {
      SingleMark(sh.queues[name], id);
      KeptHolds(sh.queues[name], sh'.queues[name], id);
    }
  }

  lemma FileNoted(sh: Shard, id: Id, now: nat)
    requires Filed(sh, now)
    ensures Filed(Noted(sh, id), now) && forall n, x :: EntryIn(Noted(sh, id), n, x) <==> EntryIn(sh, n, x)
  {
    hide Single, Entry, FiledFor, Q.Holds;
  }

  // ---------------------------------------------------------------- the whole log

  /** No shard is pushed the same id twice. */
  ghost predicate PushesOnce(cfg: Config, log: seq<WalRecord>) {
    forall a, b :: 0 <= a < b < |log| && log[a].Push? && log[b].Push? ==>
      R.KeyOf(Sharding(cfg), log[a]) != R.KeyOf(Sharding(cfg), log[b])
  }

  /** Record `n` pushes `id` to queue `name` and no later Ack of it names that queue. */
  ghost predicate StandsIn(log: seq<WalRecord>, n: nat, name: string, id: Id) {
    && n < |log| && log[n].Push? && log[n].id == id && log[n].queue == name
    && forall j :: n < j < |log| ==> log[j] != WalRecord.Ack(id, name)
  }

  ghost predicate Admits(cfg: Config, log: seq<WalRecord>, now: nat, n: nat) {
    n <= |log| && Recover(cfg, log[..n], now).total < cfg.cap
  }

  ghost predicate ShouldFile(cfg: Config, log: seq<WalRecord>, now: nat, name: string, id: Id) {
    exists n: nat :: StandsIn(log, n, name, id) && Admits(cfg, log, now, n)
  }

  lemma ShouldFileSnoc(cfg: Config, log: seq<WalRecord>, now: nat, name: string, id: Id)
    requires log != []
    ensures var front, r := log[..|log| - 1], log[|log| - 1];
            ShouldFile(cfg, log, now, name, id) <==>
            || (ShouldFile(cfg, front, now, name, id) && r != WalRecord.Ack(id, name))
            || (r.Push? && r.id == id && r.queue == name && Recover(cfg, front, now).total < cfg.cap)
  {
    hide Recover;
    var front, r := log[..|log| - 1], log[|log| - 1];
    forall n: nat | n < |front|
      ensures StandsIn(log, n, name, id) <==> StandsIn(front, n, name, id) && r != WalRecord.Ack(id, name)
      ensures Admits(cfg, log, now, n) <==> Admits(cfg, front, now, n)
    {
      assert forall j :: 0 <= j < |front| ==> front[j] == log[j];
      assert front[..n] == log[..n];
      assert StandsIn(front, n, name, id) ==> forall j :: n < j < |front| ==> front[j] != WalRecord.Ack(id, name);
      assert StandsIn(log, n, name, id) ==> forall j :: n < j < |front| ==> log[j] != WalRecord.Ack(id, name);
    }
    assert log[..|front|] == front;
    if r.Push? && r.id == id && r.queue == name {
      assert StandsIn(log, |front|, name, id);
    }
    if ShouldFile(cfg, front, now, name, id) && r != WalRecord.Ack(id, name) {
      var n: nat :| StandsIn(front, n, name, id) && Admits(cfg, front, now, n);
      assert StandsIn(log, n, name, id) && Admits(cfg, log, now, n);
    }
    if ShouldFile(cfg, log, now, name, id) {
      var n: nat :| StandsIn(log, n, name, id) && Admits(cfg, log, now, n);
      if n < |front| {
        assert StandsIn(front, n, name, id) && Admits(cfg, front, now, n);
      }
    }
  }

  lemma OnceFront(cfg: Config, log: seq<WalRecord>)
    requires PushesOnce(cfg, log) && log != []
    ensures var front, r := log[..|log| - 1], log[|log| - 1];
            PushesOnce(cfg, front) && (r.Push? ==> r.id !in PushIds(cfg, front, ShardIdx(cfg, r.queue)))
  {
    var front, r := log[..|log| - 1], log[|log| - 1];
    if r.Push? {
      forall x | x in front && x.Push? && ShardIdx(cfg, x.queue) == ShardIdx(cfg, r.queue)
        ensures x.id != r.id
      {
        var a :| 0 <= a < |front| && front[a] == x;
        assert log[a] == x && R.KeyOf(Sharding(cfg), log[a]) != R.KeyOf(Sharding(cfg), log[|log| - 1]);
      }
    }
  }

  /** For every log that pushes no id twice to a shard: after a restart every message in RAM has exactly one
      entry, in its own queue, without a tombstone, and ready if it is due; and a queue has an untombstoned
      entry of an id if and only if some push of it to that queue found room and no later Ack names that
      queue. */
  lemma {:induction false} OpenFiles(cfg: Config, log: seq<WalRecord>, now: nat, i: nat)
    requires PushesOnce(cfg, log) && i < NUM_SHARDS
    ensures var sh := Recover(cfg, log, now).shards[i];
            && Filed(sh, now)
            && forall name, id ::
                 EntryIn(sh, name, id) <==> ShardIdx(cfg, name) == i && ShouldFile(cfg, log, now, name, id)
  {
    hide Filed, EntryIn, ShouldFile, PushesOnce, Enqueue, Tombstone, PushIds, AckIds;
    if log == [] {
      NothingFiled(cfg, now, i);
    } else {
      var front, r := log[..|log| - 1], log[|log| - 1];
      var e := Recover(cfg, front, now);
      var sh, sh' := e.shards[i], Recover(cfg, log, now).shards[i];
      OnceFront(cfg, log);
      OpenFiles(cfg, front, now, i);
      OpenMarks(cfg, front, now, i);
      if ShardIdx(cfg, r.queue) == i {
        if r.Ack? {
          FileAck(sh, r.queue, r.id, now);
        } else if e.total < cfg.cap {
          FilePush(sh, r.id, Msg(r.queue, r.payload, r.visibleAt, 0), now);
        } else {
          FileNoted(sh, r.id, now);
        }
      }
      forall name, id
        ensures EntryIn(sh', name, id) <==> ShardIdx(cfg, name) == i && ShouldFile(cfg, log, now, name, id)
      {
        ShouldFileSnoc(cfg, log, now, name, id);
      }
    }
  }

  lemma NothingFiled(cfg: Config, now: nat, i: nat)
    requires i < NUM_SHARDS
    ensures var sh := Recover(cfg, [], now).shards[i];
            Filed(sh, now) && forall name, id :: !EntryIn(sh, name, id) && !ShouldFile(cfg, [], now, name, id)
  {
  }

  /** Every Ack names the queue of the push it is about. */
  ghost predicate AcksMatch(cfg: Config, log: seq<WalRecord>) {
    forall a, b :: 0 <= a < b < |log| && log[a].Push? && log[b].Ack? ==>
      R.KeyOf(Sharding(cfg), log[a]) == R.KeyOf(Sharding(cfg), log[b]) ==> log[a].queue == log[b].queue
  }

  /** If moreover every Ack names the queue of its push, a message is in RAM if and only if a queue of the shard
      has an untombstoned entry of it. */
  lemma MessageIffEntry(cfg: Config, log: seq<WalRecord>, now: nat, i: nat, id: Id)
    requires PushesOnce(cfg, log) && AcksMatch(cfg, log) && i < NUM_SHARDS
    ensures var sh := Recover(cfg, log, now).shards[i];
            id in sh.messages <==> exists name :: EntryIn(sh, name, id)
  {
    hide Recover, Filed, EntryIn, PushesOnce;
    var sh, k := Recover(cfg, log, now).shards[i], R.Key(i, id);
    OpenWithinLive(cfg, log, now, i, id);
    OpenFiles(cfg, log, now, i);
    if id in sh.messages {
      var n: nat :| R.Stands(Sharding(cfg), log, n, k) && Recover(cfg, log[..n], now).total < cfg.cap;
      NotAckedLater(cfg, log, n, k);
      assert StandsIn(log, n, log[n].queue, id) && Admits(cfg, log, now, n);
      assert EntryIn(sh, log[n].queue, id);
    }
    if exists name :: EntryIn(sh, name, id) {
      var name :| EntryIn(sh, name, id);
      var n: nat :| StandsIn(log, n, name, id) && Admits(cfg, log, now, n);
      StandsByKey(cfg, log, n, name, id);
    }
  }

  lemma NotAckedLater(cfg: Config, log: seq<WalRecord>, n: nat, k: R.Key)
    requires R.Stands(Sharding(cfg), log, n, k)
    ensures StandsIn(log, n, log[n].queue, k.id)
  {
    forall j | n < j < |log|
      ensures log[j] != WalRecord.Ack(k.id, log[n].queue)
    {
      assert log[j] == WalRecord.Ack(k.id, log[n].queue) ==> R.KeyOf(Sharding(cfg), log[j]) == k;
    }
  }

  lemma StandsByKey(cfg: Config, log: seq<WalRecord>, n: nat, name: string, id: Id)
    requires AcksMatch(cfg, log) && StandsIn(log, n, name, id)
    ensures R.Stands(Sharding(cfg), log, n, R.Key(ShardIdx(cfg, name), id))
  {
    var k := R.Key(ShardIdx(cfg, name), id);
    forall j | n < j < |log| && R.KeyOf(Sharding(cfg), log[j]) == k
      ensures log[j].Push?
    {
      assert log[j] != WalRecord.Ack(id, name);
    }
  }
}
