/** What every step keeps true inside one shard. */
module ShardInv {
  import opened Basics
  import opened EngineSpec
  import Q = Queues
  import W = Wheels

  /** `id` should have an entry in queue `name`: it is hot there, not leased, and not among the ids
      that a poll has in its hands. */
  ghost predicate Waiting(sh: Shard, out: set<Id>, name: string, id: Id) {
    id in sh.messages && sh.messages[id].queue == name && id !in sh.wheel.index && id !in out
  }

  ghost predicate Exact(sh: Shard, out: set<Id>, name: string)
    requires name in sh.queues
  {
    && Q.Tidy(sh.queues[name])
    && forall id :: Q.Holds(sh.queues[name], id) <==> Waiting(sh, out, name, id)
  }

  /** Every hot message is in exactly one place: one entry in its own queue, one lease, or the hands
      of the poll in progress. */
  ghost predicate OnePlace(sh: Shard, out: set<Id>) {
    && W.Consistent(sh.wheel)
    && (forall id :: id in sh.wheel.index ==> id in sh.messages && id !in out)
    && (forall id :: id in out ==> id in sh.messages)
    && (forall name :: name in sh.queues ==> Exact(sh, out, name))
    && (forall id :: id in sh.messages && id !in sh.wheel.index && id !in out ==> sh.messages[id].queue in sh.queues)
  }

  lemma NewShardOnePlace()
    ensures OnePlace(NewShard(), {})
  {
    W.ConsistentNew(3600);
  }

  lemma NewQueueTidy(now: nat)
    ensures Q.Tidy(Q.NewQueue(now)) && forall id :: !Q.Holds(Q.NewQueue(now), id)
  {
  }

  /** Filing a message that was not hot. */
  lemma EnqueueOnePlace(sh: Shard, out: set<Id>, id: Id, msg: Msg, now: nat)
    requires OnePlace(sh, out) && id !in sh.messages && msg.visibleAt <= now + Q.HORIZON
    ensures OnePlace(Enqueue(sh, id, msg, now), out)
  {
    hide W.Consistent, Q.Tidy, Q.Holds, Q.Insert, Q.NewQueue;
    var q, sh' := QueueOr(sh, msg.queue, now), Enqueue(sh, id, msg, now);
    NewQueueTidy(now);
    assert Q.Tidy(q) && forall x :: Q.Holds(q, x) <==> Waiting(sh, out, msg.queue, x);
    Q.TidyInsert(q, id, msg.visibleAt, now);
    forall name | name in sh'.queues
      ensures Exact(sh', out, name)
    {
      if name != msg.queue {
        assert Exact(sh, out, name);
      }
    }
  }

  /** A tombstone for an id that is not hot changes nothing that matters. */
  lemma TombstoneOnePlace(sh: Shard, out: set<Id>, name: string, id: Id)
    requires OnePlace(sh, out) && id !in sh.messages
    ensures OnePlace(Tombstone(sh, name, id), out)
  {
    if name in sh.queues {
      var sh' := Tombstone(sh, name, id);
      assert Exact(sh, out, name);
      Q.TidyMarkDeleted(sh.queues[name], id);
      forall n | n in sh'.queues
        ensures Exact(sh', out, n)
      {
        assert Exact(sh, out, n);
      }
    }
  }

  /** A poll drops messages it holds. */
  lemma DropOnePlace(sh: Shard, out: set<Id>, ids: set<Id>)
    requires OnePlace(sh, out) && ids <= out
    ensures OnePlace(sh.(messages := sh.messages - ids), out - ids)
  {
    var sh' := sh.(messages := sh.messages - ids);
    forall n | n in sh'.queues
      ensures Exact(sh', out - ids, n)
    {
      assert Exact(sh, out, n);
      assert forall x :: Waiting(sh', out - ids, n, x) <==> Waiting(sh, out, n, x);
    }
  }

  /** Leases that end leave their messages in the hands of the poll. */
  lemma CollectOnePlace(sh: Shard, now: nat)
    requires OnePlace(sh, {})
    ensures var c := W.Collect(sh.wheel, now);
            OnePlace(sh.(wheel := c.wheel), W.IdsOf(c.expired))
  {
    var c := W.Collect(sh.wheel, now);
    W.ConsistentCollect(sh.wheel, now);
    var sh', ids := sh.(wheel := c.wheel), W.IdsOf(c.expired);
    assert forall id :: id in ids ==> id in sh.wheel.index;
    forall n | n in sh'.queues
      ensures Exact(sh', ids, n)
    {
      assert Exact(sh, {}, n);
      assert forall x :: Waiting(sh', ids, n, x) <==> Waiting(sh, {}, n, x);
    }
  }

  /** An acknowledged lease disappears together with its message. */
  lemma SettleOnePlace(sh: Shard, id: Id, receipt: Receipt)
    requires OnePlace(sh, {}) && W.Valid(sh.wheel, id, receipt)
    ensures OnePlace(sh.(wheel := W.RemoveIfValid(sh.wheel, id, receipt), messages := sh.messages - {id}), {})
  {
    W.ConsistentRemove(sh.wheel, id, receipt);
    UnleaseOnePlace(sh, W.RemoveIfValid(sh.wheel, id, receipt), id);
  }

  lemma UnleaseOnePlace(sh: Shard, w: W.Wheel, id: Id)
    requires OnePlace(sh, {}) && W.Consistent(w) && id in sh.wheel.index && w.index.Keys == sh.wheel.index.Keys - {id}
    ensures OnePlace(sh.(wheel := w, messages := sh.messages - {id}), {})
  {
    hide W.Consistent, Q.Tidy, Q.Holds;
    var sh' := sh.(wheel := w, messages := sh.messages - {id});
    forall n | n in sh'.queues
      ensures Exact(sh', {}, n)
    {
      assert Exact(sh, {}, n);
      assert forall x :: Waiting(sh', {}, n, x) <==> Waiting(sh, {}, n, x);
    }
  }

  /** Draining a queue moves entries within it. */
  lemma DrainOnePlace(sh: Shard, name: string, now: nat, secs: seq<nat>)
    requires OnePlace(sh, {}) && name in sh.queues && Q.IsDrainOrder(sh.queues[name], now, secs)
    ensures OnePlace(sh.(queues := sh.queues[name := Q.Drain(sh.queues[name], now, secs)]), {})
  {
    hide W.Consistent, Q.Tidy, Q.Holds, Q.Drain;
    var sh' := sh.(queues := sh.queues[name := Q.Drain(sh.queues[name], now, secs)]);
    assert Exact(sh, {}, name);
    Q.TidyDrain(sh.queues[name], now, secs);
    forall n | n in sh'.queues
      ensures Exact(sh', {}, n)
    {
      assert Exact(sh, {}, n);
      assert forall x :: Waiting(sh', {}, n, x) <==> Waiting(sh, {}, n, x);
    }
  }

  /** Popping takes the front entry into the hands of the poll. */
  lemma PopOnePlace(sh: Shard, out: set<Id>, name: string)
    requires OnePlace(sh, out) && name in sh.queues
    ensures var p := Q.PopReady(sh.queues[name]);
            var sh' := sh.(queues := sh.queues[name := p.queue]);
            match p.id
            case None => OnePlace(sh', out)
            case Some(id) => Waiting(sh, out, name, id) && OnePlace(sh', out + {id})
  {
    hide W.Consistent, Q.Tidy, Q.PopReady, Q.InBuckets, Q.InFar;
    var q := sh.queues[name];
    var p := Q.PopReady(q);
    var sh' := sh.(queues := sh.queues[name := p.queue]);
    assert Exact(sh, out, name);
    Q.TidyPop(q);
    var out' := match p.id case None => out case Some(id) => out + {id};
    if p.id.Some? {
      assert Q.Holds(q, p.id.value);
    }
    forall n | n in sh'.queues
      ensures Exact(sh', out', n)
    {
      assert Exact(sh, out, n);
    }
  }

  /** A claimed message goes on lease. */
  lemma LeaseOnePlace(sh: Shard, out: set<Id>, id: Id, l: Lease, receipt: Receipt)
    requires OnePlace(sh, out) && id in out
    ensures OnePlace(LeaseOne(sh, id, l, receipt).shard, out - {id})
  {
    hide W.Consistent, W.Insert, W.LeasesOf, Q.Tidy, Q.Holds;
    var sh' := LeaseOne(sh, id, l, receipt).shard;
    W.ConsistentInsert(sh.wheel, W.Item(id, l.queue, receipt, l.until));
    forall n | n in sh'.queues
      ensures Exact(sh', out - {id}, n)
    {
      assert Exact(sh, out, n);
      assert forall x :: Waiting(sh', out - {id}, n, x) <==> Waiting(sh, out, n, x);
    }
  }
}
