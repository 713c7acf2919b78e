/** What `QueueEngine::open` rebuilds from the recovered records. */
module EngineOpen {
  import opened Basics
  import opened WalCodec
  import opened EngineSpec
  import opened EngineSteps
  import R = Recovery

  function Recover1(cfg: Config, e: Engine, r: WalRecord, now: nat): Engine {
    var i := ShardIdx(cfg, r.queue);
    var sh := e.shards[i];
    match r
    case Push(id, queue, visibleAt, payload) =>
      if e.total < cfg.cap then
        WithShard(e, i, Enqueue(Noted(sh, id), id, Msg(queue, payload, visibleAt, 0), now)).(total := e.total + 1)
      else WithShard(e, i, Noted(sh, id))
    case Ack(id, queue) =>
      var sh' := Tombstone(sh.(acked := sh.acked + {id}, messages := sh.messages - {id}), queue, id);
      var total := if id in sh.messages then (if e.total > 0 then e.total - 1 else 0) else e.total;
      WithShard(e, i, sh').(total := total)
  }

  /** The engine after replaying the recovered records into RAM. */
  function Recover(cfg: Config, log: seq<WalRecord>, now: nat): Engine {
    if log == [] then NewEngine() else Recover1(cfg, Recover(cfg, log[..|log| - 1], now), log[|log| - 1], now)
  }

  /** The records without the pushes that found the RAM full. */
  function Admitted(cfg: Config, log: seq<WalRecord>, now: nat): seq<WalRecord> {
    if log == [] then []
    else
      var front, r := log[..|log| - 1], log[|log| - 1];
      Admitted(cfg, front, now) + if r.Push? && cfg.cap <= Recover(cfg, front, now).total then [] else [r]
  }

  function Pushes(log: seq<WalRecord>): nat {
    if log == [] then 0 else Pushes(log[..|log| - 1]) + if log[|log| - 1].Push? then 1 else 0
  }

  /** Number of Push records of messages that are already live when they are replayed. */
  function Repeats(cfg: Config, log: seq<WalRecord>): nat {
    if log == [] then 0
    else
      var front, r := log[..|log| - 1], log[|log| - 1];
      Repeats(cfg, front) + if r.Push? && R.KeyOf(Sharding(cfg), r) in R.Live(Sharding(cfg), front) then 1 else 0
  }

  function Sharding(cfg: Config): R.Sharding {
    q => ShardIdx(cfg, q)
  }

  /** The messages in RAM are the live messages. */
  ghost predicate Mirrors(e: Engine, live: map<R.Key, R.Stored>) {
    && (forall k: R.Key :: k in live ==> k.shard < NUM_SHARDS)
    && (forall i, id :: 0 <= i < NUM_SHARDS ==> (id in e.shards[i].messages <==> R.Key(i, id) in live))
    && (forall i, id :: 0 <= i < NUM_SHARDS && id in e.shards[i].messages ==>
          var x := live[R.Key(i, id)]; e.shards[i].messages[id] == Msg(x.queue, x.payload, x.visibleAt, 0))
  }

  lemma RecoverMirrors(cfg: Config, e: Engine, live: map<R.Key, R.Stored>, r: WalRecord, now: nat)
    requires Mirrors(e, live) && (r.Push? ==> e.total < cfg.cap)
    ensures Mirrors(Recover1(cfg, e, r, now), R.ReplayOne(Sharding(cfg), live, r))
  {
    hide Mirrors, Recover1;
    RecoverShape(cfg, e, r, now);
    var i, e' := ShardIdx(cfg, r.queue), Recover1(cfg, e, r, now);
    if r.Push? {
      MirrorsPut(e, e', live, i, r.id, R.Stored(r.queue, r.visibleAt, r.payload));
    } else {
      MirrorsDrop(e, e', live, i, r.id);
    }
  }

  lemma RecoverShape(cfg: Config, e: Engine, r: WalRecord, now: nat)
    requires r.Push? ==> e.total < cfg.cap
    ensures var i, e' := ShardIdx(cfg, r.queue), Recover1(cfg, e, r, now);
            && e'.shards == e.shards[i := e'.shards[i]]
            && e'.shards[i].messages
               == if r.Push? then e.shards[i].messages[r.id := Msg(r.queue, r.payload, r.visibleAt, 0)]
                                        else e.shards[i].messages - {r.id}
  {
  }

  lemma MirrorsPut(e: Engine, e': Engine, live: map<R.Key, R.Stored>, i: nat, id: Id, x: R.Stored)
    requires Mirrors(e, live) && i < NUM_SHARDS && e'.shards == e.shards[i := e'.shards[i]]
    requires e'.shards[i].messages == e.shards[i].messages[id := Msg(x.queue, x.payload, x.visibleAt, 0)]
    ensures Mirrors(e', live[R.Key(i, id) := x])
  {
  }

  lemma MirrorsDrop(e: Engine, e': Engine, live: map<R.Key, R.Stored>, i: nat, id: Id)
    requires Mirrors(e, live) && i < NUM_SHARDS && e'.shards == e.shards[i := e'.shards[i]]
    requires e'.shards[i].messages == e.shards[i].messages - {id}
    ensures Mirrors(e', live - {R.Key(i, id)})
  {
  }

  lemma RecoverFull(cfg: Config, e: Engine, live: map<R.Key, R.Stored>, r: WalRecord, now: nat)
    requires Mirrors(e, live) && r.Push? && cfg.cap <= e.total
    ensures Mirrors(Recover1(cfg, e, r, now), live)
    ensures HotCount(Recover1(cfg, e, r, now).shards) == HotCount(e.shards) && Recover1(cfg, e, r, now).total == e.total
  {
    hide HotCount;
    HotCountUpdate(e.shards, ShardIdx(cfg, r.queue), Noted(ShardFor(cfg, e, r.queue), r.id));
  }

  /** For every log: a restart brings into RAM exactly the messages that replaying the log without the
      pushes that found the RAM full leaves live, each with its queue, payload and due time; and the
      counter exceeds them by the pushes admitted while their message was already in RAM. */
  lemma {:induction false} OpenIsReplay(cfg: Config, log: seq<WalRecord>, now: nat)
    ensures var e, admitted := Recover(cfg, log, now), Admitted(cfg, log, now);
            && Mirrors(e, R.Live(Sharding(cfg), admitted))
            && e.total == HotCount(e.shards) + Repeats(cfg, admitted)
  {
    hide Recover1, Mirrors, R.ReplayOne, HotCount;
    if log == [] {
      NewMirrors();
      NewCount(NUM_SHARDS);
    } else {
      var front, r := log[..|log| - 1], log[|log| - 1];
      var e, admitted := Recover(cfg, front, now), Admitted(cfg, front, now);
      OpenIsReplay(cfg, front, now);
      if r.Push? && cfg.cap <= e.total {
        RecoverFull(cfg, e, R.Live(Sharding(cfg), admitted), r, now);
        EmptyRight(admitted);
      } else {
        Snoc(admitted, r);
        RecoverMirrors(cfg, e, R.Live(Sharding(cfg), admitted), r, now);
        RecoverCount(cfg, e, r, now, Repeats(cfg, admitted));
        MirrorsKey(cfg, e, R.Live(Sharding(cfg), admitted), r);
      }
    }
  }

  lemma MirrorsKey(cfg: Config, e: Engine, live: map<R.Key, R.Stored>, r: WalRecord)
    requires Mirrors(e, live)
    ensures r.id in ShardFor(cfg, e, r.queue).messages <==> R.KeyOf(Sharding(cfg), r) in live
  {
  }

  lemma NewMirrors()
    ensures Mirrors(NewEngine(), map[])
  {
  }

  lemma RecoverCount(cfg: Config, e: Engine, r: WalRecord, now: nat, d: nat)
    requires e.total == HotCount(e.shards) + d && (r.Push? ==> e.total < cfg.cap)
    ensures var e', i := Recover1(cfg, e, r, now), ShardIdx(cfg, r.queue);
            e'.total == HotCount(e'.shards) + d + if r.Push? && r.id in e.shards[i].messages then 1 else 0
  {
    hide HotCount;
    var i, e' := ShardIdx(cfg, r.queue), Recover1(cfg, e, r, now);
    var m := e.shards[i].messages;
    HotCountUpdate(e.shards, i, e'.shards[i]);
    HotCountPart(e.shards, i);
    if r.Push? {
      assert e'.shards[i].messages.Keys == m.Keys + {r.id};
    } else {
      assert e'.shards[i].messages.Keys == m.Keys - {r.id};
    }
  }

  lemma {:induction false} HotCountPart(shards: seq<Shard>, i: nat)
    requires i < |shards|
    ensures |shards[i].messages| <= HotCount(shards)
  {
    if i < |shards| - 1 {
      HotCountPart(shards[..|shards| - 1], i);
    }
  }

  /** So RAM holds only live messages: one is missing if and only if every push of it since its last Ack
      found the RAM full. */
  lemma OpenWithinLive(cfg: Config, log: seq<WalRecord>, now: nat, i: nat, id: Id)
    requires i < NUM_SHARDS
    ensures id in Recover(cfg, log, now).shards[i].messages <==>
            exists n: nat :: R.Stands(Sharding(cfg), log, n, R.Key(i, id))
              && Recover(cfg, log[..n], now).total < cfg.cap
    ensures id in Recover(cfg, log, now).shards[i].messages ==> R.Key(i, id) in R.Live(Sharding(cfg), log)
  {
    hide Recover, R.Live, HotCount;
    OpenIsReplay(cfg, log, now);
    AdmittedLive(cfg, log, now, R.Key(i, id));
    R.LiveIff(Sharding(cfg), log, R.Key(i, id));
  }

  lemma {:induction false} AdmittedLive(cfg: Config, log: seq<WalRecord>, now: nat, k: R.Key)
    ensures k in R.Live(Sharding(cfg), Admitted(cfg, log, now)) <==>
            exists n: nat :: R.Stands(Sharding(cfg), log, n, k) && Recover(cfg, log[..n], now).total < cfg.cap
  {
    hide Recover;
    if log != [] {
      var front, r := log[..|log| - 1], log[|log| - 1];
      AdmittedLive(cfg, front, now, k);
      var admitted := Admitted(cfg, front, now);
      EmptyRight(admitted);
      Snoc(admitted, r);
      forall n: nat | n < |front|
        ensures front[..n] == log[..n]
        ensures R.Stands(Sharding(cfg), log, n, k)
                <==> R.Stands(Sharding(cfg), front, n, k) && (R.KeyOf(Sharding(cfg), r) == k ==> r.Push?)
      {
        R.StandsOn(Sharding(cfg), log, n, k);
      }
      assert log[..|front|] == front;
      if R.KeyOf(Sharding(cfg), r) == k && r.Push? {
        assert R.Stands(Sharding(cfg), log, |front|, k);
      }
      hide R.Stands;
      if k in R.Live(Sharding(cfg), admitted) && (R.KeyOf(Sharding(cfg), r) == k ==> r.Push?) {
        var n: nat :| R.Stands(Sharding(cfg), front, n, k) && Recover(cfg, front[..n], now).total < cfg.cap;
        StandsIn(Sharding(cfg), front, n, k);
        assert R.Stands(Sharding(cfg), log, n, k) && Recover(cfg, log[..n], now).total < cfg.cap;
      }
    }
  }

  lemma StandsIn(shardOf: R.Sharding, log: seq<WalRecord>, n: nat, k: R.Key)
    requires R.Stands(shardOf, log, n, k)
    ensures n < |log|
  {
  }

  lemma {:induction false} AllAdmitted(cfg: Config, log: seq<WalRecord>, now: nat)
    requires Pushes(log) <= cfg.cap
    ensures Admitted(cfg, log, now) == log && 0 <= Recover(cfg, log, now).total <= Pushes(log)
  {
    if log != [] {
      AllAdmitted(cfg, log[..|log| - 1], now);
      Unsnoc(log);
    }
  }

  /** If the log holds no more Push records than fit in RAM, the whole of it comes back. */
  lemma OpenBringsAll(cfg: Config, log: seq<WalRecord>, now: nat)
    requires Pushes(log) <= cfg.cap
    ensures Mirrors(Recover(cfg, log, now), R.Live(Sharding(cfg), log))
  {
    hide Mirrors, HotCount;
    AllAdmitted(cfg, log, now);
    OpenIsReplay(cfg, log, now);
  }

  /** Record `n` is a push that is admitted although its message is in RAM. */
  ghost predicate AdmittedAgain(cfg: Config, log: seq<WalRecord>, now: nat, n: nat) {
    n < |log| && log[n].Push? &&
    (var e := Recover(cfg, log[..n], now);
     e.total < cfg.cap && log[n].id in ShardFor(cfg, e, log[n].queue).messages)
  }

  /** The counter of messages in RAM is exact after a restart if and only if no push was admitted while
      its message was in RAM. A repeated `push_with_ulid` logs such a record. */
  lemma OpenCountsExactlyIff(cfg: Config, log: seq<WalRecord>, now: nat)
    ensures var e := Recover(cfg, log, now);
            e.total == HotCount(e.shards) <==> forall n: nat :: !AdmittedAgain(cfg, log, now, n)
  {
    hide Recover, HotCount, Mirrors;
    OpenIsReplay(cfg, log, now);
    NoRepeats(cfg, log, now);
  }

  lemma AgainBefore(cfg: Config, log: seq<WalRecord>, now: nat, n: nat)
    requires n + 1 < |log|
    ensures AdmittedAgain(cfg, log, now, n) <==> AdmittedAgain(cfg, log[..|log| - 1], now, n)
  {
    hide Recover;
    assert log[..|log| - 1][..n] == log[..n];
  }

  lemma AgainLast(cfg: Config, log: seq<WalRecord>, now: nat)
    requires log != []
    ensures var front, r := log[..|log| - 1], log[|log| - 1];
            AdmittedAgain(cfg, log, now, |front|) <==>
            && r.Push? && Recover(cfg, front, now).total < cfg.cap
            && R.KeyOf(Sharding(cfg), r) in R.Live(Sharding(cfg), Admitted(cfg, front, now))
  {
    hide Recover, R.Live, HotCount, Mirrors;
    var front, r := log[..|log| - 1], log[|log| - 1];
    OpenIsReplay(cfg, front, now);
    MirrorsKey(cfg, Recover(cfg, front, now), R.Live(Sharding(cfg), Admitted(cfg, front, now)), r);
  }

  lemma {:induction false} NoRepeats(cfg: Config, log: seq<WalRecord>, now: nat)
    ensures Repeats(cfg, Admitted(cfg, log, now)) == 0 <==> forall n: nat :: !AdmittedAgain(cfg, log, now, n)
  {
    hide R.Live, R.KeyOf, Recover, AdmittedAgain;
    AgainInLog(cfg, log, now);
    if log != [] {
      var front, r := log[..|log| - 1], log[|log| - 1];
      NoRepeats(cfg, front, now);
      AgainInLog(cfg, front, now);
      forall n: nat | n < |front|
        ensures AdmittedAgain(cfg, log, now, n) <==> AdmittedAgain(cfg, front, now, n)
      {
        AgainBefore(cfg, log, now, n);
      }
      AgainLast(cfg, log, now);
      EmptyRight(Admitted(cfg, front, now));
      Snoc(Admitted(cfg, front, now), r);
    }
  }

  lemma AgainInLog(cfg: Config, log: seq<WalRecord>, now: nat)
    ensures forall n: nat :: AdmittedAgain(cfg, log, now, n) ==> n < |log|
  {
  }
}
