/** Every elementary step of the engine keeps the invariant of the whole engine. */
module EngineSteps {
  import opened Basics
  import opened WalCodec
  import opened EngineSpec
  import opened ShardInv
  import opened Books
  import Q = Queues
  import W = Wheels

  // ---------------------------------------------------------------- the invariant

  ghost predicate InLimbo(limbo: seq<Limbo>, s: Spot) {
    exists k :: 0 <= k < |limbo| && limbo[k].id == s.id && limbo[k].msg.queue == s.queue
  }

  ghost predicate InRam(cfg: Config, e: Engine, s: Spot) {
    var m := ShardFor(cfg, e, s.queue).messages;
    s.id in m && m[s.id].queue == s.queue
  }

  ghost function SpotsOf(cfg: Config, e: Engine, limbo: seq<Limbo>): iset<Spot> {
    iset s | InRam(cfg, e, s) || InLimbo(limbo, s)
  }

  ghost function AckedOf(e: Engine): iset<Mark> {
    iset m: Mark | m.shard < NUM_SHARDS && m.id in e.shards[m.shard].acked
  }

  ghost function SeenOf(e: Engine): iset<Mark> {
    iset m: Mark | m.shard < NUM_SHARDS && m.id in e.shards[m.shard].seen
  }

  ghost function BookOf(cfg: Config, e: Engine, limbo: seq<Limbo>): Book {
    Book(SpotsOf(cfg, e, limbo), AckedOf(e), SeenOf(e), e.disk)
  }

  /** Number of messages in the maps of the first `n` shards. */
  function HotCount(shards: seq<Shard>): nat {
    if shards == [] then 0 else HotCount(shards[..|shards| - 1]) + |shards[|shards| - 1].messages|
  }

  lemma {:induction false} HotCountUpdate(shards: seq<Shard>, i: nat, sh: Shard)
    requires i < |shards|
    ensures HotCount(shards[i := sh]) == HotCount(shards) - |shards[i].messages| + |sh.messages|
  {
    var n := |shards| - 1;
    if i < n {
      HotCountUpdate(shards[..n], i, sh);
      assert shards[i := sh][..n] == shards[..n][i := sh];
    } else {
      assert shards[i := sh][..n] == shards[..n];
    }
  }

  lemma {:induction false} NewCount(n: nat)
    ensures HotCount(seq(n, _ => NewShard())) == 0
  {
    if n > 0 {
      NewCount(n - 1);
      assert seq(n, _ => NewShard())[..n - 1] == seq(n - 1, _ => NewShard());
    }
  }

  ghost predicate InOwnShard(cfg: Config, i: nat, sh: Shard) {
    forall id :: id in sh.messages ==> ShardIdx(cfg, sh.messages[id].queue) == i
  }

  /** Messages on their way back to a queue are in no shard, each once. */
  ghost predicate Apart(e: Engine, limbo: seq<Limbo>) {
    && (forall j, k :: 0 <= j < k < |limbo| ==> limbo[j].id != limbo[k].id)
    && (forall i, k :: 0 <= i < NUM_SHARDS && 0 <= k < |limbo| ==> limbo[k].id !in e.shards[i].messages)
  }

  ghost predicate Inv(cfg: Config, home: Homes, e: Engine, limbo: seq<Limbo>) {
    && (forall i :: 0 <= i < NUM_SHARDS ==> OnePlace(e.shards[i], {}))
    && (forall i :: 0 <= i < NUM_SHARDS ==> InOwnShard(cfg, i, e.shards[i]))
    && Apart(e, limbo)
    && Balanced(cfg, home, BookOf(cfg, e, limbo))
    && e.total == HotCount(e.shards) + |limbo|
  }

  /** A hot message is hot in one shard only. */
  lemma HotOnce(cfg: Config, home: Homes, e: Engine, limbo: seq<Limbo>, i: nat, j: nat, id: Id)
    requires Inv(cfg, home, e, limbo) && i < NUM_SHARDS && j < NUM_SHARDS
    requires id in e.shards[i].messages && id in e.shards[j].messages
    ensures i == j
  {
    hide OnePlace, RecordOk, HotCount;
    var p, q := e.shards[i].messages[id].queue, e.shards[j].messages[id].queue;
    assert InRam(cfg, e, Spot(id, p)) && InRam(cfg, e, Spot(id, q));
    assert SpotOk(cfg, home, BookOf(cfg, e, limbo), id, p);
  }

  /** Replacing one shard: what remains to be shown of the new state. */
  lemma Assemble(cfg: Config, home: Homes, e: Engine, limbo: seq<Limbo>, e': Engine, i: nat, sh: Shard,
                 limbo': seq<Limbo>)
    requires Inv(cfg, home, e, limbo) && i < NUM_SHARDS && e'.shards == e.shards[i := sh]
    requires OnePlace(sh, {}) && InOwnShard(cfg, i, sh) && Apart(e', limbo')
    requires Balanced(cfg, home, BookOf(cfg, e', limbo'))
    requires e'.total - |limbo'| - |sh.messages| == e.total - |limbo| - |e.shards[i].messages|
    ensures Inv(cfg, home, e', limbo')
  {
    hide Balanced, OnePlace, InOwnShard, BookOf;
    HotCountUpdate(e.shards, i, sh);
  }

  // ---------------------------------------------------------------- steps that only touch queues and leases

  /** Changing how a shard holds its messages does not change the book. */
  lemma SameBook(cfg: Config, e: Engine, i: nat, sh: Shard, limbo: seq<Limbo>)
    requires i < NUM_SHARDS
    requires sh.acked == e.shards[i].acked && sh.seen == e.shards[i].seen
    requires sh.messages.Keys == e.shards[i].messages.Keys
    requires forall id :: id in sh.messages ==> sh.messages[id].queue == e.shards[i].messages[id].queue
    ensures BookOf(cfg, WithShard(e, i, sh), limbo) == BookOf(cfg, e, limbo)
  {
    var e' := WithShard(e, i, sh);
    assert forall s :: InRam(cfg, e', s) <==> InRam(cfg, e, s);
    assert SpotsOf(cfg, e', limbo) == SpotsOf(cfg, e, limbo);
    assert AckedOf(e') == AckedOf(e) && SeenOf(e') == SeenOf(e);
  }

  lemma RearrangeInv(cfg: Config, home: Homes, e: Engine, i: nat, sh: Shard)
    requires Inv(cfg, home, e, []) && i < NUM_SHARDS && OnePlace(sh, {})
    requires sh.acked == e.shards[i].acked && sh.seen == e.shards[i].seen
    requires sh.messages.Keys == e.shards[i].messages.Keys
    requires forall id :: id in sh.messages ==> sh.messages[id].queue == e.shards[i].messages[id].queue
    ensures Inv(cfg, home, WithShard(e, i, sh), [])
    ensures BookOf(cfg, WithShard(e, i, sh), []) == BookOf(cfg, e, [])
  {
    hide Balanced, OnePlace, BookOf, HotCount;
    SameBook(cfg, e, i, sh, []);
    HotCountUpdate(e.shards, i, sh);
    assert |sh.messages| == |sh.messages.Keys| == |e.shards[i].messages.Keys|;
  }

  // ---------------------------------------------------------------- push

  lemma DuplicateInv(cfg: Config, home: Homes, e: Engine, r: WalRecord)
    requires Inv(cfg, home, e, []) && r.Push? && r.queue == home(r.id) && Seen(cfg, e, r.queue, r.id)
    ensures Inv(cfg, home, Log(e, r), [])
  {
    var b := BookOf(cfg, e, []);
    BalancedDuplicate(cfg, home, b, r);
    assert forall s :: InRam(cfg, Log(e, r), s) <==> InRam(cfg, e, s);
    assert SpotsOf(cfg, Log(e, r), []) == b.at;
    assert BookOf(cfg, Log(e, r), []) == b.(disk := b.disk + [r]);
  }

  /** The book after one message was added to, or only noted in, a shard. */
  lemma AddBook(cfg: Config, e: Engine, queue: string, id: Id, sh: Shard, added: bool)
    requires Adds(ShardFor(cfg, e, queue), sh, queue, id, added)
    ensures var b := BookOf(cfg, e, []);
            BookOf(cfg, WithShard(e, ShardIdx(cfg, queue), sh), [])
            == b.(seen := b.seen + iset{At(cfg, queue, id)},
                  at := if added then b.at + iset{Spot(id, queue)} else b.at)
  {
    var b, e' := BookOf(cfg, e, []), WithShard(e, ShardIdx(cfg, queue), sh);
    assert AckedOf(e') == b.acked;
    assert SeenOf(e') == b.seen + iset{At(cfg, queue, id)};
    assert forall s :: InRam(cfg, e', s) <==> InRam(cfg, e, s) || (added && s == Spot(id, queue));
    assert SpotsOf(cfg, e', []) == if added then b.at + iset{Spot(id, queue)} else b.at;
  }

  lemma SeenOnePlace(sh: Shard, id: Id)
    requires OnePlace(sh, {})
    ensures OnePlace(sh.(seen := sh.seen + {id}), {})
  {
    var sh' := sh.(seen := sh.seen + {id});
    forall name | name in sh'.queues
      ensures Exact(sh', {}, name)
    {
      assert Exact(sh, {}, name);
      assert forall x :: Waiting(sh', {}, name, x) <==> Waiting(sh, {}, name, x);
    }
  }

  /** `sh` is `was` with `id` noted as seen and, when `added`, also hot in `queue`. */
  ghost predicate Adds(was: Shard, sh: Shard, queue: string, id: Id, added: bool) {
    && sh.acked == was.acked && sh.seen == was.seen + {id}
    && (forall x :: x in was.messages ==> x in sh.messages && sh.messages[x] == was.messages[x])
    && (if added then
          id !in was.messages && sh.messages.Keys == was.messages.Keys + {id} && sh.messages[id].queue == queue
        else sh.messages == was.messages)
  }

  lemma AddsCount(was: Shard, sh: Shard, queue: string, id: Id, added: bool)
    requires Adds(was, sh, queue, id, added)
    ensures |sh.messages| == |was.messages| + if added then 1 else 0
  {
    if added {
      assert |sh.messages.Keys| == |was.messages.Keys + {id}| == |was.messages.Keys| + 1;
    }
  }

  lemma AddsOwn(cfg: Config, was: Shard, sh: Shard, queue: string, id: Id, added: bool)
    requires Adds(was, sh, queue, id, added) && InOwnShard(cfg, ShardIdx(cfg, queue), was)
    ensures InOwnShard(cfg, ShardIdx(cfg, queue), sh)
  {
  }

  lemma StoreBook(cfg: Config, home: Homes, e: Engine, e': Engine, r: WalRecord, sh: Shard, added: bool)
    requires r.queue == home(r.id) && Adds(ShardFor(cfg, e, r.queue), sh, r.queue, r.id, added)
    requires e'.shards == e.shards[ShardIdx(cfg, r.queue) := sh] && e'.disk == e.disk + [r]
    ensures BookOf(cfg, e', []) == AfterStore(cfg, home, BookOf(cfg, e, []), r.id, added).(disk := e.disk + [r])
  {
    AddBook(cfg, e, r.queue, r.id, sh, added);
    BookDisk(cfg, WithShard(e, ShardIdx(cfg, r.queue), sh), e', []);
  }

  lemma StoreInv(cfg: Config, home: Homes, e: Engine, e': Engine, r: WalRecord, sh: Shard, added: bool)
    requires Inv(cfg, home, e, []) && r.Push? && r.queue == home(r.id) && !Seen(cfg, e, r.queue, r.id)
    requires Adds(ShardFor(cfg, e, r.queue), sh, r.queue, r.id, added) && OnePlace(sh, {})
    requires e'.shards == e.shards[ShardIdx(cfg, r.queue) := sh] && e'.disk == e.disk + [r]
    requires e'.total == e.total + if added then 1 else 0
    ensures Inv(cfg, home, e', [])
  {
    hide Balanced, OnePlace, HotCount, InOwnShard, Adds;
    assert Balanced(cfg, home, BookOf(cfg, e', [])) by {
      BalancedStore(cfg, home, BookOf(cfg, e, []), r, added);
      StoreBook(cfg, home, e, e', r, sh, added);
    }
    AddsCount(ShardFor(cfg, e, r.queue), sh, r.queue, r.id, added);
    AddsOwn(cfg, ShardFor(cfg, e, r.queue), sh, r.queue, r.id, added);
    Assemble(cfg, home, e, [], e', ShardIdx(cfg, r.queue), sh, []);
  }

  /** Noting and filing a message that is not hot in this shard. */
  lemma EnqueueAdds(sh: Shard, id: Id, msg: Msg, now: nat)
    requires OnePlace(sh, {}) && id !in sh.messages && msg.visibleAt <= now + Q.HORIZON
    ensures OnePlace(Enqueue(Noted(sh, id), id, msg, now), {})
    ensures Adds(sh, Enqueue(Noted(sh, id), id, msg, now), msg.queue, id, true)
  {
    hide OnePlace, Q.Insert, QueueOr;
    SeenOnePlace(sh, id);
    EnqueueOnePlace(Noted(sh, id), {}, id, msg, now);
  }

  lemma NotedAdds(sh: Shard, queue: string, id: Id)
    requires OnePlace(sh, {})
    ensures OnePlace(Noted(sh, id), {}) && Adds(sh, Noted(sh, id), queue, id, false)
  {
    SeenOnePlace(sh, id);
  }

  lemma AdmitShape(cfg: Config, e: Engine, queue: string, item: Item, now: nat)
    ensures var r := PushRecord(queue, item, now);
            var e', i := Admit(cfg, Log(e, r), queue, item, now).engine, ShardIdx(cfg, queue);
            var added := HasRoom(cfg, e, queue, item.id, item.delay);
            && e'.shards[i]
               == (if added then Enqueue(Noted(e.shards[i], item.id), item.id, MsgOf(queue, item, now), now)
                   else Noted(e.shards[i], item.id))
            && e'.shards == e.shards[i := e'.shards[i]]
            && e'.disk == e.disk + [r] && e'.total == e.total + (if added then 1 else 0) && e'.spill == e.spill
  {
  }

  lemma AdmitInv(cfg: Config, home: Homes, e: Engine, queue: string, item: Item, now: nat)
    requires Inv(cfg, home, e, []) && queue == home(item.id) && !Seen(cfg, e, queue, item.id)
    ensures var e' := Admit(cfg, Log(e, PushRecord(queue, item, now)), queue, item, now).engine;
            Inv(cfg, home, e', [])
  {
    var r, sh := PushRecord(queue, item, now), ShardFor(cfg, e, queue);
    AdmitShape(cfg, e, queue, item, now);
    var e' := Admit(cfg, Log(e, r), queue, item, now).engine;
    if HasRoom(cfg, e, queue, item.id, item.delay) {
      EnqueueAdds(sh, item.id, MsgOf(queue, item, now), now);
      StoreInv(cfg, home, e, e', r, Enqueue(Noted(sh, item.id), item.id, MsgOf(queue, item, now), now), true);
    } else {
      NotedAdds(sh, queue, item.id);
      StoreInv(cfg, home, e, e', r, Noted(sh, item.id), false);
    }
  }

  lemma BookDisk(cfg: Config, a: Engine, b: Engine, limbo: seq<Limbo>)
    requires a.shards == b.shards
    ensures BookOf(cfg, b, limbo) == BookOf(cfg, a, limbo).(disk := b.disk)
  {
    assert forall s :: InRam(cfg, a, s) <==> InRam(cfg, b, s);
    assert SpotsOf(cfg, a, limbo) == SpotsOf(cfg, b, limbo);
  }

  // ---------------------------------------------------------------- expired leases

  ghost predicate DistinctIds(items: seq<W.Item>) {
    forall j, k :: 0 <= j < k < |items| ==> items[j].id != items[k].id
  }

  /** The limbo list names the messages taken out, in order. */
  ghost predicate ListsLimbo(was: Shard, items: seq<W.Item>, limbo: seq<Limbo>) {
    && |limbo| == |items|
    && forall k :: 0 <= k < |items| ==>
         items[k].id in was.messages && limbo[k] == Limbo(items[k].id, was.messages[items[k].id])
  }

  /** What `TakeMessages` does when all the items are distinct hot messages. */
  ghost predicate TakesAll(sh: Shard, items: seq<W.Item>, t: Taken) {
    && t.shard == sh.(messages := sh.messages - W.IdsOf(items))
    && ListsLimbo(sh, items, t.limbo)
    && |t.shard.messages| + |items| == |sh.messages|
  }

  lemma TakeOneMore(sh: Shard, front: seq<W.Item>, last: W.Item)
    requires TakesAll(sh, front, TakeMessages(sh, front)) && last.id in sh.messages
    requires forall k :: 0 <= k < |front| ==> front[k].id != last.id
    ensures TakesAll(sh, front + [last], TakeMessages(sh, front + [last]))
  {
    var t := TakeMessages(sh, front);
    Snoc(front, last);
    IdsOfSnoc(front, last);
    MinusOne(sh.messages, W.IdsOf(front), last.id);
    ListsLimboSnoc(sh, front, t.limbo, last);
  }

  lemma {:induction false} TakeMessagesShape(sh: Shard, items: seq<W.Item>)
    requires DistinctIds(items) && forall k :: 0 <= k < |items| ==> items[k].id in sh.messages
    ensures TakesAll(sh, items, TakeMessages(sh, items))
  {
    if items == [] {
      assert W.IdsOf(items) == {} && sh.messages - {} == sh.messages;
    } else {
      var front, last := items[..|items| - 1], items[|items| - 1];
      assert items == front + [last];
      TakeMessagesShape(sh, front);
      TakeOneMore(sh, front, last);
    }
  }

  lemma ListsLimboSnoc(sh: Shard, front: seq<W.Item>, limbo: seq<Limbo>, last: W.Item)
    requires ListsLimbo(sh, front, limbo) && last.id in sh.messages
    ensures ListsLimbo(sh, front + [last], limbo + [Limbo(last.id, sh.messages[last.id])])
  {
  }

  lemma IdsOfSnoc(front: seq<W.Item>, last: W.Item)
    requires forall k :: 0 <= k < |front| ==> front[k].id != last.id
    ensures W.IdsOf(front + [last]) == W.IdsOf(front) + {last.id} && last.id !in W.IdsOf(front)
  {
  }

  lemma MinusOne<V>(m: map<Id, V>, ids: set<Id>, id: Id)
    requires id in m && id !in ids
    ensures m - ids - {id} == m - (ids + {id}) && |m - (ids + {id})| == |m - ids| - 1
  {
    assert (m - (ids + {id})).Keys == (m - ids).Keys - {id};
  }

  /** Moving messages of one shard into limbo leaves the book as it is. */
  lemma LimboBook(cfg: Config, e: Engine, i: nat, items: seq<W.Item>, limbo: seq<Limbo>, sh: Shard)
    requires i < NUM_SHARDS && InOwnShard(cfg, i, e.shards[i]) && ListsLimbo(e.shards[i], items, limbo)
    requires sh.acked == e.shards[i].acked && sh.seen == e.shards[i].seen
    requires sh.messages == e.shards[i].messages - W.IdsOf(items)
    ensures BookOf(cfg, WithShard(e, i, sh), limbo) == BookOf(cfg, e, [])
  {
    var e', m := WithShard(e, i, sh), e.shards[i].messages;
    assert AckedOf(e') == AckedOf(e) && SeenOf(e') == SeenOf(e);
    forall s
      ensures InRam(cfg, e', s) || InLimbo(limbo, s) <==> InRam(cfg, e, s)
    {
      if InLimbo(limbo, s) {
        var k :| 0 <= k < |limbo| && limbo[k].id == s.id && limbo[k].msg.queue == s.queue;
        assert items[k].id in m;
      }
      if InRam(cfg, e, s) && ShardIdx(cfg, s.queue) == i && s.id in W.IdsOf(items) {
        var it :| it in items && it.id == s.id;
        var k :| 0 <= k < |items| && items[k] == it;
        assert limbo[k].id == s.id && limbo[k].msg.queue == s.queue;
      }
    }
    assert SpotsOf(cfg, e', limbo) == SpotsOf(cfg, e, []);
  }

  lemma LimboApart(cfg: Config, home: Homes, e: Engine, i: nat, items: seq<W.Item>, limbo: seq<Limbo>, sh: Shard)
    requires Inv(cfg, home, e, []) && i < NUM_SHARDS && DistinctIds(items) && ListsLimbo(e.shards[i], items, limbo)
    requires sh.messages == e.shards[i].messages - W.IdsOf(items)
    ensures Apart(WithShard(e, i, sh), limbo)
  {
    var e' := WithShard(e, i, sh);
    forall j, k | 0 <= j < NUM_SHARDS && 0 <= k < |limbo|
      ensures limbo[k].id !in e'.shards[j].messages
    {
      assert items[k] in items && items[k].id in W.IdsOf(items);
      if limbo[k].id in e'.shards[j].messages {
        HotOnce(cfg, home, e, [], i, j, limbo[k].id);
      }
    }
  }

  lemma ExpiredItems(sh: Shard, now: nat)
    requires OnePlace(sh, {})
    ensures var items := W.Collect(sh.wheel, now).expired;
            DistinctIds(items) && forall k :: 0 <= k < |items| ==> items[k].id in sh.messages
  {
    hide W.LeasesOf, W.Represents, W.Collect, Exact;
    W.ConsistentCollect(sh.wheel, now);
  }

  lemma ListsLength(sh: Shard, items: seq<W.Item>, limbo: seq<Limbo>)
    requires ListsLimbo(sh, items, limbo)
    ensures |limbo| == |items|
  {
  }

  lemma ListsSame(was: Shard, sh: Shard, items: seq<W.Item>, limbo: seq<Limbo>)
    requires ListsLimbo(sh, items, limbo) && sh.messages == was.messages
    ensures ListsLimbo(was, items, limbo)
  {
  }

  /** Collecting expired leases inside one shard. */
  lemma ExpireShard(sh: Shard, now: nat)
    requires OnePlace(sh, {})
    ensures var t, items := Expire(sh, now), W.Collect(sh.wheel, now).expired;
            && OnePlace(t.shard, {})
            && DistinctIds(items) && ListsLimbo(sh, items, t.limbo)
            && t.shard == sh.(messages := sh.messages - W.IdsOf(items), wheel := W.Collect(sh.wheel, now).wheel)
            && |t.shard.messages| + |t.limbo| == |sh.messages|
  {
    hide OnePlace, W.Collect, DistinctIds, ListsLimbo, W.IdsOf;
    var c := W.Collect(sh.wheel, now);
    var sh1, ids := sh.(wheel := c.wheel), W.IdsOf(c.expired);
    CollectOnePlace(sh, now);
    ExpiredItems(sh, now);
    TakeMessagesShape(sh1, c.expired);
    DropOnePlace(sh1, ids, ids);
    ListsSame(sh, sh1, c.expired, TakeMessages(sh1, c.expired).limbo);
    ListsLength(sh1, c.expired, TakeMessages(sh1, c.expired).limbo);
    assert ids - ids == {};
  }

  /** Collecting expired leases keeps the invariant, with their messages in limbo. */
  lemma ExpireInv(cfg: Config, home: Homes, e: Engine, i: nat, now: nat)
    requires Inv(cfg, home, e, []) && i < NUM_SHARDS
    ensures var t := Expire(e.shards[i], now);
            && Inv(cfg, home, WithShard(e, i, t.shard), t.limbo)
            && BookOf(cfg, WithShard(e, i, t.shard), t.limbo) == BookOf(cfg, e, [])
  {
    var sh, items, t := e.shards[i], W.Collect(e.shards[i].wheel, now).expired, Expire(e.shards[i], now);
    ExpireShard(sh, now);
    LimboBook(cfg, e, i, items, t.limbo, t.shard);
    LimboApart(cfg, home, e, i, items, t.limbo, t.shard);
    Assemble(cfg, home, e, [], WithShard(e, i, t.shard), i, t.shard, t.limbo);
  }

  // ---------------------------------------------------------------- routing them back

  /** `sh` is `was` with `id` made hot as `msg`. */
  ghost predicate Files(was: Shard, sh: Shard, id: Id, msg: Msg) {
    && sh.acked == was.acked
    && id !in was.messages && sh.messages == was.messages[id := msg]
  }

  lemma FilesCount(was: Shard, sh: Shard, id: Id, msg: Msg)
    requires Files(was, sh, id, msg)
    ensures |sh.messages| == |was.messages| + 1
  {
    assert sh.messages.Keys == was.messages.Keys + {id};
  }

  lemma LimboHead(limbo: seq<Limbo>, s: Spot)
    requires limbo != []
    ensures InLimbo(limbo, s) <==> s == Spot(limbo[0].id, limbo[0].msg.queue) || InLimbo(limbo[1..], s)
  {
    if InLimbo(limbo, s) {
      var k :| 0 <= k < |limbo| && limbo[k].id == s.id && limbo[k].msg.queue == s.queue;
      if k > 0 {
        assert limbo[1..][k - 1] == limbo[k];
      }
    }
    if InLimbo(limbo[1..], s) {
      var k :| 0 <= k < |limbo[1..]| && limbo[1..][k].id == s.id && limbo[1..][k].msg.queue == s.queue;
      assert limbo[k + 1] == limbo[1..][k];
    }
  }

  /** Spots when the head of the limbo list is filed in queue `to`. */
  lemma FiledSpots(cfg: Config, e: Engine, limbo: seq<Limbo>, sh: Shard, msg: Msg)
    requires limbo != [] && Apart(e, limbo)
    requires Files(ShardFor(cfg, e, msg.queue), sh, limbo[0].id, msg)
    ensures SpotsOf(cfg, WithShard(e, ShardIdx(cfg, msg.queue), sh), limbo[1..])
            == SpotsOf(cfg, e, limbo) - iset{Spot(limbo[0].id, limbo[0].msg.queue)} + iset{Spot(limbo[0].id, msg.queue)}
  {
    var e' := WithShard(e, ShardIdx(cfg, msg.queue), sh);
    forall s
      ensures InRam(cfg, e', s) || InLimbo(limbo[1..], s) <==>
              s == Spot(limbo[0].id, msg.queue)
              || ((InRam(cfg, e, s) || InLimbo(limbo, s)) && s != Spot(limbo[0].id, limbo[0].msg.queue))
    {
      LimboHead(limbo, s);
      assert InRam(cfg, e', s) <==> InRam(cfg, e, s) || s == Spot(limbo[0].id, msg.queue);
      assert InRam(cfg, e, s) ==> s.id != limbo[0].id;
      if InLimbo(limbo[1..], s) {
        var k :| 0 <= k < |limbo[1..]| && limbo[1..][k].id == s.id && limbo[1..][k].msg.queue == s.queue;
        assert limbo[k + 1] == limbo[1..][k];
      }
    }
  }

  lemma FiledApart(e: Engine, limbo: seq<Limbo>, i: nat, sh: Shard, msg: Msg)
    requires limbo != [] && Apart(e, limbo) && i < NUM_SHARDS && Files(e.shards[i], sh, limbo[0].id, msg)
    ensures Apart(WithShard(e, i, sh), limbo[1..])
  {
    assert forall k :: 0 <= k < |limbo[1..]| ==> limbo[1..][k] == limbo[k + 1];
  }

  /** Filing the head of the limbo list, given that the resulting book is in order. */
  lemma FileInv(cfg: Config, home: Homes, e: Engine, limbo: seq<Limbo>, sh: Shard, msg: Msg, b: Book)
    requires Inv(cfg, home, e, limbo) && limbo != [] && OnePlace(sh, {})
    requires Files(ShardFor(cfg, e, msg.queue), sh, limbo[0].id, msg)
    requires BookOf(cfg, WithShard(e, ShardIdx(cfg, msg.queue), sh), limbo[1..]) == b && Balanced(cfg, home, b)
    ensures Inv(cfg, home, WithShard(e, ShardIdx(cfg, msg.queue), sh), limbo[1..])
  {
    hide Balanced, OnePlace, HotCount, BookOf;
    var i := ShardIdx(cfg, msg.queue);
    FiledApart(e, limbo, i, sh, msg);
    FilesCount(e.shards[i], sh, limbo[0].id, msg);
    Assemble(cfg, home, e, limbo, WithShard(e, i, sh), i, sh, limbo[1..]);
  }

  lemma RouteBackInv(cfg: Config, home: Homes, e: Engine, limbo: seq<Limbo>, now: nat)
    requires Inv(cfg, home, e, limbo) && limbo != []
    ensures var x := limbo[0];
            var i, msg := ShardIdx(cfg, x.msg.queue), x.msg.(visibleAt := now);
            var e' := WithShard(e, i, Enqueue(e.shards[i], x.id, msg, now));
            && Inv(cfg, home, e', limbo[1..])
            && BookOf(cfg, e', limbo[1..]) == BookOf(cfg, e, limbo)
  {
    var x := limbo[0];
    var i, msg := ShardIdx(cfg, x.msg.queue), x.msg.(visibleAt := now);
    var sh := Enqueue(e.shards[i], x.id, msg, now);
    EnqueueOnePlace(e.shards[i], {}, x.id, msg, now);
    RouteBackBook(cfg, e, limbo, sh, msg);
    FileInv(cfg, home, e, limbo, sh, msg, BookOf(cfg, e, limbo));
  }

  lemma RouteBackBook(cfg: Config, e: Engine, limbo: seq<Limbo>, sh: Shard, msg: Msg)
    requires limbo != [] && Apart(e, limbo) && msg.queue == limbo[0].msg.queue
    requires Files(ShardFor(cfg, e, msg.queue), sh, limbo[0].id, msg) && sh.seen == ShardFor(cfg, e, msg.queue).seen
    ensures BookOf(cfg, WithShard(e, ShardIdx(cfg, msg.queue), sh), limbo[1..]) == BookOf(cfg, e, limbo)
  {
    var e' := WithShard(e, ShardIdx(cfg, msg.queue), sh);
    FiledSpots(cfg, e, limbo, sh, msg);
    LimboHead(limbo, Spot(limbo[0].id, msg.queue));
    assert SpotsOf(cfg, e', limbo[1..]) == SpotsOf(cfg, e, limbo);
    assert AckedOf(e') == AckedOf(e) && SeenOf(e') == SeenOf(e);
  }

  /** First half of dead-lettering: the message is marked as done in the shard it leaves. */
  lemma MarkInv(cfg: Config, home: Homes, e: Engine, limbo: seq<Limbo>)
    requires Inv(cfg, home, e, limbo) && limbo != []
    ensures var x := limbo[0];
            var i := ShardIdx(cfg, x.msg.queue);
            var e' := WithShard(e, i, Tombstone(MarkAcked(e.shards[i], x.id), x.msg.queue, x.id));
            var b := BookOf(cfg, e, limbo);
            && Inv(cfg, home, e', limbo)
            && BookOf(cfg, e', limbo) == b.(acked := b.acked + iset{At(cfg, x.msg.queue, x.id)})
  {
    hide Balanced, OnePlace, HotCount;
    var x, b := limbo[0], BookOf(cfg, e, limbo);
    var i := ShardIdx(cfg, x.msg.queue);
    var sh := Tombstone(MarkAcked(e.shards[i], x.id), x.msg.queue, x.id);
    MarkShard(e.shards[i], x.msg.queue, x.id);
    MarkBook(cfg, e, i, sh, limbo, x.id);
    LimboHead(limbo, Spot(x.id, x.msg.queue));
    BalancedMark(cfg, home, b, x.id, x.msg.queue, x.msg.queue);
    Assemble(cfg, home, e, limbo, WithShard(e, i, sh), i, sh, limbo);
  }

  lemma MarkedOnePlace(sh: Shard, id: Id)
    requires OnePlace(sh, {})
    ensures OnePlace(MarkAcked(sh, id), {})
  {
    var sh' := MarkAcked(sh, id);
    forall name | name in sh'.queues
      ensures Exact(sh', {}, name)
    {
      assert Exact(sh, {}, name);
      assert forall x :: Waiting(sh', {}, name, x) <==> Waiting(sh, {}, name, x);
    }
  }

  lemma MarkShard(sh: Shard, name: string, id: Id)
    requires OnePlace(sh, {}) && id !in sh.messages
    ensures var sh' := Tombstone(MarkAcked(sh, id), name, id);
            && OnePlace(sh', {})
            && sh'.messages == sh.messages && sh'.seen == sh.seen && sh'.acked == sh.acked + {id}
  {
    MarkedOnePlace(sh, id);
    TombstoneOnePlace(MarkAcked(sh, id), {}, name, id);
  }

  lemma MarkBook(cfg: Config, e: Engine, i: nat, sh: Shard, limbo: seq<Limbo>, id: Id)
    requires i < NUM_SHARDS && sh.messages == e.shards[i].messages && sh.seen == e.shards[i].seen
    requires sh.acked == e.shards[i].acked + {id}
    ensures var b := BookOf(cfg, e, limbo);
            BookOf(cfg, WithShard(e, i, sh), limbo) == b.(acked := b.acked + iset{Mark(i, id)})
  {
    var e' := WithShard(e, i, sh);
    assert forall s :: InRam(cfg, e', s) <==> InRam(cfg, e, s);
    assert SpotsOf(cfg, e', limbo) == SpotsOf(cfg, e, limbo);
    assert AckedOf(e') == AckedOf(e) + iset{Mark(i, id)} && SeenOf(e') == SeenOf(e);
  }

  /** Second half: it is filed in the dead-letter queue. */
  lemma MoveInv(cfg: Config, home: Homes, e: Engine, limbo: seq<Limbo>, now: nat)
    requires Inv(cfg, home, e, limbo) && limbo != []
    requires At(cfg, limbo[0].msg.queue, limbo[0].id) in AckedOf(e)
    ensures var x := limbo[0];
            var msg := x.msg.(queue := DeadLetter(x.msg.queue), visibleAt := now);
            var i := ShardIdx(cfg, msg.queue);
            var e' := WithShard(e, i, Enqueue(Noted(e.shards[i], x.id), x.id, msg, now));
            Inv(cfg, home, e', limbo[1..])
            && BookOf(cfg, e', limbo[1..]) == AfterMove(cfg, BookOf(cfg, e, limbo), x.id, x.msg.queue)
  {
    var x := limbo[0];
    var msg := x.msg.(queue := DeadLetter(x.msg.queue), visibleAt := now);
    var i := ShardIdx(cfg, msg.queue);
    var sh := Enqueue(Noted(e.shards[i], x.id), x.id, msg, now);
    EnqueueAdds(e.shards[i], x.id, msg, now);
    MoveBook(cfg, e, limbo, sh, msg);
    LimboHead(limbo, Spot(x.id, x.msg.queue));
    BalancedMove(cfg, home, BookOf(cfg, e, limbo), x.id, x.msg.queue);
    FileInv(cfg, home, e, limbo, sh, msg, AfterMove(cfg, BookOf(cfg, e, limbo), x.id, x.msg.queue));
  }

  lemma MoveBook(cfg: Config, e: Engine, limbo: seq<Limbo>, sh: Shard, msg: Msg)
    requires limbo != [] && Apart(e, limbo) && msg.queue == DeadLetter(limbo[0].msg.queue)
    requires At(cfg, limbo[0].msg.queue, limbo[0].id) in AckedOf(e)
    requires Files(ShardFor(cfg, e, msg.queue), sh, limbo[0].id, msg)
    requires sh.seen == ShardFor(cfg, e, msg.queue).seen + {limbo[0].id}
    ensures BookOf(cfg, WithShard(e, ShardIdx(cfg, msg.queue), sh), limbo[1..])
            == AfterMove(cfg, BookOf(cfg, e, limbo), limbo[0].id, limbo[0].msg.queue)
  {
    var e' := WithShard(e, ShardIdx(cfg, msg.queue), sh);
    FiledSpots(cfg, e, limbo, sh, msg);
    assert AckedOf(e') == AckedOf(e) + iset{At(cfg, limbo[0].msg.queue, limbo[0].id)};
    assert SeenOf(e') == SeenOf(e) + iset{At(cfg, msg.queue, limbo[0].id)};
  }

  lemma RouteInv(cfg: Config, home: Homes, e: Engine, limbo: seq<Limbo>, now: nat)
    requires Inv(cfg, home, e, limbo) && limbo != []
    ensures var e' := Route(cfg, e, limbo[0], now);
            Inv(cfg, home, e', limbo[1..])
  {
    hide Balanced, OnePlace, HotCount, InOwnShard, Apart;
    var x := limbo[0];
    if cfg.maxDelivery <= x.msg.delivery {
      var from := ShardIdx(cfg, x.msg.queue);
      var e1 := WithShard(e, from, Tombstone(MarkAcked(e.shards[from], x.id), x.msg.queue, x.id));
      MarkInv(cfg, home, e, limbo);
      MoveInv(cfg, home, e1, limbo, now);
    } else {
      RouteBackInv(cfg, home, e, limbo, now);
    }
  }

  lemma {:induction false} RoutedKeeps(cfg: Config, e: Engine, limbo: seq<Limbo>, now: nat)
    ensures var e' := RouteAll(cfg, e, limbo, now);
            e'.disk == e.disk && e'.spill == e.spill && e'.total == e.total
  {
    if limbo != [] {
      RoutedKeeps(cfg, e, limbo[..|limbo| - 1], now);
    }
  }

  lemma {:induction false} RouteAllInv(cfg: Config, home: Homes, e: Engine, limbo: seq<Limbo>, n: nat, now: nat)
    requires Inv(cfg, home, e, limbo) && n <= |limbo|
    ensures var e' := RouteAll(cfg, e, limbo[..n], now);
            Inv(cfg, home, e', limbo[n..])
  {
    hide Inv, Route;
    if n == 0 {
      assert limbo[0..] == limbo;
    } else {
      RouteAllInv(cfg, home, e, limbo, n - 1, now);
      PrefixStep(limbo, n - 1);
      SuffixStep(limbo, n - 1);
      RouteInv(cfg, home, RouteAll(cfg, e, limbo[..n - 1], now), limbo[n - 1..], now);
    }
  }

  lemma ReturnedInv(cfg: Config, home: Homes, e: Engine, queue: string, now: nat)
    requires Inv(cfg, home, e, [])
    ensures Inv(cfg, home, Returned(cfg, e, queue, now), [])
  {
    hide Inv, Expire;
    var i := ShardIdx(cfg, queue);
    var t := Expire(e.shards[i], now);
    ExpireInv(cfg, home, e, i, now);
    RouteAllInv(cfg, home, WithShard(e, i, t.shard), t.limbo, |t.limbo|, now);
    assert t.limbo[..|t.limbo|] == t.limbo && t.limbo[|t.limbo|..] == [];
  }

  // ---------------------------------------------------------------- paging in

  lemma PageAddInv(cfg: Config, home: Homes, e: Engine, e': Engine, r: WalRecord, sh: Shard)
    requires Inv(cfg, home, e, []) && r in e.disk && r.Push?
    requires r.id !in ShardFor(cfg, e, r.queue).messages && r.id !in ShardFor(cfg, e, r.queue).acked
    requires Adds(ShardFor(cfg, e, r.queue), sh, r.queue, r.id, true) && OnePlace(sh, {})
    requires e'.shards == e.shards[ShardIdx(cfg, r.queue) := sh] && e'.disk == e.disk && e'.total == e.total + 1
    ensures Inv(cfg, home, e', [])
    ensures BookOf(cfg, e', []) == AfterPageIn(cfg, BookOf(cfg, e, []), r)
  {
    hide Balanced, OnePlace, HotCount, InOwnShard, Adds;
    var b := BookOf(cfg, e, []);
    assert BookOf(cfg, e', []) == AfterPageIn(cfg, b, r) by {
      AddBook(cfg, e, r.queue, r.id, sh, true);
      BookDisk(cfg, WithShard(e, ShardIdx(cfg, r.queue), sh), e', []);
    }
    assert Balanced(cfg, home, BookOf(cfg, e', [])) by {
      assert Spot(r.id, r.queue) !in b.at && At(cfg, r.queue, r.id) !in b.acked;
      BalancedPageIn(cfg, home, b, r);
    }
    AddsCount(ShardFor(cfg, e, r.queue), sh, r.queue, r.id, true);
    AddsOwn(cfg, ShardFor(cfg, e, r.queue), sh, r.queue, r.id, true);
    Assemble(cfg, home, e, [], e', ShardIdx(cfg, r.queue), sh, []);
  }

  /** Whether paging reads this record into RAM. */
  predicate PagedIn(cfg: Config, e: Engine, r: WalRecord, now: nat) {
    && r.Push? && r.visibleAt <= now + Q.HORIZON
    && r.id !in ShardFor(cfg, e, r.queue).messages && r.id !in ShardFor(cfg, e, r.queue).acked
  }

  function PagedShard(sh: Shard, r: WalRecord, now: nat): Shard
    requires r.Push?
  {
    Enqueue(Noted(sh, r.id), r.id, Msg(r.queue, r.payload, r.visibleAt, 0), now)
  }

  lemma PagePushShape(cfg: Config, e: Engine, r: WalRecord, now: nat)
    requires r.Push?
    ensures var e', i := PageRecord(cfg, e, r, now), ShardIdx(cfg, r.queue);
            if PagedIn(cfg, e, r, now) then
              e'.shards == e.shards[i := PagedShard(e.shards[i], r, now)] && e'.disk == e.disk
                && e'.total == e.total + 1
            else e' == e
  {
  }

  /** A logged acknowledgement is about a finished message. */
  lemma LoggedAck(cfg: Config, home: Homes, e: Engine, r: WalRecord)
    requires Inv(cfg, home, e, []) && r in e.disk && r.Ack?
    ensures r.id in ShardFor(cfg, e, r.queue).acked && r.id !in ShardFor(cfg, e, r.queue).messages
  {
    var b, i := BookOf(cfg, e, []), ShardIdx(cfg, r.queue);
    var k :| 0 <= k < |e.disk| && e.disk[k] == r;
    assert RecordOk(cfg, home, b, b.disk[k]);
    if r.id in e.shards[i].messages {
      assert InRam(cfg, e, Spot(r.id, e.shards[i].messages[r.id].queue));
    }
  }

  lemma PageAckInv(cfg: Config, home: Homes, e: Engine, r: WalRecord, now: nat)
    requires Inv(cfg, home, e, []) && r in e.disk && r.Ack?
    ensures var e' := PageRecord(cfg, e, r, now);
            Inv(cfg, home, e', []) && BookOf(cfg, e', []) == BookOf(cfg, e, []) && e'.total == e.total
  {
    hide Balanced, OnePlace, HotCount, BookOf, InOwnShard;
    var i := ShardIdx(cfg, r.queue);
    var sh := e.shards[i];
    LoggedAck(cfg, home, e, r);
    MarkShard(sh, r.queue, r.id);
    assert sh.acked + {r.id} == sh.acked && sh.messages - {r.id} == sh.messages;
    RearrangeInv(cfg, home, e, i, Tombstone(MarkAcked(sh, r.id), r.queue, r.id));
  }

  lemma PageRecordInv(cfg: Config, home: Homes, e: Engine, r: WalRecord, now: nat)
    requires Inv(cfg, home, e, []) && r in e.disk
    ensures var e' := PageRecord(cfg, e, r, now);
            Inv(cfg, home, e', [])
  {
    if r.Ack? {
      PageAckInv(cfg, home, e, r, now);
    } else {
      PagePushShape(cfg, e, r, now);
      if PagedIn(cfg, e, r, now) {
        var sh := ShardFor(cfg, e, r.queue);
        EnqueueAdds(sh, r.id, Msg(r.queue, r.payload, r.visibleAt, 0), now);
        PageAddInv(cfg, home, e, PageRecord(cfg, e, r, now), r, PagedShard(sh, r, now));
      }
    }
  }

  lemma {:induction false} PageRecordsInv(cfg: Config, home: Homes, e: Engine, records: seq<WalRecord>, now: nat)
    requires Inv(cfg, home, e, []) && forall k :: 0 <= k < |records| ==> records[k] in e.disk
    ensures var e' := PageRecords(cfg, e, records, now);
            Inv(cfg, home, e', [])
  {
    if records != [] {
      var front := records[..|records| - 1];
      PageRecordsInv(cfg, home, e, front, now);
      PageRecordInv(cfg, home, PageRecords(cfg, e, front, now), records[|records| - 1], now);
    }
  }

  lemma {:induction false} RecordsOfShardIn(cfg: Config, records: seq<WalRecord>, i: nat)
    ensures forall r :: r in RecordsOfShard(cfg, records, i) <==> r in records && ShardIdx(cfg, r.queue) == i
  {
    if records != [] {
      var front := records[..|records| - 1];
      RecordsOfShardIn(cfg, front, i);
      assert records == front + [records[|records| - 1]];
    }
  }

  lemma {:induction false} GroupedIn(cfg: Config, records: seq<WalRecord>, n: nat)
    ensures forall r :: r in Grouped(cfg, records, n) <==> r in records && ShardIdx(cfg, r.queue) < n
  {
    hide RecordsOfShard;
    if n > 0 {
      GroupedIn(cfg, records, n - 1);
      RecordsOfShardIn(cfg, records, n - 1);
    }
  }

  lemma SpillInv(cfg: Config, home: Homes, e: Engine, spill: nat)
    requires Inv(cfg, home, e, []) && spill <= |e.disk|
    ensures Inv(cfg, home, e.(spill := spill), [])
  {
    BookDisk(cfg, e, e.(spill := spill), []);
  }

  /** One chunk of records read and applied. */
  lemma PageRoundInv(cfg: Config, home: Homes, e: Engine, n: nat, now: nat)
    requires Inv(cfg, home, e, []) && e.spill + n <= |e.disk|
    ensures var e1 := e.(spill := e.spill + n);
            var e2 := PageRecords(cfg, e1, Grouped(cfg, e.disk[e.spill..e.spill + n], NUM_SHARDS), now);
            && Inv(cfg, home, e1, [])
            && Inv(cfg, home, e2, [])
  {
    hide Inv;
    var e1, records := e.(spill := e.spill + n), e.disk[e.spill..e.spill + n];
    SpillInv(cfg, home, e, e.spill + n);
    var g := Grouped(cfg, records, NUM_SHARDS);
    GroupedFromDisk(cfg, e.disk, e.spill, e.spill + n, g);
    PageRecordsInv(cfg, home, e1, g, now);
  }

  lemma GroupedFromDisk(cfg: Config, disk: seq<WalRecord>, from: nat, to: nat, g: seq<WalRecord>)
    requires from <= to <= |disk| && g == Grouped(cfg, disk[from..to], NUM_SHARDS)
    ensures forall k :: 0 <= k < |g| ==> g[k] in disk
  {
    GroupedIn(cfg, disk[from..to], NUM_SHARDS);
    forall k | 0 <= k < |g|
      ensures g[k] in disk
    {
      assert g[k] in g;
    }
  }

  lemma {:induction false} PageInInv(cfg: Config, home: Homes, e: Engine, target: string, now: nat, limit: nat,
                                     flushed: bool)
    requires Inv(cfg, home, e, [])
    ensures var e' := PageIn(cfg, e, target, now, limit, flushed);
            Inv(cfg, home, e', [])
    decreases |e.disk| - e.spill, if flushed then 0 else 1
  {
    hide Inv;
    match PageStep(cfg, e, target, now, limit, flushed)
    case Stop(e') =>
      PageStepInv(cfg, home, e, target, now, limit, flushed);
    case Continue(e', flushed') =>
      PageStepInv(cfg, home, e, target, now, limit, flushed);
      PageInInv(cfg, home, e', target, now, limit, flushed');
  }

  lemma PageStepInv(cfg: Config, home: Homes, e: Engine, target: string, now: nat, limit: nat, flushed: bool)
    requires Inv(cfg, home, e, [])
    ensures var e' := PageStep(cfg, e, target, now, limit, flushed).engine;
            Inv(cfg, home, e', [])
  {
    hide Inv, Grouped, PageRecords;
    var n := ChunkLen(e, limit);
    if 0 < n {
      PageRoundInv(cfg, home, e, n, now);
    } else if flushed {
      SpillInv(cfg, home, e, 0);
    }
  }

  // ---------------------------------------------------------------- acknowledging

  function SettledShard(sh: Shard, queue: string, a: Receipted): Shard {
    Tombstone(sh.(wheel := W.RemoveIfValid(sh.wheel, a.id, a.receipt),
                  acked := sh.acked + {a.id},
                  messages := sh.messages - {a.id}),
              queue, a.id)
  }

  lemma SettleShard(sh: Shard, queue: string, a: Receipted)
    requires OnePlace(sh, {}) && W.Valid(sh.wheel, a.id, a.receipt)
    ensures var sh' := SettledShard(sh, queue, a);
            && a.id in sh.messages && OnePlace(sh', {})
            && sh'.messages == sh.messages - {a.id} && sh'.acked == sh.acked + {a.id} && sh'.seen == sh.seen
            && sh'.wheel == W.RemoveIfValid(sh.wheel, a.id, a.receipt)
  {
    hide OnePlace;
    SettleOnePlace(sh, a.id, a.receipt);
    LeasedIsHot(sh, a.id);
    MarkShard(sh.(wheel := W.RemoveIfValid(sh.wheel, a.id, a.receipt), messages := sh.messages - {a.id}), queue, a.id);
  }

  lemma LeasedIsHot(sh: Shard, id: Id)
    requires OnePlace(sh, {}) && id in sh.wheel.index
    ensures id in sh.messages
  {
  }

  lemma SettleShape(cfg: Config, e: Engine, queue: string, a: Receipted)
    requires a.id in ShardFor(cfg, e, queue).messages
    ensures var e', i := Settle(cfg, e, queue, a).engine, ShardIdx(cfg, queue);
            && e'.shards == e.shards[i := SettledShard(e.shards[i], queue, a)]
            && e'.disk == e.disk + [WalRecord.Ack(a.id, queue)] && e'.total == e.total - 1 && e'.spill == e.spill
  {
  }

  lemma SettleBook(cfg: Config, e: Engine, e': Engine, i: nat, sh: Shard, id: Id, r: WalRecord)
    requires i < NUM_SHARDS && InOwnShard(cfg, i, e.shards[i]) && id in e.shards[i].messages
    requires sh.messages == e.shards[i].messages - {id} && sh.acked == e.shards[i].acked + {id}
    requires sh.seen == e.shards[i].seen
    requires e'.shards == e.shards[i := sh] && e'.disk == e.disk + [r]
    ensures BookOf(cfg, e', [])
            == AfterSettle(cfg, BookOf(cfg, e, []), id, e.shards[i].messages[id].queue).(disk := e.disk + [r])
  {
    var p := e.shards[i].messages[id].queue;
    assert forall s :: InRam(cfg, e', s) <==> InRam(cfg, e, s) && s != Spot(id, p);
    assert SpotsOf(cfg, e', []) == SpotsOf(cfg, e, []) - iset{Spot(id, p)};
    assert AckedOf(e') == AckedOf(e) + iset{At(cfg, p, id)} && SeenOf(e') == SeenOf(e);
  }

  lemma SettleInv(cfg: Config, home: Homes, e: Engine, queue: string, a: Receipted)
    requires Inv(cfg, home, e, []) && CanAck(cfg, e, queue, a)
    ensures var e', sh := Settle(cfg, e, queue, a).engine, ShardFor(cfg, e, queue);
            && a.id in sh.messages && Inv(cfg, home, e', []) && Finished(cfg, home, BookOf(cfg, e', []), a.id)
            && BookOf(cfg, e', []) == AfterSettle(cfg, BookOf(cfg, e, []), a.id, sh.messages[a.id].queue)
                                        .(disk := e.disk + [WalRecord.Ack(a.id, queue)])
  {
    hide Balanced, OnePlace, HotCount, Settle;
    var i := ShardIdx(cfg, queue);
    var sh, r := e.shards[i], WalRecord.Ack(a.id, queue);
    SettleShard(sh, queue, a);
    var p, e' := sh.messages[a.id].queue, Settle(cfg, e, queue, a).engine;
    SettleShape(cfg, e, queue, a);
    SettleBook(cfg, e, e', i, SettledShard(sh, queue, a), a.id, r);
    assert InRam(cfg, e, Spot(a.id, p));
    BalancedSettle(cfg, home, BookOf(cfg, e, []), a.id, p, r);
    OneFewer(sh.messages, a.id);
    Assemble(cfg, home, e, [], e', i, SettledShard(sh, queue, a), []);
  }

  lemma OneFewer<V>(m: map<Id, V>, id: Id)
    requires id in m
    ensures |m - {id}| == |m| - 1
  {
    assert (m - {id}).Keys == m.Keys - {id};
  }

  // ---------------------------------------------------------------- compaction

  lemma CompactInv(cfg: Config, home: Homes, e: Engine, survivors: seq<WalRecord>)
    requires Inv(cfg, home, e, []) && (ShouldCompact(cfg, e) ==> IsSurvivorList(e, survivors))
    ensures Inv(cfg, home, MaybeCompact(cfg, e, survivors), [])
  {
    hide OnePlace, HotCount;
    if ShouldCompact(cfg, e) {
      var e', b := MaybeCompact(cfg, e, survivors), BookOf(cfg, e, []);
      BookDisk(cfg, e, e', []);
      forall k | 0 <= k < |survivors|
        ensures survivors[k].Push? && Spot(survivors[k].id, survivors[k].queue) in b.at
      {
        SurvivorHot(cfg, home, e, survivors[k], survivors);
      }
      BalancedCompact(cfg, home, b, survivors);
    }
  }

  lemma SurvivorHot(cfg: Config, home: Homes, e: Engine, r: WalRecord, survivors: seq<WalRecord>)
    requires Inv(cfg, home, e, []) && IsSurvivorList(e, survivors) && r in survivors
    ensures r.Push? && InRam(cfg, e, Spot(r.id, r.queue))
  {
    assert SurvivesIn(e, r);
    var i :| 0 <= i < NUM_SHARDS && r.id in e.shards[i].messages && r == RecordOf(r.id, e.shards[i].messages[r.id]);
    assert InOwnShard(cfg, i, e.shards[i]);
  }

  // ---------------------------------------------------------------- claiming

  lemma {:induction false} ClaimOnePlace(sh: Shard, out: set<Id>, name: string, max: nat)
    requires OnePlace(sh, out) && name in sh.queues
    ensures var c := Claim(sh.queues[name], max);
            && OnePlace(sh.(queues := sh.queues[name := c.queue]), out + Elems(c.ids))
            && NoDup(c.ids) && forall id :: id in c.ids ==> Waiting(sh, out, name, id)
    decreases max
  {
    hide OnePlace;
    var q := sh.queues[name];
    if max == 0 {
      assert sh.queues[name := q] == sh.queues && out + Elems([]) == out;
    } else {
      PopOnePlace(sh, out, name);
      var p := Q.PopReady(q);
      var sh1 := sh.(queues := sh.queues[name := p.queue]);
      if p.id.Some? {
        ClaimOnePlace(sh1, out + {p.id.value}, name, max - 1);
        ClaimCons(sh, out, name, p.id.value, Claim(p.queue, max - 1));
        assert sh1.queues[name := Claim(p.queue, max - 1).queue] == sh.queues[name := Claim(p.queue, max - 1).queue];
      } else {
        assert out + Elems([]) == out;
      }
    }
  }

  lemma ClaimCons(sh: Shard, out: set<Id>, name: string, id: Id, rest: Claimed)
    requires name in sh.queues && NoDup(rest.ids) && forall x :: x in rest.ids ==> Waiting(sh, out + {id}, name, x)
    ensures NoDup([id] + rest.ids) && out + {id} + Elems(rest.ids) == out + Elems([id] + rest.ids)
    ensures forall x :: x in rest.ids ==> Waiting(sh, out, name, x)
  {
    assert id !in rest.ids;
  }

  /** Leasing `ids` counts one hand-out for each. */
  ghost predicate CountsUp(was: map<Id, Msg>, now: map<Id, Msg>, ids: seq<Id>) {
    && now.Keys == was.Keys
    && forall id :: id in now ==>
         now[id] == if id in ids then was[id].(delivery := was[id].delivery + 1) else was[id]
  }

  /** ... gives each a lease that ends at `until` ... */
  ghost predicate AddsLeases(was: W.Wheel, w: W.Wheel, ids: seq<Id>, until: nat) {
    && W.Shaped(was) && W.Shaped(w)
    && (forall id :: id in ids ==> id in w.index && W.LeasesOf(w)[id].expireAt == until)
    && (forall id :: id !in ids ==>
          (id in w.index <==> id in was.index) && (id in was.index ==> W.LeasesOf(w)[id] == W.LeasesOf(was)[id]))
  }

  /** ... and reports them in order. */
  ghost predicate Reports(was: map<Id, Msg>, ids: seq<Id>, l: Lease, events: seq<Event>) {
    && |events| == |ids|
    && forall k :: 0 <= k < |ids| ==>
         ids[k] in was && events[k].Delivered?
         && events[k] == Delivered(l.queue, ids[k], was[ids[k]].delivery + 1, l.now, l.until, events[k].receipt)
  }

  /** The reported receipts are those of the leases. */
  ghost predicate Receipts(w: W.Wheel, ids: seq<Id>, events: seq<Event>) {
    && W.Shaped(w) && |events| == |ids|
    && forall k :: 0 <= k < |ids| ==>
         ids[k] in w.index && events[k].Delivered? && W.LeasesOf(w)[ids[k]].receipt == events[k].receipt
  }

  ghost predicate Leases(was: Shard, sh: Shard, ids: seq<Id>, l: Lease, events: seq<Event>) {
    && sh == was.(messages := sh.messages, wheel := sh.wheel)
    && CountsUp(was.messages, sh.messages, ids) && AddsLeases(was.wheel, sh.wheel, ids, l.until)
    && Reports(was.messages, ids, l, events) && Receipts(sh.wheel, ids, events)
  }

  lemma CountsUpMore(was: map<Id, Msg>, now: map<Id, Msg>, ids: seq<Id>, id: Id)
    requires CountsUp(was, now, ids) && id !in ids && id in now
    ensures id in was && now[id] == was[id]
    ensures CountsUp(was, now[id := now[id].(delivery := now[id].delivery + 1)], ids + [id])
  {
  }

  lemma AddsLeasesMore(was: W.Wheel, w: W.Wheel, ids: seq<Id>, until: nat, item: W.Item)
    requires AddsLeases(was, w, ids, until) && W.Consistent(w) && item.id !in w.index && item.id !in ids
    requires item.expireAt == until
    ensures AddsLeases(was, W.Insert(w, item), ids + [item.id], until)
  {
    hide W.LeasesOf, W.Insert, W.Represents;
    W.ConsistentInsert(w, item);
    assert forall x :: x in ids + [item.id] <==> x in ids || x == item.id;
  }

  lemma ReceiptsMore(w: W.Wheel, ids: seq<Id>, events: seq<Event>, item: W.Item, ev: Event)
    requires Receipts(w, ids, events) && W.Consistent(w) && item.id !in w.index && item.id !in ids
    requires ev.Delivered? && ev.receipt == item.receipt
    ensures Receipts(W.Insert(w, item), ids + [item.id], events + [ev])
  {
    hide W.LeasesOf, W.Insert, W.Represents;
    W.ConsistentInsert(w, item);
  }

  lemma LeaseMore(was: Shard, sh: Shard, ids: seq<Id>, l: Lease, events: seq<Event>, id: Id, receipt: Receipt)
    requires Leases(was, sh, ids, l, events) && id !in ids && id in sh.messages
    requires W.Consistent(sh.wheel) && id !in sh.wheel.index
    ensures var one := LeaseOne(sh, id, l, receipt);
            Leases(was, one.shard, ids + [id], l, events + one.events)
  {
    hide CountsUp, AddsLeases, Receipts;
    CountsUpMore(was.messages, sh.messages, ids, id);
    AddsLeasesMore(was.wheel, sh.wheel, ids, l.until, W.Item(id, l.queue, receipt, l.until));
    ReceiptsMore(sh.wheel, ids, events, W.Item(id, l.queue, receipt, l.until), LeaseOne(sh, id, l, receipt).events[0]);
  }

  lemma LeaseStart(sh: Shard, out: set<Id>, l: Lease)
    requires OnePlace(sh, out)
    ensures Leases(sh, sh, [], l, [])
  {
  }

  lemma {:induction false} LeaseAllShape(sh: Shard, out: set<Id>, ids: seq<Id>, l: Lease, receipts: nat -> Receipt)
    requires OnePlace(sh, out) && NoDup(ids) && Elems(ids) <= out
    ensures var r := LeaseAll(sh, ids, l, receipts);
            OnePlace(r.shard, out - Elems(ids)) && Leases(sh, r.shard, ids, l, r.events)
  {
    hide OnePlace, Leases;
    if ids == [] {
      assert out - Elems(ids) == out;
      LeaseStart(sh, out, l);
    } else {
      var front, id := ids[..|ids| - 1], ids[|ids| - 1];
      SnocElems(front, id, ids, out);
      LeaseAllShape(sh, out, front, l, receipts);
      var before := LeaseAll(sh, front, l, receipts);
      InHand(before.shard, out - Elems(front), id);
      LeaseOnePlace(before.shard, out - Elems(front), id, l, receipts(|ids| - 1));
      LeaseMore(sh, before.shard, front, l, before.events, id, receipts(|ids| - 1));
    }
  }

  lemma InHand(sh: Shard, out: set<Id>, id: Id)
    requires OnePlace(sh, out) && id in out
    ensures id in sh.messages && id !in sh.wheel.index && W.Consistent(sh.wheel)
  {
  }

  lemma SnocElems(front: seq<Id>, id: Id, ids: seq<Id>, out: set<Id>)
    requires ids == front + [id] && NoDup(ids) && Elems(ids) <= out
    ensures NoDup(front) && Elems(front) <= out && id !in front && id in out - Elems(front)
    ensures out - Elems(front) - {id} == out - Elems(ids)
  {
    assert forall k :: 0 <= k < |front| ==> front[k] == ids[k];
    assert ids[|front|] == id;
  }

  /** What a claim does in the shard of the polled queue: `ids` are the messages it takes. */
  lemma ClaimShape(sh: Shard, l: Lease, max: nat, secs: seq<nat>, receipts: nat -> Receipt) returns (ids: seq<Id>)
    requires OnePlace(sh, {}) && (l.queue in sh.queues ==> Q.IsDrainOrder(sh.queues[l.queue], l.now, secs))
    ensures var r := ClaimFrom(sh, l, max, secs, receipts);
            && OnePlace(r.shard, {}) && NoDup(ids) && |ids| <= max
            && (forall id :: id in ids ==> Waiting(sh, {}, l.queue, id))
            && Leases(sh.(queues := r.shard.queues), r.shard, ids, l, r.events)
  {
    hide OnePlace, Leases;
    ids := [];
    if l.queue in sh.queues {
      var q := Q.Drain(sh.queues[l.queue], l.now, secs);
      var c := Claim(q, max);
      var sh1 := sh.(queues := sh.queues[l.queue := q]);
      var sh2 := sh.(queues := sh.queues[l.queue := c.queue]);
      DrainOnePlace(sh, l.queue, l.now, secs);
      ClaimOnePlace(sh1, {}, l.queue, max);
      assert sh1.queues[l.queue := c.queue] == sh2.queues;
      assert {} + Elems(c.ids) == Elems(c.ids) && Elems(c.ids) - Elems(c.ids) == {};
      LeaseAllShape(sh2, Elems(c.ids), c.ids, l, receipts);
      ClaimAtMost(q, max);
      LeasesKeepQueues(sh2, LeaseAll(sh2, c.ids, l, receipts).shard, c.ids, l,
        LeaseAll(sh2, c.ids, l, receipts).events);
      ids := c.ids;
    } else {
      LeaseStart(sh, {}, l);
    }
  }

  lemma LeasesKeepQueues(was: Shard, sh: Shard, ids: seq<Id>, l: Lease, events: seq<Event>)
    requires Leases(was, sh, ids, l, events)
    ensures sh.queues == was.queues
  {
  }

  lemma {:induction false} ClaimAtMost(q: Q.Queue, max: nat)
    ensures |Claim(q, max).ids| <= max
    decreases max
  {
    if 0 < max && Q.PopReady(q).id.Some? {
      ClaimAtMost(Q.PopReady(q).queue, max - 1);
    }
  }

  lemma ClaimInv(cfg: Config, home: Homes, e: Engine, l: Lease, max: nat, secs: seq<nat>, receipts: nat -> Receipt)
    requires Inv(cfg, home, e, [])
    requires var qs := ShardFor(cfg, e, l.queue).queues; l.queue in qs ==> Q.IsDrainOrder(qs[l.queue], l.now, secs)
    ensures var i := ShardIdx(cfg, l.queue);
            var e' := WithShard(e, i, ClaimFrom(e.shards[i], l, max, secs, receipts).shard);
            Inv(cfg, home, e', []) && BookOf(cfg, e', []) == BookOf(cfg, e, [])
  {
    hide Balanced, OnePlace, HotCount, BookOf, ClaimFrom, AddsLeases, Reports, Receipts;
    var i := ShardIdx(cfg, l.queue);
    var ids := ClaimShape(e.shards[i], l, max, secs, receipts);
    RearrangeInv(cfg, home, e, i, ClaimFrom(e.shards[i], l, max, secs, receipts).shard);
  }
}
