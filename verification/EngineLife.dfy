/** Every elementary step of the engine treats each message as its life allows. */
module EngineLife {
  import opened Basics
  import opened WalCodec
  import opened EngineSpec
  import opened ShardInv
  import opened Books
  import opened EngineSteps
  import opened Lifecycle
  import Q = Queues
  import W = Wheels

  // ---------------------------------------------------------------- the status of a message

  datatype Term = Term(until: nat, receipt: Receipt)

  /** When the lease of a message ends, and its receipt. */
  ghost function Until(w: W.Wheel, id: Id): Option<Term> {
    if W.Shaped(w) && id in w.index then Some(Term(W.LeasesOf(w)[id].expireAt, W.LeasesOf(w)[id].receipt)) else None
  }

  ghost predicate InShard(sh: Shard, id: Id, queue: string, count: nat, term: Option<Term>) {
    && id in sh.messages && sh.messages[id].queue == queue && sh.messages[id].delivery == count
    && Until(sh.wheel, id) == term
  }

  ghost predicate Held(limbo: seq<Limbo>, id: Id, queue: string, count: nat) {
    exists k :: 0 <= k < |limbo| && limbo[k].id == id && limbo[k].msg.queue == queue && limbo[k].msg.delivery == count
  }

  /** How a status of the life shows in the state of the engine. */
  ghost predicate Has(cfg: Config, home: Homes, e: Engine, limbo: seq<Limbo>, id: Id, s: Status) {
    var b, m := BookOf(cfg, e, limbo), At(cfg, home(id), id);
    match s
    case Unseen => !Hot(b, id) && m !in b.seen
    case Cold => !Hot(b, id) && m in b.seen && m !in b.acked
    case Gone => Finished(cfg, home, b, id)
    case InQueue(q, c) => InShard(ShardFor(cfg, e, q), id, q, c, None)
    case OnLease(q, c, u, receipt) => InShard(ShardFor(cfg, e, q), id, q, c, Some(Term(u, receipt)))
    case Returning(q, c) => Held(limbo, id, q, c)
  }

  ghost function StatusIn(sh: Shard, id: Id): Status
    requires id in sh.messages
  {
    var msg := sh.messages[id];
    match Until(sh.wheel, id)
    case None => InQueue(msg.queue, msg.delivery)
    case Some(t) => OnLease(msg.queue, msg.delivery, t.until, t.receipt)
  }

  /** Every message has a status. */
  lemma AnyStatus(cfg: Config, home: Homes, e: Engine, id: Id) returns (s: Status)
    requires Inv(cfg, home, e, [])
    ensures Has(cfg, home, e, [], id, s)
  {
    hide OnePlace, Balanced, HotCount, Until, Apart;
    var b, m := BookOf(cfg, e, []), At(cfg, home(id), id);
    if Hot(b, id) {
      var p :| Spot(id, p) in b.at;
      assert InRam(cfg, e, Spot(id, p));
      s := StatusIn(ShardFor(cfg, e, p), id);
    } else if m !in b.seen {
      s := Unseen;
    } else if m in b.acked {
      s := Gone;
    } else {
      s := Cold;
    }
  }

  /** A hot message has the status its shard gives it. */
  lemma HotStatus(cfg: Config, home: Homes, e: Engine, limbo: seq<Limbo>, i: nat, id: Id, s: Status)
    requires Inv(cfg, home, e, limbo) && i < NUM_SHARDS && id in e.shards[i].messages && Has(cfg, home, e, limbo, id, s)
    ensures s == StatusIn(e.shards[i], id)
  {
    hide OnePlace, Balanced, HotCount, Until;
    assert InOwnShard(cfg, i, e.shards[i]);
    assert InRam(cfg, e, Spot(id, e.shards[i].messages[id].queue));
    if s.InQueue? || s.OnLease? {
      HotOnce(cfg, home, e, limbo, i, ShardIdx(cfg, s.queue), id);
    }
  }

  /** A message in limbo has the status its limbo entry gives it. */
  lemma HeldStatus(cfg: Config, home: Homes, e: Engine, limbo: seq<Limbo>, k: nat, s: Status)
    requires Inv(cfg, home, e, limbo) && k < |limbo| && Has(cfg, home, e, limbo, limbo[k].id, s)
    ensures s == Returning(limbo[k].msg.queue, limbo[k].msg.delivery)
  {
    hide OnePlace, Balanced, HotCount, Until;
    var id := limbo[k].id;
    assert InLimbo(limbo, Spot(id, limbo[k].msg.queue));
    assert Spot(id, limbo[k].msg.queue) in BookOf(cfg, e, limbo).at;
  }

  // ---------------------------------------------------------------- messages a step does not concern

  /** The two books differ only about `x`. */
  ghost predicate Touches(b: Book, b': Book, x: Id) {
    && (forall s: Spot :: s.id != x ==> (s in b'.at <==> s in b.at))
    && (forall m: Mark :: m.id != x ==> (m in b'.acked <==> m in b.acked))
    && (forall m: Mark :: m.id != x ==> (m in b'.seen <==> m in b.seen))
  }

  ghost predicate Same(was: Shard, sh: Shard, id: Id) {
    && (id in sh.messages <==> id in was.messages)
    && (id in was.messages ==>
          sh.messages[id].queue == was.messages[id].queue && sh.messages[id].delivery == was.messages[id].delivery)
    && Until(sh.wheel, id) == Until(was.wheel, id)
  }

  lemma OtherLife(cfg: Config, home: Homes, e: Engine, limbo: seq<Limbo>, e': Engine, limbo': seq<Limbo>, i: nat,
                  x: Id, id: Id, s: Status)
    requires i < NUM_SHARDS && e'.shards == e.shards[i := e'.shards[i]] && Same(e.shards[i], e'.shards[i], id)
    requires id != x && Touches(BookOf(cfg, e, limbo), BookOf(cfg, e', limbo'), x)
    requires forall q, c :: Held(limbo, id, q, c) ==> Held(limbo', id, q, c)
    requires Has(cfg, home, e, limbo, id, s)
    ensures Has(cfg, home, e', limbo', id, s)
  {
    hide BookOf, Until;
    var b, b' := BookOf(cfg, e, limbo), BookOf(cfg, e', limbo');
    assert Hot(b', id) <==> Hot(b, id) by {
      assert forall p :: Spot(id, p).id == id;
    }
    assert At(cfg, home(id), id).id == id;
  }

  /** Changes that only concern the disk. */
  lemma DiskLife(cfg: Config, home: Homes, e: Engine, e': Engine, limbo: seq<Limbo>, id: Id, s: Status)
    requires e'.shards == e.shards && Has(cfg, home, e, limbo, id, s)
    ensures Has(cfg, home, e', limbo, id, s)
  {
    hide BookOf, Until;
    BookDisk(cfg, e, e', limbo);
    assert Hot(BookOf(cfg, e', limbo), id) <==> Hot(BookOf(cfg, e, limbo), id);
  }

  /** Steps that rearrange a shard without changing the status of this message. */
  lemma RearrangeLife(cfg: Config, home: Homes, e: Engine, i: nat, sh: Shard, id: Id, s: Status)
    requires i < NUM_SHARDS && Same(e.shards[i], sh, id) && BookOf(cfg, WithShard(e, i, sh), []) == BookOf(cfg, e, [])
    requires Has(cfg, home, e, [], id, s)
    ensures Has(cfg, home, WithShard(e, i, sh), [], id, s)
  {
    OtherLife(cfg, home, e, [], WithShard(e, i, sh), [], i, id + 1, id, s);
  }

  // ---------------------------------------------------------------- push

  lemma NoEvents(h: string, s: Status, now: nat)
    ensures Accepts(h, s, [], now) && FireAll(s, []) == s
  {
  }

  lemma ProjectOne(h: string, s: Status, ev: Event, id: Id, now: nat)
    ensures Project([ev], id) == if ev.id == id then [ev] else []
    ensures Accepts(h, s, [], now) && FireAll(s, []) == s
    ensures Accepts(h, s, [ev], now) <==> Legal(h, s, ev, now)
    ensures FireAll(s, [ev]) == Fire(s, ev)
  {
    Snoc([], ev);
    assert [ev][..0] == [] && [] + [ev] == [ev];
  }

  /** A message whose home shard has not seen it is new. */
  lemma UnseenStatus(cfg: Config, home: Homes, e: Engine, id: Id, s: Status)
    requires Inv(cfg, home, e, []) && Has(cfg, home, e, [], id, s) && !Seen(cfg, e, home(id), id)
    ensures s == Unseen
  {
    hide OnePlace, HotCount, Until, RecordOk;
    var b := BookOf(cfg, e, []);
    assert At(cfg, home(id), id) !in b.seen;
    NotSeenNotHot(cfg, home, b, id);
    HasHot(cfg, home, e, id, s);
  }

  lemma HasHot(cfg: Config, home: Homes, e: Engine, id: Id, s: Status)
    requires Has(cfg, home, e, [], id, s)
    ensures s.InQueue? || s.OnLease? ==> Hot(BookOf(cfg, e, []), id)
  {
    if s.InQueue? || s.OnLease? {
      assert InRam(cfg, e, Spot(id, s.queue));
      assert Spot(id, s.queue) in BookOf(cfg, e, []).at;
    }
  }

  lemma AddsTouches(cfg: Config, home: Homes, e: Engine, e': Engine, r: WalRecord, sh: Shard, added: bool)
    requires r.queue == home(r.id) && Adds(ShardFor(cfg, e, r.queue), sh, r.queue, r.id, added)
    requires e'.shards == e.shards[ShardIdx(cfg, r.queue) := sh] && e'.disk == e.disk + [r]
    ensures Touches(BookOf(cfg, e, []), BookOf(cfg, e', []), r.id)
  {
    hide BookOf, Adds;
    StoreBook(cfg, home, e, e', r, sh, added);
  }

  /** A stored message is waiting, or cold. */
  lemma StoredLife(cfg: Config, home: Homes, e: Engine, e': Engine, r: WalRecord, sh: Shard, added: bool)
    requires Inv(cfg, home, e, []) && r.queue == home(r.id) && !Seen(cfg, e, r.queue, r.id)
    requires Adds(ShardFor(cfg, e, r.queue), sh, r.queue, r.id, added) && sh.wheel == ShardFor(cfg, e, r.queue).wheel
    requires added ==> sh.messages[r.id].delivery == 0
    requires e'.shards == e.shards[ShardIdx(cfg, r.queue) := sh] && e'.disk == e.disk + [r]
    ensures Has(cfg, home, e', [], r.id, if added then InQueue(r.queue, 0) else Cold)
  {
    hide Balanced, HotCount, Exact;
    var b, b' := BookOf(cfg, e, []), BookOf(cfg, e', []);
    StoreBook(cfg, home, e, e', r, sh, added);
    NotSeenNotHot(cfg, home, b, r.id);
    if added {
      assert OnePlace(ShardFor(cfg, e, r.queue), {});
    }
  }

  lemma AdmitLife(cfg: Config, home: Homes, e: Engine, queue: string, item: Item, now: nat, id: Id, s: Status)
    requires Inv(cfg, home, e, []) && queue == home(item.id) && !Seen(cfg, e, queue, item.id)
    requires Has(cfg, home, e, [], id, s)
    ensures var o := Admit(cfg, Log(e, PushRecord(queue, item, now)), queue, item, now);
            var mine := Project(o.events, id);
            Accepts(home(id), s, mine, now) && Has(cfg, home, o.engine, [], id, FireAll(s, mine))
  {
    hide Inv, Has, Until, Project, FireAll, Accepts;
    NoEvents(home(id), s, now);
    var r, sh := PushRecord(queue, item, now), ShardFor(cfg, e, queue);
    var o, added := Admit(cfg, Log(e, r), queue, item, now), HasRoom(cfg, e, queue, item.id, item.delay);
    AdmitShape(cfg, e, queue, item, now);
    var sh' := if added then Enqueue(Noted(sh, item.id), item.id, MsgOf(queue, item, now), now) else Noted(sh, item.id);
    assert Adds(sh, sh', queue, item.id, added) && sh'.wheel == sh.wheel;
    ProjectOne(home(id), s, o.events[0], id, now);
    if id == item.id {
      UnseenStatus(cfg, home, e, id, s);
      StoredLife(cfg, home, e, o.engine, r, sh', added);
    } else {
      AddsTouches(cfg, home, e, o.engine, r, sh', added);
      SameWheel(sh, sh', id);
      OtherLife(cfg, home, e, [], o.engine, [], ShardIdx(cfg, queue), item.id, id, s);
    }
  }

  lemma SameWheel(was: Shard, sh: Shard, id: Id)
    requires sh.wheel == was.wheel && (id in sh.messages <==> id in was.messages)
    requires id in was.messages ==> sh.messages[id] == was.messages[id]
    ensures Same(was, sh, id)
  {
  }

  // ---------------------------------------------------------------- expired leases

  lemma ExpiredStatus(cfg: Config, home: Homes, e: Engine, i: nat, now: nat, k: nat, s: Status)
    requires Inv(cfg, home, e, []) && i < NUM_SHARDS && k < |W.Collect(e.shards[i].wheel, now).expired|
    requires Has(cfg, home, e, [], W.Collect(e.shards[i].wheel, now).expired[k].id, s)
    ensures var t, id := Expire(e.shards[i], now), W.Collect(e.shards[i].wheel, now).expired[k].id;
            s.OnLease? && s.until <= now && Held(t.limbo, id, s.queue, s.count)
  {
    hide Balanced, HotCount, Expire, Exact, W.LeasesOf, W.Collect, W.Represents;
    var sh := e.shards[i];
    var items, t := W.Collect(sh.wheel, now).expired, Expire(sh, now);
    assert OnePlace(sh, {});
    W.ConsistentCollect(sh.wheel, now);
    ExpireShard(sh, now);
    HotStatus(cfg, home, e, [], i, items[k].id, s);
    assert t.limbo[k] == Limbo(items[k].id, sh.messages[items[k].id]);
  }

  lemma ExpiredSame(sh: Shard, now: nat, id: Id)
    requires OnePlace(sh, {}) && id !in W.IdsOf(W.Collect(sh.wheel, now).expired)
    ensures Same(sh, Expire(sh, now).shard, id)
  {
    hide OnePlace, Exact, Expire, W.LeasesOf, W.Collect, W.Represents, W.IdsOf, Until, ListsLimbo, DistinctIds;
    ExpireShard(sh, now);
    KeptLease(sh, now, id);
  }

  lemma KeptLease(sh: Shard, now: nat, id: Id)
    requires OnePlace(sh, {}) && id !in W.IdsOf(W.Collect(sh.wheel, now).expired)
    ensures Until(W.Collect(sh.wheel, now).wheel, id) == Until(sh.wheel, id)
  {
    hide Exact, W.LeaseOf, W.Collect, W.Represents, W.IdsOf;
    W.ConsistentCollect(sh.wheel, now);
  }

  lemma ExpireLife(cfg: Config, home: Homes, e: Engine, i: nat, now: nat, id: Id, s: Status) returns (s': Status)
    requires Inv(cfg, home, e, []) && i < NUM_SHARDS && Has(cfg, home, e, [], id, s)
    ensures var t := Expire(e.shards[i], now);
            Has(cfg, home, WithShard(e, i, t.shard), t.limbo, id, s')
    ensures s' == s || (s.OnLease? && s.until <= now && s' == Returning(s.queue, s.count))
  {
    hide Balanced, HotCount, Expire, OnePlace, Until, BookOf;
    var sh, t := e.shards[i], Expire(e.shards[i], now);
    var items := W.Collect(sh.wheel, now).expired;
    if id in W.IdsOf(items) {
      var it :| it in items && it.id == id;
      var k :| 0 <= k < |items| && items[k] == it;
      ExpiredStatus(cfg, home, e, i, now, k, s);
      s' := Returning(s.queue, s.count);
    } else {
      ExpiredSame(sh, now, id);
      ExpireInv(cfg, home, e, i, now);
      OtherLife(cfg, home, e, [], WithShard(e, i, t.shard), t.limbo, i, id + 1, id, s);
      s' := s;
    }
  }

  // ---------------------------------------------------------------- routing them back

  lemma HeldTail(limbo: seq<Limbo>, id: Id, q: string, c: nat)
    requires limbo != [] && limbo[0].id != id
    ensures Held(limbo, id, q, c) ==> Held(limbo[1..], id, q, c)
  {
    if Held(limbo, id, q, c) {
      var k :| 0 <= k < |limbo| && limbo[k].id == id && limbo[k].msg.queue == q && limbo[k].msg.delivery == c;
      assert limbo[1..][k - 1] == limbo[k];
    }
  }

  /** The head of the limbo list is filed; the other messages stay as they are. */
  lemma FiledLife(cfg: Config, home: Homes, e: Engine, limbo: seq<Limbo>, sh: Shard, msg: Msg, id: Id, s: Status)
    requires Inv(cfg, home, e, limbo) && limbo != [] && Has(cfg, home, e, limbo, id, s)
    requires Files(ShardFor(cfg, e, msg.queue), sh, limbo[0].id, msg) && sh.wheel == ShardFor(cfg, e, msg.queue).wheel
    requires Touches(BookOf(cfg, e, limbo), BookOf(cfg, WithShard(e, ShardIdx(cfg, msg.queue), sh), limbo[1..]),
                     limbo[0].id)
    ensures Has(cfg, home, WithShard(e, ShardIdx(cfg, msg.queue), sh), limbo[1..], id,
                if id == limbo[0].id then InQueue(msg.queue, msg.delivery) else s)
  {
    hide Balanced, HotCount, BookOf, OnePlace, Until, Touches;
    var x, i := limbo[0], ShardIdx(cfg, msg.queue);
    if id == x.id {
      FiledStatus(e.shards[i], sh, x.id, msg);
    } else {
      SameWheel(e.shards[i], sh, id);
      forall q, c { HeldTail(limbo, id, q, c); }
      OtherLife(cfg, home, e, limbo, WithShard(e, i, sh), limbo[1..], i, x.id, id, s);
    }
  }

  lemma FiledStatus(was: Shard, sh: Shard, id: Id, msg: Msg)
    requires OnePlace(was, {}) && Files(was, sh, id, msg) && sh.wheel == was.wheel
    ensures InShard(sh, id, msg.queue, msg.delivery, None)
  {
    hide Exact;
  }

  lemma RouteBackLife(cfg: Config, home: Homes, e: Engine, limbo: seq<Limbo>, now: nat, id: Id, s: Status)
    requires Inv(cfg, home, e, limbo) && limbo != [] && Has(cfg, home, e, limbo, id, s)
    ensures var x := limbo[0];
            var i, msg := ShardIdx(cfg, x.msg.queue), x.msg.(visibleAt := now);
            var e' := WithShard(e, i, Enqueue(e.shards[i], x.id, msg, now));
            Has(cfg, home, e', limbo[1..], id, if id == x.id then InQueue(x.msg.queue, x.msg.delivery) else s)
  {
    hide Balanced, HotCount, BookOf, OnePlace, Has;
    var x := limbo[0];
    var i, msg := ShardIdx(cfg, x.msg.queue), x.msg.(visibleAt := now);
    RouteBackInv(cfg, home, e, limbo, now);
    FiledLife(cfg, home, e, limbo, Enqueue(e.shards[i], x.id, msg, now), msg, id, s);
  }

  lemma MarkLife(cfg: Config, home: Homes, e: Engine, limbo: seq<Limbo>, id: Id, s: Status)
    requires Inv(cfg, home, e, limbo) && limbo != [] && Has(cfg, home, e, limbo, id, s)
    ensures var x := limbo[0];
            var i := ShardIdx(cfg, x.msg.queue);
            var e' := WithShard(e, i, Tombstone(MarkAcked(e.shards[i], x.id), x.msg.queue, x.id));
            Has(cfg, home, e', limbo, id, s)
  {
    hide Balanced, HotCount, BookOf, OnePlace;
    var x := limbo[0];
    var i := ShardIdx(cfg, x.msg.queue);
    var e' := WithShard(e, i, Tombstone(MarkAcked(e.shards[i], x.id), x.msg.queue, x.id));
    if id == x.id {
      HeldStatus(cfg, home, e, limbo, 0, s);
    } else {
      MarkInv(cfg, home, e, limbo);
      OtherLife(cfg, home, e, limbo, e', limbo, i, x.id, id, s);
    }
  }

  lemma MoveTouches(cfg: Config, b: Book, id: Id, p: string)
    ensures Touches(b, AfterMove(cfg, b, id, p), id)
  {
  }

  lemma MoveLife(cfg: Config, home: Homes, e: Engine, limbo: seq<Limbo>, now: nat, id: Id, s: Status)
    requires Inv(cfg, home, e, limbo) && limbo != [] && Has(cfg, home, e, limbo, id, s)
    requires At(cfg, limbo[0].msg.queue, limbo[0].id) in AckedOf(e)
    ensures var x := limbo[0];
            var msg := x.msg.(queue := DeadLetter(x.msg.queue), visibleAt := now);
            var i := ShardIdx(cfg, msg.queue);
            var e' := WithShard(e, i, Enqueue(Noted(e.shards[i], x.id), x.id, msg, now));
            Has(cfg, home, e', limbo[1..], id, if id == x.id then InQueue(msg.queue, x.msg.delivery) else s)
  {
    hide Balanced, HotCount, BookOf, OnePlace, Has, AfterMove;
    var x := limbo[0];
    var msg := x.msg.(queue := DeadLetter(x.msg.queue), visibleAt := now);
    var i := ShardIdx(cfg, msg.queue);
    MoveInv(cfg, home, e, limbo, now);
    MoveTouches(cfg, BookOf(cfg, e, limbo), x.id, x.msg.queue);
    FiledLife(cfg, home, e, limbo, Enqueue(Noted(e.shards[i], x.id), x.id, msg, now), msg, id, s);
  }

  /** A returned message waits in its queue again or in the dead-letter queue. */
  function Routed(cfg: Config, x: Limbo, id: Id, s: Status): Status {
    if id == x.id then InQueue(NextQueue(cfg, x.msg.queue, x.msg.delivery), x.msg.delivery) else s
  }

  lemma RouteLife(cfg: Config, home: Homes, e: Engine, limbo: seq<Limbo>, now: nat, id: Id, s: Status)
    requires Inv(cfg, home, e, limbo) && limbo != [] && Has(cfg, home, e, limbo, id, s)
    ensures Has(cfg, home, Route(cfg, e, limbo[0], now), limbo[1..], id, Routed(cfg, limbo[0], id, s))
  {
    hide Inv, Has, BookOf;
    var x := limbo[0];
    if cfg.maxDelivery <= x.msg.delivery {
      var from := ShardIdx(cfg, x.msg.queue);
      var e1 := WithShard(e, from, Tombstone(MarkAcked(e.shards[from], x.id), x.msg.queue, x.id));
      MarkInv(cfg, home, e, limbo);
      MarkLife(cfg, home, e, limbo, id, s);
      MoveLife(cfg, home, e1, limbo, now, id, s);
    } else {
      RouteBackLife(cfg, home, e, limbo, now, id, s);
    }
  }

  lemma {:induction false} RouteAllLife(cfg: Config, home: Homes, e: Engine, limbo: seq<Limbo>, n: nat, now: nat,
                                        id: Id, s: Status)
    returns (s': Status)
    requires Inv(cfg, home, e, limbo) && n <= |limbo| && Has(cfg, home, e, limbo, id, s)
    ensures Has(cfg, home, RouteAll(cfg, e, limbo[..n], now), limbo[n..], id, s')
    ensures s' == s || (s.Returning? && s' == InQueue(NextQueue(cfg, s.queue, s.count), s.count))
  {
    hide Inv, Has, Route;
    if n == 0 {
      assert limbo[0..] == limbo;
      s' := s;
    } else {
      s' := RouteAllLife(cfg, home, e, limbo, n - 1, now, id, s);
      RouteAllInv(cfg, home, e, limbo, n - 1, now);
      PrefixStep(limbo, n - 1);
      SuffixStep(limbo, n - 1);
      var e1 := RouteAll(cfg, e, limbo[..n - 1], now);
      if id == limbo[n - 1].id {
        HeldStatus(cfg, home, e1, limbo[n - 1..], 0, s');
      }
      RouteLife(cfg, home, e1, limbo[n - 1..], now, id, s');
      s' := Routed(cfg, limbo[n - 1], id, s');
    }
  }

  // ---------------------------------------------------------------- paging in

  /** Record `r` brings message `id` in if it is still cold. */
  predicate Offers(r: WalRecord, id: Id, now: nat) {
    r.Push? && r.id == id && r.visibleAt <= now + Q.HORIZON
  }

  ghost predicate Offered(disk: seq<WalRecord>, id: Id, now: nat) {
    exists k :: 0 <= k < |disk| && Offers(disk[k], id, now)
  }

  /** Paging brings cold messages into their home queue. */
  predicate Fetched(h: string, s: Status, s': Status) {
    s' == s || (s.Cold? && s' == InQueue(h, 0))
  }

  lemma ColdStatus(cfg: Config, home: Homes, e: Engine, r: WalRecord, now: nat, s: Status)
    requires Inv(cfg, home, e, []) && r in e.disk && PagedIn(cfg, e, r, now) && Has(cfg, home, e, [], r.id, s)
    ensures s == Cold && r.queue == home(r.id)
  {
    hide OnePlace, HotCount, Until;
    var b := BookOf(cfg, e, []);
    assert Spot(r.id, r.queue) !in b.at && At(cfg, r.queue, r.id) !in b.acked;
    ColdRecord(cfg, home, b, r);
    HasHot(cfg, home, e, r.id, s);
    var k :| 0 <= k < |e.disk| && e.disk[k] == r;
    assert RecordOk(cfg, home, b, b.disk[k]);
  }

  lemma PageInTouches(cfg: Config, b: Book, r: WalRecord)
    ensures Touches(b, AfterPageIn(cfg, b, r), r.id)
  {
  }

  lemma PageAddLife(cfg: Config, home: Homes, e: Engine, r: WalRecord, now: nat, id: Id, s: Status) returns (s': Status)
    requires Inv(cfg, home, e, []) && r in e.disk && PagedIn(cfg, e, r, now) && Has(cfg, home, e, [], id, s)
    ensures Has(cfg, home, PageRecord(cfg, e, r, now), [], id, s') && Fetched(home(id), s, s')
    ensures r.id == id ==> !s'.Cold?
    ensures s' == s || Offers(r, id, now)
  {
    hide Balanced, OnePlace, HotCount, BookOf, AfterPageIn, Touches, Until;
    var i, msg, e' := ShardIdx(cfg, r.queue), Msg(r.queue, r.payload, r.visibleAt, 0), PageRecord(cfg, e, r, now);
    var was, sh := e.shards[i], PagedShard(e.shards[i], r, now);
    PagePushShape(cfg, e, r, now);
    if id == r.id {
      ColdStatus(cfg, home, e, r, now, s);
      FiledStatus(was, sh, id, msg);
      s' := InQueue(r.queue, 0);
    } else {
      EnqueueAdds(was, r.id, msg, now);
      PageAddInv(cfg, home, e, e', r, sh);
      PageInTouches(cfg, BookOf(cfg, e, []), r);
      SameWheel(was, sh, id);
      OtherLife(cfg, home, e, [], e', [], i, r.id, id, s);
      s' := s;
    }
  }

  lemma PageAckLife(cfg: Config, home: Homes, e: Engine, r: WalRecord, now: nat, id: Id, s: Status)
    requires Inv(cfg, home, e, []) && r in e.disk && r.Ack? && Has(cfg, home, e, [], id, s)
    ensures Has(cfg, home, PageRecord(cfg, e, r, now), [], id, s)
  {
    hide Balanced, OnePlace, HotCount, BookOf, Until;
    var i, e' := ShardIdx(cfg, r.queue), PageRecord(cfg, e, r, now);
    LoggedAck(cfg, home, e, r);
    PageAckInv(cfg, home, e, r, now);
    SameWheel(e.shards[i], e'.shards[i], id);
    OtherLife(cfg, home, e, [], e', [], i, id + 1, id, s);
  }

  lemma ColdPagesIn(cfg: Config, home: Homes, e: Engine, r: WalRecord, now: nat)
    requires Inv(cfg, home, e, []) && r in e.disk && Offers(r, r.id, now) && Has(cfg, home, e, [], r.id, Cold)
    ensures PagedIn(cfg, e, r, now)
  {
    hide OnePlace, HotCount;
    var b, i := BookOf(cfg, e, []), ShardIdx(cfg, r.queue);
    var k :| 0 <= k < |e.disk| && e.disk[k] == r;
    assert RecordOk(cfg, home, b, b.disk[k]);
    ShardHot(cfg, home, e, i, r.id);
  }

  lemma ShardHot(cfg: Config, home: Homes, e: Engine, i: nat, id: Id)
    requires Inv(cfg, home, e, []) && i < NUM_SHARDS
    ensures id in e.shards[i].messages ==> Hot(BookOf(cfg, e, []), id)
  {
    hide OnePlace, HotCount, Balanced;
    if id in e.shards[i].messages {
      assert InOwnShard(cfg, i, e.shards[i]);
      assert InRam(cfg, e, Spot(id, e.shards[i].messages[id].queue));
      assert Spot(id, e.shards[i].messages[id].queue) in BookOf(cfg, e, []).at;
    }
  }

  lemma PageRecordLife(cfg: Config, home: Homes, e: Engine, r: WalRecord, now: nat, id: Id,
                       s: Status) returns (s': Status)
    requires Inv(cfg, home, e, []) && r in e.disk && Has(cfg, home, e, [], id, s)
    ensures Has(cfg, home, PageRecord(cfg, e, r, now), [], id, s') && Fetched(home(id), s, s')
    ensures Offers(r, id, now) ==> !s'.Cold?
    ensures s' == s || Offers(r, id, now)
  {
    hide Inv, Has, BookOf, PagedIn;
    s' := s;
    if r.Ack? {
      PageAckLife(cfg, home, e, r, now, id, s);
    } else if PagedIn(cfg, e, r, now) {
      s' := PageAddLife(cfg, home, e, r, now, id, s);
    } else {
      PagePushShape(cfg, e, r, now);
      if Offers(r, id, now) && s.Cold? {
        ColdPagesIn(cfg, home, e, r, now);
        assert false;
      }
    }
  }

  lemma {:induction false} PageRecordsLife(cfg: Config, home: Homes, e: Engine, records: seq<WalRecord>, now: nat,
                                           id: Id, s: Status)
    returns (s': Status)
    requires Inv(cfg, home, e, []) && (forall k :: 0 <= k < |records| ==> records[k] in e.disk)
    requires Has(cfg, home, e, [], id, s)
    ensures Has(cfg, home, PageRecords(cfg, e, records, now), [], id, s') && Fetched(home(id), s, s')
    ensures forall k :: 0 <= k < |records| && Offers(records[k], id, now) ==> !s'.Cold?
    ensures s' == s || Offered(records, id, now)
  {
    hide Inv, Has, PageRecord, Offers, Offered;
    s' := s;
    if records != [] {
      var front, r := records[..|records| - 1], records[|records| - 1];
      s' := PageRecordsLife(cfg, home, e, front, now, id, s);
      PageRecordsInv(cfg, home, e, front, now);
      s' := PageRecordLife(cfg, home, PageRecords(cfg, e, front, now), r, now, id, s');
      OfferedMore(records, id, now);
    }
  }

  lemma OfferedMore(records: seq<WalRecord>, id: Id, now: nat)
    requires records != []
    ensures Offered(records[..|records| - 1], id, now) || Offers(records[|records| - 1], id, now) ==>
              Offered(records, id, now)
  {
    if Offered(records[..|records| - 1], id, now) {
      var k :| 0 <= k < |records| - 1 && Offers(records[..|records| - 1][k], id, now);
      assert records[k] == records[..|records| - 1][k];
    }
  }

  lemma OfferedWithin(log: seq<WalRecord>, from: nat, to: nat, id: Id, now: nat)
    requires from <= to <= |log|
    ensures Offered(log[from..to], id, now) ==> Offered(log, id, now)
  {
    if Offered(log[from..to], id, now) {
      var k :| 0 <= k < |log[from..to]| && Offers(log[from..to][k], id, now);
      assert log[from + k] == log[from..to][k];
    }
  }

  /** One turn of the paging loop brings a message in only if the chunk it reads offers it. */
  lemma PageStepLife(cfg: Config, home: Homes, e: Engine, target: string, now: nat, limit: nat, flushed: bool,
                     id: Id, s: Status)
    returns (s': Status)
    requires Inv(cfg, home, e, []) && Has(cfg, home, e, [], id, s)
    ensures Has(cfg, home, PageStep(cfg, e, target, now, limit, flushed).engine, [], id, s') && Fetched(home(id), s, s')
    ensures s' == s || Offered(e.disk[e.spill..e.spill + ChunkLen(e, limit)], id, now)
    ensures forall k :: e.spill <= k < e.spill + ChunkLen(e, limit) && Offers(e.disk[k], id, now) ==> !s'.Cold?
  {
    hide Inv, Has, Grouped, PageRecords, Offered, Offers, HasPush;
    var n := ChunkLen(e, limit);
    var e1 := PageStep(cfg, e, target, now, limit, flushed).engine;
    s' := s;
    if 0 < n && HasPush(e.disk[e.spill..e.spill + n]) {
      s' := PageRoundLife(cfg, home, e, n, now, id, s);
    } else {
      DiskLife(cfg, home, e, e1, [], id, s);
      NoPushNoOffer(e.disk, e.spill, n, id, now);
    }
  }

  lemma NoPushNoOffer(disk: seq<WalRecord>, from: nat, n: nat, id: Id, now: nat)
    requires from + n <= |disk| && (n == 0 || !HasPush(disk[from..from + n]))
    ensures forall k :: from <= k < from + n ==> !Offers(disk[k], id, now)
  {
    forall k | from <= k < from + n
      ensures !Offers(disk[k], id, now)
    {
      assert disk[from..from + n][k - from] == disk[k];
    }
  }

  lemma PageRoundLife(cfg: Config, home: Homes, e: Engine, n: nat, now: nat, id: Id, s: Status) returns (s': Status)
    requires Inv(cfg, home, e, []) && e.spill + n <= |e.disk| && Has(cfg, home, e, [], id, s)
    ensures var e1 := e.(spill := e.spill + n);
            var e2 := PageRecords(cfg, e1, Grouped(cfg, e.disk[e.spill..e.spill + n], NUM_SHARDS), now);
            Has(cfg, home, e2, [], id, s') && Fetched(home(id), s, s')
    ensures forall k :: e.spill <= k < e.spill + n && Offers(e.disk[k], id, now) ==> !s'.Cold?
    ensures s' == s || Offered(e.disk[e.spill..e.spill + n], id, now)
  {
    hide Inv, Has, Offers, Grouped, PageRecords, Offered;
    var e1, records := e.(spill := e.spill + n), e.disk[e.spill..e.spill + n];
    SpillInv(cfg, home, e, e.spill + n);
    DiskLife(cfg, home, e, e1, [], id, s);
    var g := Grouped(cfg, records, NUM_SHARDS);
    GroupedFromDisk(cfg, e.disk, e.spill, e.spill + n, g);
    s' := PageRecordsLife(cfg, home, e1, g, now, id, s);
    GroupedOffered(cfg, records, g, id, now);
    forall k | e.spill <= k < e.spill + n && Offers(e.disk[k], id, now)
      ensures !s'.Cold?
    {
      var j := GroupedHas(cfg, e.disk, e.spill, e.spill + n, k, g);
    }
  }

  lemma GroupedOffered(cfg: Config, records: seq<WalRecord>, g: seq<WalRecord>, id: Id, now: nat)
    requires g == Grouped(cfg, records, NUM_SHARDS)
    ensures Offered(g, id, now) ==> Offered(records, id, now)
  {
    hide Grouped;
    if Offered(g, id, now) {
      var k :| 0 <= k < |g| && Offers(g[k], id, now);
      GroupedIn(cfg, records, NUM_SHARDS);
      assert g[k] in g && g[k] in records;
      var j :| 0 <= j < |records| && records[j] == g[k];
      assert Offers(records[j], id, now);
    }
  }

  lemma GroupedHas(cfg: Config, disk: seq<WalRecord>, from: nat, to: nat, k: nat, g: seq<WalRecord>) returns (j: nat)
    requires from <= k < to <= |disk| && g == Grouped(cfg, disk[from..to], NUM_SHARDS)
    ensures j < |g| && g[j] == disk[k]
  {
    hide Grouped;
    GroupedIn(cfg, disk[from..to], NUM_SHARDS);
    assert disk[from..to][k - from] == disk[k];
    assert disk[k] in g;
    j :| j < |g| && g[j] == disk[k];
  }

  lemma {:induction false} PageInLife(cfg: Config, home: Homes, e: Engine, target: string, now: nat, limit: nat,
                                      flushed: bool, id: Id, s: Status)
    returns (s': Status)
    requires Inv(cfg, home, e, []) && Has(cfg, home, e, [], id, s)
    ensures Has(cfg, home, PageIn(cfg, e, target, now, limit, flushed), [], id, s') && Fetched(home(id), s, s')
    ensures s' == s || Offered(e.disk, id, now)
    decreases |e.disk| - e.spill, if flushed then 0 else 1
  {
    hide Inv, Has, Offered, PageStep, ChunkLen;
    s' := PageStepLife(cfg, home, e, target, now, limit, flushed, id, s);
    OfferedWithin(e.disk, e.spill, e.spill + ChunkLen(e, limit), id, now);
    PageStepInv(cfg, home, e, target, now, limit, flushed);
    match PageStep(cfg, e, target, now, limit, flushed)
    case Stop(_) =>
    case Continue(e', flushed') =>
      s' := PageInLife(cfg, home, e', target, now, limit, flushed', id, s');
  }

  // ---------------------------------------------------------------- claiming

  lemma {:induction false} ProjectReports(was: map<Id, Msg>, ids: seq<Id>, l: Lease, events: seq<Event>,
                                          id: Id) returns (k: nat)
    requires NoDup(ids) && Reports(was, ids, l, events)
    ensures if id in ids then k < |ids| && ids[k] == id && Project(events, id) == [events[k]]
            else Project(events, id) == []
  {
    k := 0;
    if ids != [] {
      var n := |ids| - 1;
      assert forall j :: 0 <= j < n ==> ids[..n][j] == ids[j] && events[..n][j] == events[j];
      k := ProjectReports(was, ids[..n], l, events[..n], id);
      assert id in ids <==> id in ids[..n] || id == ids[n];
      assert id == ids[n] ==> id !in ids[..n];
      if id == ids[n] {
        k := n;
      }
    }
  }

  lemma ClaimLife(cfg: Config, home: Homes, e: Engine, l: Lease, max: nat, secs: seq<nat>,
                  receipts: nat -> Receipt, id: Id, s: Status)
    requires Inv(cfg, home, e, []) && Has(cfg, home, e, [], id, s) && l.now <= l.until
    requires var qs := ShardFor(cfg, e, l.queue).queues; l.queue in qs ==> Q.IsDrainOrder(qs[l.queue], l.now, secs)
    ensures var i := ShardIdx(cfg, l.queue);
            var r := ClaimFrom(e.shards[i], l, max, secs, receipts);
            var mine := Project(r.events, id);
            && Accepts(home(id), s, mine, l.now) && Has(cfg, home, WithShard(e, i, r.shard), [], id, FireAll(s, mine))
            && forall k :: 0 <= k < |mine| ==> mine[k].Delivered?
  {
    hide Balanced, OnePlace, HotCount, BookOf, ClaimFrom, Until, Has, Leases, Reports, Project, FireAll, Accepts, Same;
    var i := ShardIdx(cfg, l.queue);
    var r := ClaimFrom(e.shards[i], l, max, secs, receipts);
    var ids := ClaimShape(e.shards[i], l, max, secs, receipts);
    var was := e.shards[i].(queues := r.shard.queues);
    LeasesReports(was, r.shard, ids, l, r.events);
    var k := ProjectReports(e.shards[i].messages, ids, l, r.events, id);
    if id in ids {
      ClaimedLife(cfg, home, e, i, was, r.shard, ids, l, r.events, k, s);
      ProjectOne(home(id), s, r.events[k], id, l.now);
    } else {
      ClaimInv(cfg, home, e, l, max, secs, receipts);
      UnclaimedSame(e.shards[i], was, r.shard, ids, l, r.events, id);
      RearrangeLife(cfg, home, e, i, r.shard, id, s);
      NoEvents(home(id), s, l.now);
    }
  }

  lemma LeasesReports(was: Shard, sh: Shard, ids: seq<Id>, l: Lease, events: seq<Event>)
    requires Leases(was, sh, ids, l, events)
    ensures Reports(was.messages, ids, l, events)
  {
  }

  lemma UnclaimedSame(before: Shard, was: Shard, sh: Shard, ids: seq<Id>, l: Lease, events: seq<Event>, id: Id)
    requires was == before.(queues := was.queues) && Leases(was, sh, ids, l, events) && id !in ids
    ensures Same(before, sh, id)
  {
    hide W.LeasesOf, Reports;
  }

  lemma ClaimedLife(cfg: Config, home: Homes, e: Engine, i: nat, was: Shard, sh: Shard, ids: seq<Id>, l: Lease,
                    events: seq<Event>, k: nat, s: Status)
    requires Inv(cfg, home, e, []) && i == ShardIdx(cfg, l.queue) && was == e.shards[i].(queues := was.queues)
    requires Leases(was, sh, ids, l, events) && k < |ids| && ShardInv.Waiting(e.shards[i], {}, l.queue, ids[k])
    requires Has(cfg, home, e, [], ids[k], s) && l.now <= l.until
    ensures k < |events| && events[k].Delivered? && events[k].id == ids[k]
    ensures Legal(home(ids[k]), s, events[k], l.now)
    ensures Has(cfg, home, WithShard(e, i, sh), [], ids[k], Fire(s, events[k]))
  {
    hide Balanced, OnePlace, HotCount, W.LeasesOf;
    assert ids[k] in ids;
    HotStatus(cfg, home, e, [], i, ids[k], s);
  }

  // ---------------------------------------------------------------- acknowledging

  lemma SettleTouches(cfg: Config, b: Book, id: Id, p: string, disk: seq<WalRecord>)
    ensures Touches(b, AfterSettle(cfg, b, id, p).(disk := disk), id)
  {
  }

  lemma SettleSame(sh: Shard, queue: string, a: Receipted, id: Id)
    requires OnePlace(sh, {}) && W.Valid(sh.wheel, a.id, a.receipt) && id != a.id
    ensures Same(sh, SettledShard(sh, queue, a), id)
  {
    hide Exact, W.LeaseOf, W.RemoveIfValid, W.Represents;
    SettleShard(sh, queue, a);
    W.ConsistentRemove(sh.wheel, a.id, a.receipt);
  }

  lemma LeasedStatus(cfg: Config, home: Homes, e: Engine, queue: string, a: Receipted, s: Status)
    requires Inv(cfg, home, e, []) && CanAck(cfg, e, queue, a) && Has(cfg, home, e, [], a.id, s)
    ensures s.OnLease? && s.receipt == a.receipt
  {
    hide Balanced, HotCount, Exact, W.LeaseOf, W.HoldsExactly;
    var i := ShardIdx(cfg, queue);
    assert OnePlace(e.shards[i], {});
    HotStatus(cfg, home, e, [], i, a.id, s);
  }

  lemma SettleLife(cfg: Config, home: Homes, e: Engine, queue: string, a: Receipted, now: nat, id: Id, s: Status)
    requires Inv(cfg, home, e, []) && CanAck(cfg, e, queue, a) && Has(cfg, home, e, [], id, s)
    ensures var o := Settle(cfg, e, queue, a);
            var mine := Project(o.events, id);
            Accepts(home(id), s, mine, now) && Has(cfg, home, o.engine, [], id, FireAll(s, mine))
  {
    hide Balanced, OnePlace, HotCount, BookOf, AfterSettle, Until, Touches, Project, FireAll, Accepts, Same;
    NoEvents(home(id), s, now);
    var o, i := Settle(cfg, e, queue, a), ShardIdx(cfg, queue);
    var p := SettleGives(cfg, home, e, queue, a);
    ProjectOne(home(id), s, Acked(queue, a.id, a.receipt), id, now);
    if id == a.id {
      LeasedStatus(cfg, home, e, queue, a, s);
    } else {
      SettleTouches(cfg, BookOf(cfg, e, []), a.id, p, e.disk + [WalRecord.Ack(a.id, queue)]);
      SettleSame(e.shards[i], queue, a, id);
      OtherLife(cfg, home, e, [], o.engine, [], i, a.id, id, s);
    }
  }

  lemma SettleGives(cfg: Config, home: Homes, e: Engine, queue: string, a: Receipted) returns (p: string)
    requires Inv(cfg, home, e, []) && CanAck(cfg, e, queue, a)
    ensures var o, i := Settle(cfg, e, queue, a), ShardIdx(cfg, queue);
            && o.engine.shards == e.shards[i := SettledShard(e.shards[i], queue, a)]
            && o.events == [Acked(queue, a.id, a.receipt)]
            && Finished(cfg, home, BookOf(cfg, o.engine, []), a.id)
            && BookOf(cfg, o.engine, [])
               == AfterSettle(cfg, BookOf(cfg, e, []), a.id, p).(disk := e.disk + [WalRecord.Ack(a.id, queue)])
  {
    hide Inv, BookOf, AfterSettle;
    SettleInv(cfg, home, e, queue, a);
    SettleShape(cfg, e, queue, a);
    p := ShardFor(cfg, e, queue).messages[a.id].queue;
  }
}
