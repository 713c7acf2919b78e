/** The queue engine (walrq/src/engine/queue.rs) as a value: what every call does to the shards, the
    active log segment and the counters. `class QueueEngines.QueueEngine` does the same in place.

    Each public call is one step. The clock, fresh receipts and the orders in which hash maps are
    iterated are parameters. The active segment is kept as its records; `Framing.ReadOfEncoded`
    shows that reading it in chunks by byte offset is reading it record by record. */
module EngineSpec {
  import opened Basics
  import opened WalCodec
  import Framing
  import Q = Queues
  import W = Wheels

  const NUM_SHARDS: nat := 32

  /** `hash` stands for the FNV hash of a queue name. The delivery limit of a message is that of the
      engine that stored it. */
  datatype Config = Config(
    hash: string -> nat,
    defaultTimeout: nat,
    maxDelivery: nat,
    cap: nat,
    maxSegment: nat)

  function ShardIdx(cfg: Config, queue: string): (i: nat)
    ensures i < NUM_SHARDS
  {
    cfg.hash(queue) % NUM_SHARDS
  }

  datatype Msg = Msg(queue: string, payload: Bytes, visibleAt: nat, delivery: nat)

  datatype Shard = Shard(
    queues: map<string, Q.Queue>,
    messages: map<Id, Msg>,
    seen: set<Id>,
    acked: set<Id>,
    wheel: W.Wheel)

  function NewShard(): Shard {
    Shard(map[], map[], {}, {}, W.NewWheel(3600))
  }

  datatype EngineState = EngineState(
    shards: seq<Shard>,
    /** Records of the active segment. */
    disk: seq<WalRecord>,
    /** How many of them lie before `spill_read_offset`. */
    spill: nat,
    total: int)

  type Engine = e: EngineState | |e.shards| == NUM_SHARDS && e.spill <= |e.disk|
    witness EngineState(seq(NUM_SHARDS, _ => NewShard()), [], 0, 0)

  function NewEngine(): Engine {
    EngineState(seq(NUM_SHARDS, _ => NewShard()), [], 0, 0)
  }

  function WithShard(e: Engine, i: nat, sh: Shard): Engine
    requires i < NUM_SHARDS
  {
    e.(shards := e.shards[i := sh])
  }

  function ShardFor(cfg: Config, e: Engine, queue: string): Shard {
    e.shards[ShardIdx(cfg, queue)]
  }

  function Log(e: Engine, r: WalRecord): Engine {
    e.(disk := e.disk + [r])
  }

  // ---------------------------------------------------------------- pieces of a shard

  function QueueOr(sh: Shard, name: string, now: nat): Q.Queue {
    if name in sh.queues then sh.queues[name] else Q.NewQueue(now)
  }

  function Noted(sh: Shard, id: Id): Shard {
    sh.(seen := sh.seen + {id})
  }

  function MarkAcked(sh: Shard, id: Id): Shard {
    sh.(acked := sh.acked + {id})
  }

  /** Files a message under its queue and remembers it. */
  function Enqueue(sh: Shard, id: Id, msg: Msg, now: nat): Shard {
    sh.(queues := sh.queues[msg.queue := Q.Insert(QueueOr(sh, msg.queue, now), id, msg.visibleAt, now)],
        messages := sh.messages[id := msg])
  }

  function Tombstone(sh: Shard, name: string, id: Id): Shard {
    if name in sh.queues then sh.(queues := sh.queues[name := Q.MarkDeleted(sh.queues[name], id)]) else sh
  }

  // ---------------------------------------------------------------- what callers can observe

  /** Where an accepted push went: only onto disk, into RAM to become due later, or straight into
      the ready queue. */
  datatype Place = Spilled | Delayed | Ready

  datatype Event =
    /** A push was accepted. */
    | Stored(queue: string, id: Id, place: Place)
    /** A poll handed the message out for the `count`-th time, on lease from `now` until `until`. */
    | Delivered(queue: string, id: Id, count: nat, now: nat, until: nat, receipt: Receipt)
    /** An ack of the message under this receipt returned true. */
    | Acked(queue: string, id: Id, receipt: Receipt)

  /** The engine after a call and what the call did. */
  datatype Outcome = Outcome(engine: Engine, events: seq<Event>)

  // ---------------------------------------------------------------- compaction

  function RecordOf(id: Id, msg: Msg): WalRecord {
    Push(id, msg.queue, msg.visibleAt, msg.payload)
  }

  ghost predicate SurvivesIn(e: Engine, r: WalRecord) {
    exists i :: 0 <= i < NUM_SHARDS && r.id in e.shards[i].messages && r == RecordOf(r.id, e.shards[i].messages[r.id])
  }

  /** `survivors` lists the hot messages of all shards, in whatever order the hash maps yield them. */
  ghost predicate IsSurvivorList(e: Engine, survivors: seq<WalRecord>) {
    forall r :: r in survivors <==> SurvivesIn(e, r)
  }

  predicate ShouldCompact(cfg: Config, e: Engine) {
    e.spill == |e.disk| && cfg.maxSegment <= Framing.BytesOf(Size, e.disk)
  }

  function MaybeCompact(cfg: Config, e: Engine, survivors: seq<WalRecord>): Engine {
    if ShouldCompact(cfg, e) then e.(disk := survivors, spill := 0) else e
  }

  // ---------------------------------------------------------------- push

  datatype Item = Item(id: Id, payload: Bytes, delay: nat)

  predicate Seen(cfg: Config, e: Engine, queue: string, id: Id) {
    id in ShardFor(cfg, e, queue).seen
  }

  predicate HasRoom(cfg: Config, e: Engine, queue: string, id: Id, delay: nat) {
    delay <= Q.HORIZON && e.total < cfg.cap && id !in ShardFor(cfg, e, queue).messages
  }

  function MsgOf(queue: string, item: Item, now: nat): Msg {
    Msg(queue, item.payload, now + item.delay, 0)
  }

  /** A push not seen before: into RAM when it is due soon enough and there is room, else it is only
      on disk. */
  function Admit(cfg: Config, e: Engine, queue: string, item: Item, now: nat): Outcome {
    var i := ShardIdx(cfg, queue);
    var sh := Noted(e.shards[i], item.id);
    if HasRoom(cfg, e, queue, item.id, item.delay) then
      Outcome(WithShard(e, i, Enqueue(sh, item.id, MsgOf(queue, item, now), now)).(total := e.total + 1),
              [Stored(queue, item.id, if item.delay == 0 then Ready else Delayed)])
    else Outcome(WithShard(e, i, sh), [Stored(queue, item.id, Spilled)])
  }

  function PushRecord(queue: string, item: Item, now: nat): WalRecord {
    WalRecord.Push(item.id, queue, now + item.delay, item.payload)
  }

  /** `push_with_ulid`: the record is logged even when the id turns out to be a duplicate. The check for
      compaction that ends a push, or an ack, never passes; `QueueEngines` makes it. */
  function PushOne(cfg: Config, e: Engine, queue: string, item: Item, now: nat): Outcome {
    var e1 := Log(e, PushRecord(queue, item, now));
    if Seen(cfg, e1, queue, item.id) then Outcome(e1, []) else Admit(cfg, e1, queue, item, now)
  }

  /** One item of a batch: duplicates are not even logged. */
  function BatchItem(cfg: Config, e: Engine, queue: string, item: Item, now: nat): Outcome {
    if Seen(cfg, e, queue, item.id) then Outcome(e, [])
    else Admit(cfg, Log(e, PushRecord(queue, item, now)), queue, item, now)
  }

  function BatchItems(cfg: Config, e: Engine, queue: string, items: seq<Item>, now: nat): Outcome {
    if items == [] then Outcome(e, [])
    else
      var before := BatchItems(cfg, e, queue, items[..|items| - 1], now);
      var o := BatchItem(cfg, before.engine, queue, items[|items| - 1], now);
      Outcome(o.engine, before.events + o.events)
  }

  function PushBatch(cfg: Config, e: Engine, queue: string, items: seq<Item>, now: nat,
                     survivors: seq<WalRecord>): Outcome {
    var o := BatchItems(cfg, e, queue, items, now);
    Outcome(MaybeCompact(cfg, o.engine, survivors), o.events)
  }

  // ---------------------------------------------------------------- poll, phase 1 and 2: expired leases

  /** A message taken out of `messages` because its lease ran out, on its way back to a queue. */
  datatype Limbo = Limbo(id: Id, msg: Msg)

  datatype Taken = Taken(shard: Shard, limbo: seq<Limbo>)

  function TakeMessages(sh: Shard, items: seq<W.Item>): Taken {
    if items == [] then Taken(sh, [])
    else
      var t := TakeMessages(sh, items[..|items| - 1]);
      var id := items[|items| - 1].id;
      if id in t.shard.messages then
        Taken(t.shard.(messages := t.shard.messages - {id}), t.limbo + [Limbo(id, t.shard.messages[id])])
      else t
  }

  function Expire(sh: Shard, now: nat): Taken {
    var c := W.Collect(sh.wheel, now);
    TakeMessages(sh.(wheel := c.wheel), c.expired)
  }

  function DeadLetter(queue: string): string {
    queue + ".dlq"
  }

  function Route(cfg: Config, e: Engine, x: Limbo, now: nat): Engine {
    if cfg.maxDelivery <= x.msg.delivery then
      var from := ShardIdx(cfg, x.msg.queue);
      var e1 := WithShard(e, from, Tombstone(MarkAcked(e.shards[from], x.id), x.msg.queue, x.id));
      var msg := x.msg.(queue := DeadLetter(x.msg.queue), visibleAt := now);
      var to := ShardIdx(cfg, msg.queue);
      WithShard(e1, to, Enqueue(Noted(e1.shards[to], x.id), x.id, msg, now))
    else
      var to := ShardIdx(cfg, x.msg.queue);
      WithShard(e, to, Enqueue(e.shards[to], x.id, x.msg.(visibleAt := now), now))
  }

  function RouteAll(cfg: Config, e: Engine, limbo: seq<Limbo>, now: nat): Engine {
    if limbo == [] then e
    else Route(cfg, RouteAll(cfg, e, limbo[..|limbo| - 1], now), limbo[|limbo| - 1], now)
  }

  // ---------------------------------------------------------------- poll, phase 3: paging in spilled messages

  function PageRecord(cfg: Config, e: Engine, r: WalRecord, now: nat): Engine {
    var i := ShardIdx(cfg, r.queue);
    var sh := e.shards[i];
    match r
    case Push(id, queue, visibleAt, payload) =>
      if visibleAt <= now + Q.HORIZON && id !in sh.messages && id !in sh.acked then
        var sh' := Enqueue(Noted(sh, id), id, Msg(queue, payload, visibleAt, 0), now);
        WithShard(e, i, sh').(total := e.total + 1)
      else e
    case Ack(id, queue) =>
      var sh' := Tombstone(sh.(acked := sh.acked + {id}, messages := sh.messages - {id}), queue, id);
      WithShard(e, i, sh').(total := e.total - if id in sh.messages then 1 else 0)
  }

  function PageRecords(cfg: Config, e: Engine, records: seq<WalRecord>, now: nat): (r: Engine)
    ensures r.disk == e.disk && r.spill == e.spill
  {
    if records == [] then e
    else PageRecord(cfg, PageRecords(cfg, e, records[..|records| - 1], now), records[|records| - 1], now)
  }

  function RecordsOfShard(cfg: Config, records: seq<WalRecord>, i: nat): seq<WalRecord> {
    if records == [] then []
    else
      var r := records[|records| - 1];
      RecordsOfShard(cfg, records[..|records| - 1], i) + if ShardIdx(cfg, r.queue) == i then [r] else []
  }

  /** The records in the order in which they are applied: shard by shard. */
  function Grouped(cfg: Config, records: seq<WalRecord>, shards: nat): seq<WalRecord> {
    if shards == 0 then [] else Grouped(cfg, records, shards - 1) + RecordsOfShard(cfg, records, shards - 1)
  }

  /** How many messages of the target queue a group of records brings in. */
  function TargetAdded(cfg: Config, e: Engine, records: seq<WalRecord>, now: nat, target: string): nat {
    if records == [] then 0
    else
      var front, r := records[..|records| - 1], records[|records| - 1];
      var mid := PageRecords(cfg, e, front, now);
      TargetAdded(cfg, e, front, now, target)
      + if r.Push? && r.queue == target && PageRecord(cfg, mid, r, now).total != mid.total then 1 else 0
  }

  predicate HasPush(records: seq<WalRecord>) {
    exists k :: 0 <= k < |records| && records[k].Push?
  }

  /** Number of records the next read of the segment returns. */
  function ChunkLen(e: Engine, limit: nat): (n: nat)
    ensures e.spill + n <= |e.disk|
  {
    Framing.RecordsInRead(Size, e.disk[e.spill..], Framing.CHUNK, limit)
  }

  datatype Paging = Stop(engine: Engine) | Continue(engine: Engine, flushed: bool)

  /** One turn of the paging loop: apply a chunk of records; or flush once; or, at the end of the
      segment, wrap the offset to the start and stop. */
  function PageStep(cfg: Config, e: Engine, target: string, now: nat, limit: nat, flushed: bool): (p: Paging)
    ensures p.engine.disk == e.disk
    ensures p.Continue? ==> e.spill < p.engine.spill || (p.engine.spill == e.spill && !flushed && p.flushed)
  {
    var n := ChunkLen(e, limit);
    if 0 < n then
      var records := e.disk[e.spill..e.spill + n];
      var e1 := e.(spill := e.spill + n);
      if !HasPush(records) then Continue(e1, flushed)
      else
        var grouped := Grouped(cfg, records, NUM_SHARDS);
        var e2 := PageRecords(cfg, e1, grouped, now);
        if 0 < TargetAdded(cfg, e1, grouped, now, target) || cfg.cap <= e2.total then Stop(e2)
        else Continue(e2, flushed)
    else if !flushed then Continue(e, true)
    else Stop(e.(spill := 0))
  }

  /** `page_in_cold_spill`: reads chunks from the spill offset on until one brings a message of the
      target queue or fills the RAM, or the end of the segment is reached. */
  function PageIn(cfg: Config, e: Engine, target: string, now: nat, limit: nat, flushed: bool): (r: Engine)
    ensures r.disk == e.disk
    decreases |e.disk| - e.spill, if flushed then 0 else 1
  {
    match PageStep(cfg, e, target, now, limit, flushed)
    case Stop(e') => e'
    case Continue(e', flushed') => PageIn(cfg, e', target, now, limit, flushed')
  }

  function Prefetch(max: nat): nat {
    Max(max * 2, 200)
  }

  predicate NeedsPageIn(cfg: Config, e: Engine, queue: string, max: nat) {
    var sh := ShardFor(cfg, e, queue);
    queue in sh.queues ==> Q.ReadyLen(sh.queues[queue]) < Prefetch(max)
  }

  function PageInFor(cfg: Config, e: Engine, queue: string, now: nat, max: nat): Engine {
    if NeedsPageIn(cfg, e, queue, max) then PageIn(cfg, e, queue, now, Max(Prefetch(max), 1000), false) else e
  }

  // ---------------------------------------------------------------- poll, phase 4: claiming

  datatype Claimed = Claimed(queue: Q.Queue, ids: seq<Id>)

  function Claim(q: Q.Queue, max: nat): Claimed
    decreases max
  {
    if max == 0 then Claimed(q, [])
    else
      var p := Q.PopReady(q);
      match p.id
      case None => Claimed(p.queue, [])
      case Some(id) =>
        var rest := Claim(p.queue, max - 1);
        Claimed(rest.queue, [id] + rest.ids)
  }

  datatype Lease = Lease(queue: string, now: nat, until: nat)

  datatype Leased = Leased(shard: Shard, events: seq<Event>)

  function LeaseOne(sh: Shard, id: Id, l: Lease, receipt: Receipt): Leased {
    if id in sh.messages then
      var msg := sh.messages[id].(delivery := sh.messages[id].delivery + 1);
      Leased(sh.(messages := sh.messages[id := msg],
                 wheel := W.Insert(sh.wheel, W.Item(id, l.queue, receipt, l.until))),
             [Delivered(l.queue, id, msg.delivery, l.now, l.until, receipt)])
    else Leased(sh, [])
  }

  function LeaseAll(sh: Shard, ids: seq<Id>, l: Lease, receipts: nat -> Receipt): Leased {
    if ids == [] then Leased(sh, [])
    else
      var before := LeaseAll(sh, ids[..|ids| - 1], l, receipts);
      var one := LeaseOne(before.shard, ids[|ids| - 1], l, receipts(|ids| - 1));
      Leased(one.shard, before.events + one.events)
  }

  function ClaimFrom(sh: Shard, l: Lease, max: nat, secs: seq<nat>, receipts: nat -> Receipt): Leased {
    if l.queue in sh.queues then
      var c := Claim(Q.Drain(sh.queues[l.queue], l.now, secs), max);
      LeaseAll(sh.(queues := sh.queues[l.queue := c.queue]), c.ids, l, receipts)
    else Leased(sh, [])
  }

  // ---------------------------------------------------------------- poll

  function Returned(cfg: Config, e: Engine, queue: string, now: nat): Engine {
    var i := ShardIdx(cfg, queue);
    var t := Expire(e.shards[i], now);
    RouteAll(cfg, WithShard(e, i, t.shard), t.limbo, now)
  }

  /** The engine when a poll starts to claim: leases returned, spilled messages paged in. */
  function ReadyToClaim(cfg: Config, e: Engine, queue: string, now: nat, max: nat): Engine {
    PageInFor(cfg, Returned(cfg, e, queue, now), queue, now, max)
  }

  function Timeout(cfg: Config, visibility: nat): nat {
    if visibility == 0 then cfg.defaultTimeout else visibility
  }

  function Poll(cfg: Config, e: Engine, queue: string, now: nat, visibility: nat, max: nat,
                secs: seq<nat>, receipts: nat -> Receipt): Outcome
  {
    var e1 := ReadyToClaim(cfg, e, queue, now, max);
    var i := ShardIdx(cfg, queue);
    var c := ClaimFrom(e1.shards[i], Lease(queue, now, now + Timeout(cfg, visibility)), max, secs, receipts);
    Outcome(WithShard(e1, i, c.shard), c.events)
  }

  // ---------------------------------------------------------------- ack

  datatype Receipted = Receipted(id: Id, receipt: Receipt)

  predicate CanAck(cfg: Config, e: Engine, queue: string, a: Receipted) {
    W.Valid(ShardFor(cfg, e, queue).wheel, a.id, a.receipt)
  }

  /** An acknowledgement under a valid receipt. */
  function Settle(cfg: Config, e: Engine, queue: string, a: Receipted): Outcome {
    var i := ShardIdx(cfg, queue);
    var sh := e.shards[i];
    var hot := a.id in sh.messages;
    var sh1 := sh.(wheel := W.RemoveIfValid(sh.wheel, a.id, a.receipt),
                   acked := sh.acked + {a.id},
                   messages := sh.messages - {a.id});
    var sh2 := if hot then Tombstone(sh1, queue, a.id) else sh1;
    Outcome(Log(WithShard(e, i, sh2), WalRecord.Ack(a.id, queue)).(total := e.total - if hot then 1 else 0),
            [Acked(queue, a.id, a.receipt)])
  }

  function AckOne(cfg: Config, e: Engine, queue: string, a: Receipted): Outcome {
    if CanAck(cfg, e, queue, a) then Settle(cfg, e, queue, a) else Outcome(e, [])
  }

  function AckItems(cfg: Config, e: Engine, queue: string, items: seq<Receipted>): Outcome {
    if items == [] then Outcome(e, [])
    else
      var before := AckItems(cfg, e, queue, items[..|items| - 1]);
      var o := AckOne(cfg, before.engine, queue, items[|items| - 1]);
      Outcome(o.engine, before.events + o.events)
  }

  function AckBatch(cfg: Config, e: Engine, queue: string, items: seq<Receipted>, survivors: seq<WalRecord>): Outcome {
    var o := AckItems(cfg, e, queue, items);
    Outcome(MaybeCompact(cfg, o.engine, survivors), o.events)
  }
}
