/** One named queue inside a shard (walrq/src/engine/queue.rs, `SingleQueue`).

    `Queue` is its state as a value; `class SingleQueues.SingleQueue` performs the same operations
    in place. The map of delay buckets is iterated in no particular order, so draining takes the
    order as a parameter and everything is proved for all orders. */
module Queues {
  import opened Basics

  /** Horizon of the in-memory delay buckets, in seconds. */
  const HORIZON: nat := 300

  datatype FarItem = FarItem(id: Id, visibleAt: nat)

  datatype Queue = Queue(
    ready: seq<Id>,
    buckets: map<nat, seq<Id>>,
    far: seq<FarItem>,
    deleted: set<Id>,
    lastDrained: nat)

  function NewQueue(now: nat): Queue {
    Queue([], map[], [], {}, now)
  }

  function Bucket(buckets: map<nat, seq<Id>>, sec: nat): seq<Id> {
    if sec in buckets then buckets[sec] else []
  }

  function AddToBucket(buckets: map<nat, seq<Id>>, sec: nat, id: Id): map<nat, seq<Id>> {
    buckets[sec := Bucket(buckets, sec) + [id]]
  }

  function Insert(q: Queue, id: Id, visibleAt: nat, now: nat): Queue {
    var q' := q.(deleted := q.deleted - {id});
    if visibleAt <= now then q'.(ready := q'.ready + [id])
    else if visibleAt <= now + HORIZON then q'.(buckets := AddToBucket(q'.buckets, visibleAt, id))
    else q'.(far := q'.far + [FarItem(id, visibleAt)])
  }

  function MarkDeleted(q: Queue, id: Id): Queue {
    if q.ready != [] && q.ready[0] == id then q.(ready := q.ready[1..])
    else q.(deleted := q.deleted + {id})
  }

  function ReadyLen(q: Queue): nat {
    SatSub(|q.ready|, |q.deleted|)
  }

  datatype Popped = Popped(queue: Queue, id: Option<Id>)

  /** Pops the first entry without a tombstone; an emptied deque forgets all tombstones. */
  function PopReady(q: Queue): Popped
    decreases |q.ready|
  {
    if q.ready == [] then Popped(q.(deleted := {}), None)
    else
      var id, q' := q.ready[0], q.(ready := q.ready[1..]);
      if id in q.deleted then PopReady(q'.(deleted := q.deleted - {id}))
      else Popped(q', Some(id))
  }

  // ---------------------------------------------------------------- draining

  /** The minute a far-future item is filed under once it enters the horizon. */
  function MinuteOf(visibleAt: nat): nat {
    (visibleAt / 60) * 60
  }

  /** Far-future items entering the horizon move to their minute's bucket, deleted ones vanish. */
  function Promote(q: Queue, far: seq<FarItem>, limit: nat): Queue {
    if far == [] then q.(far := [])
    else
      var item := far[|far| - 1];
      var q' := Promote(q, far[..|far| - 1], limit);
      if item.id in q.deleted then q'
      else if item.visibleAt <= limit then q'.(buckets := AddToBucket(q'.buckets, MinuteOf(item.visibleAt), item.id))
      else q'.(far := q'.far + [item])
  }

  /** Appends a matured bucket to `ready`; an id with a tombstone is dropped together with it. */
  function Mature(q: Queue, ids: seq<Id>): Queue {
    if ids == [] then q
    else
      var id := ids[|ids| - 1];
      var q' := Mature(q, ids[..|ids| - 1]);
      if id in q'.deleted then q'.(deleted := q'.deleted - {id}) else q'.(ready := q'.ready + [id])
  }

  function MatureSecond(q: Queue, sec: nat): Queue {
    Mature(q.(buckets := q.buckets - {sec}), Bucket(q.buckets, sec))
  }

  function MatureAll(q: Queue, secs: seq<nat>): Queue {
    if secs == [] then q else MatureSecond(MatureAll(q, secs[..|secs| - 1]), secs[|secs| - 1])
  }

  function Promoted(q: Queue, now: nat): Queue {
    Promote(q, q.far, now + HORIZON)
  }

  /** The bucket keys that a drain at `now` empties. */
  function DueSecs(q: Queue, now: nat): set<nat> {
    set sec | sec in Promoted(q, now).buckets && sec <= now
  }

  /** `secs` lists the due buckets, in whatever order the hash map yields them. A drain at a time
      before the last one empties none. */
  ghost predicate IsDrainOrder(q: Queue, now: nat, secs: seq<nat>) {
    q.lastDrained <= now ==> NoDup(secs) && Elems(secs) == DueSecs(q, now)
  }

  function Drain(q: Queue, now: nat, secs: seq<nat>): Queue {
    if now < q.lastDrained then q
    else MatureAll(Promoted(q, now), secs).(lastDrained := now)
  }

  // ---------------------------------------------------------------- where an id sits

  predicate InBucket(q: Queue, sec: nat, id: Id) {
    sec in q.buckets && id in q.buckets[sec]
  }

  ghost predicate InBuckets(q: Queue, id: Id) {
    exists sec :: InBucket(q, sec, id)
  }

  ghost predicate InFar(q: Queue, id: Id) {
    exists k :: 0 <= k < |q.far| && q.far[k].id == id
  }

  /** The queue has an entry for `id`. */
  ghost predicate Holds(q: Queue, id: Id) {
    id in q.ready || InBuckets(q, id) || InFar(q, id)
  }

  ghost predicate Enters(far: seq<FarItem>, limit: nat, sec: nat, id: Id) {
    exists k :: 0 <= k < |far| && far[k].id == id && far[k].visibleAt <= limit && MinuteOf(far[k].visibleAt) == sec
  }

  lemma {:induction false} PromoteEffect(q: Queue, far: seq<FarItem>, limit: nat)
    ensures var r := Promote(q, far, limit);
            && r.ready == q.ready && r.deleted == q.deleted && r.lastDrained == q.lastDrained
            && (forall item :: item in r.far <==> item in far && item.id !in q.deleted && limit < item.visibleAt)
            && (forall sec, id :: InBucket(r, sec, id) <==>
                  InBucket(q, sec, id) || (id !in q.deleted && Enters(far, limit, sec, id)))
  {
    if far != [] {
      var front, item := far[..|far| - 1], far[|far| - 1];
      assert far == front + [item];
      PromoteEffect(q, front, limit);
      var p, r := Promote(q, front, limit), Promote(q, far, limit);
      forall sec, id
        ensures InBucket(r, sec, id) <==>
                  InBucket(q, sec, id) || (id !in q.deleted && Enters(far, limit, sec, id))
      {
        assert InBucket(p, sec, id) ==> InBucket(r, sec, id);
        assert forall k :: 0 <= k < |front| ==> front[k] == far[k];
        assert far[|far| - 1] == item;
      }
    }
  }

  lemma {:induction false} MatureEffect(q: Queue, ids: seq<Id>)
    ensures var r := Mature(q, ids);
            && r.buckets == q.buckets && r.far == q.far && r.lastDrained == q.lastDrained
            && r.deleted <= q.deleted
            && q.ready <= r.ready
            && (forall id :: id in ids && id !in q.deleted ==> id in r.ready)
            && (forall id :: id in r.ready ==> id in q.ready || id in ids)
  {
    if ids != [] {
      var front, id := ids[..|ids| - 1], ids[|ids| - 1];
      assert ids == front + [id];
      MatureEffect(q, front);
    }
  }

  lemma {:induction false} MatureAllEffect(q: Queue, secs: seq<nat>)
    ensures var r := MatureAll(q, secs);
            && r.buckets == q.buckets - Elems(secs) && r.far == q.far && r.lastDrained == q.lastDrained
            && r.deleted <= q.deleted
            && q.ready <= r.ready
            && (forall sec, id :: sec in secs && InBucket(q, sec, id) && id !in q.deleted ==> id in r.ready)
            && (forall id :: id in r.ready ==> id in q.ready || exists sec :: sec in secs && InBucket(q, sec, id))
  {
    if secs == [] {
      assert q.buckets - Elems(secs) == q.buckets;
    } else {
      var front, sec := secs[..|secs| - 1], secs[|secs| - 1];
      assert secs == front + [sec];
      MatureAllEffect(q, front);
      var m := MatureAll(q, front);
      MatureEffect(m.(buckets := m.buckets - {sec}), Bucket(m.buckets, sec));
      assert Elems(secs) == Elems(front) + {sec};
      assert q.buckets - Elems(front) - {sec} == q.buckets - Elems(secs);
    }
  }

  /** What a drain does to the entries: due buckets go to the end of `ready`, nothing else does. */
  lemma DrainEffect(q: Queue, now: nat, secs: seq<nat>)
    requires IsDrainOrder(q, now, secs) && q.lastDrained <= now
    ensures var p, r := Promoted(q, now), Drain(q, now, secs);
            && r.lastDrained == now
            && q.ready <= r.ready && r.deleted <= q.deleted && r.far == p.far
            && (forall sec, id :: InBucket(r, sec, id) <==> InBucket(p, sec, id) && now < sec)
            && (forall sec: nat, id :: InBucket(p, sec, id) && sec <= now && id !in q.deleted ==> id in r.ready)
            && (forall id :: id in r.ready ==> id in q.ready || exists sec: nat :: InBucket(p, sec, id) && sec <= now)
  {
    var p := Promoted(q, now);
    PromoteEffect(q, q.far, now + HORIZON);
    MatureAllEffect(p, secs);
    assert forall sec :: sec in secs <==> sec in Elems(secs);
  }

  // ---------------------------------------------------------------- one entry per id

  /** Every id has at most one entry, none of them deleted, and nothing is beyond the horizon. */
  ghost predicate Tidy(q: Queue) {
    && q.far == []
    && NoDup(q.ready)
    && (forall sec :: sec in q.buckets ==> NoDup(q.buckets[sec]))
    && (forall sec, id :: InBucket(q, sec, id) ==> id !in q.ready)
    && (forall s, t, id :: InBucket(q, s, id) && InBucket(q, t, id) ==> s == t)
    && (forall id :: id in q.deleted ==> id !in q.ready && !InBuckets(q, id))
  }

  /** The entries of `r` are those of `q` and `more`. */
  ghost predicate HoldsAlso(q: Queue, r: Queue, more: set<Id>) {
    forall id :: Holds(r, id) <==> Holds(q, id) || id in more
  }

  lemma NoDupSnoc<T>(s: seq<T>, x: T)
    requires NoDup(s) && x !in s
    ensures NoDup(s + [x])
  {
  }

  lemma TidyInsert(q: Queue, id: Id, visibleAt: nat, now: nat)
    requires Tidy(q) && !Holds(q, id) && visibleAt <= now + HORIZON
    ensures Tidy(Insert(q, id, visibleAt, now)) && HoldsAlso(q, Insert(q, id, visibleAt, now), {id})
  {
    var r := Insert(q, id, visibleAt, now);
    if visibleAt <= now {
      NoDupSnoc(q.ready, id);
      assert forall sec, x :: InBucket(r, sec, x) <==> InBucket(q, sec, x);
    } else {
      assert !InBucket(q, visibleAt, id);
      NoDupSnoc(Bucket(q.buckets, visibleAt), id);
      assert forall sec, x :: InBucket(r, sec, x) <==> InBucket(q, sec, x) || (sec == visibleAt && x == id);
      assert InBucket(r, visibleAt, id);
    }
  }

  lemma TidyMarkDeleted(q: Queue, id: Id)
    requires Tidy(q) && !Holds(q, id)
    ensures Tidy(MarkDeleted(q, id)) && HoldsAlso(q, MarkDeleted(q, id), {})
    ensures MarkDeleted(q, id).ready == q.ready
  {
    var r := MarkDeleted(q, id);
    assert forall sec, x :: InBucket(r, sec, x) <==> InBucket(q, sec, x);
  }

  /** In a tidy queue popping yields the front of the deque and nothing is skipped. */
  lemma TidyPop(q: Queue)
    requires Tidy(q)
    ensures var p := PopReady(q);
            && Tidy(p.queue)
            && (p.id == if q.ready == [] then None else Some(q.ready[0]))
            && p.queue.ready == (if q.ready == [] then [] else q.ready[1..])
            && (forall id: Id :: Holds(p.queue, id) <==> Holds(q, id) && p.id != Some(id))
  {
    var p := PopReady(q);
    assert forall sec, x :: InBucket(p.queue, sec, x) <==> InBucket(q, sec, x);
    if q.ready != [] {
      assert q.ready[0] !in q.deleted;
      assert forall x :: x in q.ready <==> x == q.ready[0] || x in q.ready[1..];
    }
  }

  lemma {:induction false} MatureTidy(q: Queue, ids: seq<Id>)
    requires NoDup(q.ready) && NoDup(ids)
    requires forall id :: id in ids ==> id !in q.ready && id !in q.deleted
    ensures Mature(q, ids) == q.(ready := q.ready + ids) && NoDup(q.ready + ids)
  {
    if ids == [] {
      EmptyRight(q.ready);
    } else {
      var front, id := ids[..|ids| - 1], ids[|ids| - 1];
      assert ids == front + [id];
      MatureTidy(q, front);
      Assoc(q.ready, front, [id]);
      NoDupSnoc(q.ready + front, id);
    }
  }

  lemma {:induction false} TidyMatureAll(q: Queue, secs: seq<nat>)
    requires Tidy(q) && NoDup(secs)
    ensures Tidy(MatureAll(q, secs)) && HoldsAlso(q, MatureAll(q, secs), {})
    ensures q.ready <= MatureAll(q, secs).ready
  {
    if secs != [] {
      var front, sec := secs[..|secs| - 1], secs[|secs| - 1];
      TidyMatureAll(q, front);
      TidyMatureSecond(MatureAll(q, front), sec);
    }
  }

  lemma TidyMatureSecond(q: Queue, sec: nat)
    requires Tidy(q)
    ensures Tidy(MatureSecond(q, sec)) && HoldsAlso(q, MatureSecond(q, sec), {})
    ensures q.ready <= MatureSecond(q, sec).ready
  {
    var ids := Bucket(q.buckets, sec);
    var m, r := q.(buckets := q.buckets - {sec}), MatureSecond(q, sec);
    assert forall x :: x in ids <==> InBucket(q, sec, x);
    MatureTidy(m, ids);
    assert forall s, x :: InBucket(r, s, x) <==> InBucket(q, s, x) && s != sec;
    assert forall x :: x in r.ready <==> x in q.ready || InBucket(q, sec, x);
  }

  /** Draining a tidy queue moves entries but keeps them all, the ready ones in front. */
  lemma TidyDrain(q: Queue, now: nat, secs: seq<nat>)
    requires Tidy(q) && IsDrainOrder(q, now, secs)
    ensures Tidy(Drain(q, now, secs)) && HoldsAlso(q, Drain(q, now, secs), {})
    ensures q.ready <= Drain(q, now, secs).ready
  {
    if q.lastDrained <= now {
      assert Promoted(q, now) == q;
      TidyMatureAll(q, secs);
      var m := MatureAll(q, secs);
      assert forall sec, x :: InBucket(m.(lastDrained := now), sec, x) <==> InBucket(m, sec, x);
    }
  }

  // ---------------------------------------------------------------- delay timing over whole runs

  datatype Op =
    | InsertOp(id: Id, visibleAt: nat, now: nat)
    | DeleteOp(id: Id)
    | PopOp
    | DrainOp(now: nat, secs: seq<nat>)

  function Step(q: Queue, op: Op): Queue {
    match op
    case InsertOp(id, visibleAt, now) => Insert(q, id, visibleAt, now)
    case DeleteOp(id) => MarkDeleted(q, id)
    case PopOp => PopReady(q).queue
    case DrainOp(now, secs) => Drain(q, now, secs)
  }

  /** When each id was last scheduled for, and whether that was within the horizon. */
  datatype Book = Book(due: map<Id, nat>, near: set<Id>)

  function Record(b: Book, op: Op): Book {
    match op
    case InsertOp(id, visibleAt, now) =>
      Book(b.due[id := visibleAt], if visibleAt <= now + HORIZON then b.near + {id} else b.near - {id})
    case _ => b
  }

  /** An id is not inserted while it still has an entry, and draining uses a real key order. */
  ghost predicate Allowed(q: Queue, op: Op) {
    match op
    case InsertOp(id, _, _) => !Holds(q, id)
    case DrainOp(now, secs) => IsDrainOrder(q, now, secs)
    case _ => true
  }

  ghost predicate WellFiled(q: Queue, b: Book) {
    && (forall sec, id :: InBucket(q, sec, id) ==>
          id in b.due && (if id in b.near then sec == b.due[id] else sec == MinuteOf(b.due[id])))
    && (forall k :: 0 <= k < |q.far| ==>
          q.far[k].id in b.due && b.due[q.far[k].id] == q.far[k].visibleAt && q.far[k].id !in b.near)
    && (forall id :: id in q.ready ==> id in b.due)
  }

  /** The earliest second at which `id` may become ready. */
  function Earliest(b: Book, id: Id): nat
    requires id in b.due
  {
    if id in b.near then b.due[id] else MinuteOf(b.due[id])
  }

  /** The step makes no id ready before its time, and a drain leaves none waiting past its time. */
  ghost predicate Timely(q: Queue, b: Book, op: Op) {
    var q', b' := Step(q, op), Record(b, op);
    && (forall id :: id in q'.ready && id !in q.ready ==>
          id in b'.due && (op.InsertOp? || op.DrainOp?) && Earliest(b', id) <= op.now)
    && (op.DrainOp? && q.lastDrained <= op.now ==>
          forall id :: Holds(q, id) && id !in q.deleted ==>
            id in b.due && (b.due[id] <= op.now ==> id in q'.ready))
  }

  lemma MinuteBounds(v: nat)
    ensures MinuteOf(v) <= v < MinuteOf(v) + 60
  {
  }

  lemma {:induction false} PopEffect(q: Queue)
    ensures var r := PopReady(q).queue;
            && r.buckets == q.buckets && r.far == q.far && r.lastDrained == q.lastDrained
            && |r.ready| <= |q.ready| && r.ready == q.ready[|q.ready| - |r.ready|..]
    decreases |q.ready|
  {
    if q.ready != [] && q.ready[0] in q.deleted {
      PopEffect(q.(ready := q.ready[1..], deleted := q.deleted - {q.ready[0]}));
    }
  }

  lemma InsertTimely(q: Queue, b: Book, op: Op)
    requires WellFiled(q, b) && Allowed(q, op) && op.InsertOp?
    ensures WellFiled(Step(q, op), Record(b, op)) && Timely(q, b, op)
  {
    var q', b' := Step(q, op), Record(b, op);
    forall sec, id | InBucket(q', sec, id)
      ensures id in b'.due && (if id in b'.near then sec == b'.due[id] else sec == MinuteOf(b'.due[id]))
    {
      assert InBucket(q, sec, id) ==> Holds(q, id);
      assert id != op.id ==> InBucket(q, sec, id);
    }
  }

  lemma DrainTimely(q: Queue, b: Book, op: Op)
    requires WellFiled(q, b) && Allowed(q, op) && op.DrainOp?
    ensures WellFiled(Step(q, op), b) && Timely(q, b, op)
  {
    if q.lastDrained <= op.now {
      var p, q' := Promoted(q, op.now), Step(q, op);
      DrainEffect(q, op.now, op.secs);
      PromoteEffect(q, q.far, op.now + HORIZON);
      forall k | 0 <= k < |q'.far|
        ensures q'.far[k] in q.far
      {
        assert q'.far[k] in p.far;
      }
      forall id | Holds(q, id) && id !in q.deleted
        ensures id in b.due && (b.due[id] <= op.now ==> id in q'.ready)
      {
        if InBuckets(q, id) {
          var sec :| InBucket(q, sec, id);
          MinuteBounds(b.due[id]);
          assert InBucket(p, sec, id);
        } else if InFar(q, id) {
          var k :| 0 <= k < |q.far| && q.far[k].id == id;
          MinuteBounds(b.due[id]);
          assert b.due[id] <= op.now ==> Enters(q.far, op.now + HORIZON, MinuteOf(b.due[id]), id);
          assert b.due[id] <= op.now ==> InBucket(p, MinuteOf(b.due[id]), id);
        }
      }
    }
  }

  lemma StepTimely(q: Queue, b: Book, op: Op)
    requires WellFiled(q, b) && Allowed(q, op)
    ensures WellFiled(Step(q, op), Record(b, op)) && Timely(q, b, op)
  {
    match op
    case InsertOp(_, _, _) => InsertTimely(q, b, op);
    case DeleteOp(_) =>
      assert forall sec, id :: InBucket(Step(q, op), sec, id) <==> InBucket(q, sec, id);
    case PopOp =>
      PopEffect(q);
      assert forall sec, id :: InBucket(Step(q, op), sec, id) <==> InBucket(q, sec, id);
    case DrainOp(_, _) => DrainTimely(q, b, op);
  }

  ghost predicate AllowedRun(q: Queue, ops: seq<Op>)
    decreases |ops|
  {
    ops == [] || (Allowed(q, ops[0]) && AllowedRun(Step(q, ops[0]), ops[1..]))
  }

  ghost predicate TimelyRun(q: Queue, b: Book, ops: seq<Op>)
    decreases |ops|
  {
    ops == [] || (Timely(q, b, ops[0]) && TimelyRun(Step(q, ops[0]), Record(b, ops[0]), ops[1..]))
  }

  /** Over every run: nothing becomes ready early, except far-future items up to 59 seconds, and
      nothing live stays hidden past a drain at or after its time. */
  lemma {:induction false} RunTimely(q: Queue, b: Book, ops: seq<Op>)
    requires WellFiled(q, b) && AllowedRun(q, ops)
    ensures TimelyRun(q, b, ops)
    decreases |ops|
  {
    if ops != [] {
      StepTimely(q, b, ops[0]);
      RunTimely(Step(q, ops[0]), Record(b, ops[0]), ops[1..]);
    }
  }

  // ---------------------------------------------------------------- order

  /** The buckets of the given seconds, one after the other. */
  function Gathered(buckets: map<nat, seq<Id>>, secs: seq<nat>): seq<Id> {
    if secs == [] then [] else Gathered(buckets, secs[..|secs| - 1]) + Bucket(buckets, secs[|secs| - 1])
  }

  /** Maturing appends the due buckets as they are, in the given order. */
  lemma {:induction false} MatureAppends(q: Queue, secs: seq<nat>)
    requires Tidy(q) && NoDup(secs)
    ensures var m := MatureAll(q, secs);
            m.ready == q.ready + Gathered(q.buckets, secs) && m.buckets == q.buckets - Elems(secs)
  {
    if secs == [] {
      EmptyRight(q.ready);
      assert q.buckets - {} == q.buckets;
    } else {
      var front, sec := secs[..|secs| - 1], secs[|secs| - 1];
      hide Tidy, MatureSecond;
      MatureAppends(q, front);
      TidyMatureAll(q, front);
      MatureSecondAppends(MatureAll(q, front), sec);
      LessElems(q.buckets, secs);
      Assoc(q.ready, Gathered(q.buckets, front), Bucket(q.buckets, sec));
    }
  }

  lemma MatureSecondAppends(q: Queue, sec: nat)
    requires Tidy(q)
    ensures var m := MatureSecond(q, sec);
            m.ready == q.ready + Bucket(q.buckets, sec) && m.buckets == q.buckets - {sec}
  {
    var ids := Bucket(q.buckets, sec);
    assert forall x :: x in ids <==> InBucket(q, sec, x);
    MatureTidy(q.(buckets := q.buckets - {sec}), ids);
  }

  lemma LessElems(buckets: map<nat, seq<Id>>, secs: seq<nat>)
    requires secs != [] && NoDup(secs)
    ensures var front, sec := secs[..|secs| - 1], secs[|secs| - 1];
            && buckets - Elems(front) - {sec} == buckets - Elems(secs)
            && Bucket(buckets - Elems(front), sec) == Bucket(buckets, sec)
  {
    var front, sec := secs[..|secs| - 1], secs[|secs| - 1];
    Unsnoc(secs);
    assert Elems(secs) == Elems(front) + {sec};
    assert sec !in front;
  }

  /** `a` stands in the list, and `b` not before it. */
  ghost predicate Before(list: seq<Id>, a: Id, b: Id) {
    exists p :: 0 <= p < |list| && list[p] == a && forall r :: 0 <= r <= p ==> list[r] != b
  }

  lemma BeforeMore(list: seq<Id>, more: seq<Id>, a: Id, b: Id)
    requires Before(list, a, b)
    ensures Before(list + more, a, b)
  {
    var p :| 0 <= p < |list| && list[p] == a && forall r :: 0 <= r <= p ==> list[r] != b;
    assert (list + more)[p] == a;
  }

  lemma BeforeWithin(front: seq<Id>, list: seq<Id>, more: seq<Id>, a: Id, b: Id)
    requires Before(list, a, b) && b !in front
    ensures Before(front + list + more, a, b)
  {
    var p :| 0 <= p < |list| && list[p] == a && forall r :: 0 <= r <= p ==> list[r] != b;
    assert (front + list + more)[|front| + p] == a;
  }

  /** `a` is ahead of `b`: ready with `b` not before it, or in one bucket with a later `b`. */
  ghost predicate Precedes(q: Queue, a: Id, b: Id) {
    || Before(q.ready, a, b)
    || exists sec :: sec in q.buckets && Before(q.buckets[sec], a, b) && b in q.buckets[sec]
  }

  /** Operations on a tidy queue as the engine makes them: only ids without an entry are inserted, within the
      horizon, or marked as deleted. */
  ghost predicate TidyOp(q: Queue, op: Op) {
    match op
    case InsertOp(id, visibleAt, now) => !Holds(q, id) && visibleAt <= now + HORIZON
    case DeleteOp(id) => !Holds(q, id)
    case PopOp => true
    case DrainOp(now, secs) => IsDrainOrder(q, now, secs)
  }

  lemma StepTidy(q: Queue, op: Op)
    requires Tidy(q) && TidyOp(q, op)
    ensures Tidy(Step(q, op))
  {
    match op
    case InsertOp(id, visibleAt, now) => TidyInsert(q, id, visibleAt, now);
    case DeleteOp(id) => TidyMarkDeleted(q, id);
    case PopOp => TidyPop(q);
    case DrainOp(now, secs) => TidyDrain(q, now, secs);
  }

  lemma PrecedesInsert(q: Queue, op: Op, a: Id, b: Id)
    requires Tidy(q) && TidyOp(q, op) && op.InsertOp? && Precedes(q, a, b)
    ensures Precedes(Step(q, op), a, b)
  {
    var q' := Step(q, op);
    if Before(q.ready, a, b) {
      BeforeMore(q.ready, if op.visibleAt <= op.now then [op.id] else [], a, b);
      EmptyRight(q.ready);
    } else {
      var sec :| sec in q.buckets && Before(q.buckets[sec], a, b) && b in q.buckets[sec];
      BeforeMore(q.buckets[sec], [op.id], a, b);
      assert sec in q'.buckets && Before(q'.buckets[sec], a, b) && b in q'.buckets[sec];
    }
  }

  lemma {:induction false} GatheredSplit(buckets: map<nat, seq<Id>>, secs: seq<nat>, sec: nat)
    returns (x: seq<Id>, y: seq<Id>)
    requires sec in secs && sec in buckets
    ensures Gathered(buckets, secs) == x + buckets[sec] + y
  {
    var front, last := secs[..|secs| - 1], secs[|secs| - 1];
    if last == sec {
      x, y := Gathered(buckets, front), [];
      EmptyRight(x + buckets[sec]);
    } else {
      x, y := GatheredSplit(buckets, front, sec);
      Assoc(x + buckets[sec], y, Bucket(buckets, last));
      y := y + Bucket(buckets, last);
    }
  }

  lemma PrecedesDrain(q: Queue, now: nat, secs: seq<nat>, a: Id, b: Id)
    requires Tidy(q) && IsDrainOrder(q, now, secs) && Precedes(q, a, b)
    ensures Precedes(Drain(q, now, secs), a, b)
  {
    hide MatureAll, Gathered;
    if q.lastDrained <= now {
      assert Promoted(q, now) == q;
      MatureAppends(q, secs);
      TidyDrain(q, now, secs);
      var q' := Drain(q, now, secs);
      if Before(q.ready, a, b) {
        BeforeMore(q.ready, Gathered(q.buckets, secs), a, b);
      } else {
        var sec :| sec in q.buckets && Before(q.buckets[sec], a, b) && b in q.buckets[sec];
        if sec in secs {
          var x, y := GatheredSplit(q.buckets, secs, sec);
          assert q'.ready == (q.ready + x) + q.buckets[sec] + y;
          OnceIn(q.ready + x, q.buckets[sec], y, b);
          BeforeWithin(q.ready + x, q.buckets[sec], y, a, b);
        } else {
          assert sec in q'.buckets && q'.buckets[sec] == q.buckets[sec];
        }
      }
    }
  }

  lemma OnceIn(front: seq<Id>, list: seq<Id>, more: seq<Id>, b: Id)
    requires NoDup(front + list + more) && b in list
    ensures b !in front
  {
    var k :| 0 <= k < |list| && list[k] == b;
    assert (front + list + more)[|front| + k] == b;
    assert forall j :: 0 <= j < |front| ==> (front + list + more)[j] == front[j];
  }

  /** One operation keeps `a` ahead of `b`, or pops `a`; it does not pop `b`. */
  lemma PrecedesStep(q: Queue, op: Op, a: Id, b: Id)
    requires Tidy(q) && TidyOp(q, op) && Precedes(q, a, b) && a != b
    ensures op.PopOp? ==> PopReady(q).id != Some(b)
    ensures Precedes(Step(q, op), a, b) || (op.PopOp? && PopReady(q).id == Some(a))
  {
    hide Tidy;
    match op
    case InsertOp(_, _, _) => PrecedesInsert(q, op, a, b);
    case DeleteOp(id) => TidyMarkDeleted(q, id);
    case DrainOp(now, secs) => PrecedesDrain(q, now, secs, a, b);
    case PopOp =>
      TidyPop(q);
      PopEffect(q);
      PopsFront(q, a, b);
  }

  lemma PopsFront(q: Queue, a: Id, b: Id)
    requires Tidy(q) && Precedes(q, a, b) && a != b
    ensures q.ready != [] ==> q.ready[0] != b
    ensures q.ready != [] && q.ready[0] != a && Before(q.ready, a, b) ==> Before(q.ready[1..], a, b)
  {
    if q.ready != [] && Before(q.ready, a, b) {
      var p :| 0 <= p < |q.ready| && q.ready[p] == a && forall r :: 0 <= r <= p ==> q.ready[r] != b;
      if 0 < p {
        assert q.ready[1..][p - 1] == a;
      }
    } else if q.ready != [] {
      var sec :| sec in q.buckets && Before(q.buckets[sec], a, b) && b in q.buckets[sec];
      assert InBucket(q, sec, b);
    }
  }

  /** The ids popped by a sequence of operations. */
  function Pops(q: Queue, ops: seq<Op>): seq<Id>
    decreases |ops|
  {
    if ops == [] then []
    else
      (match PopReady(q).id
       case Some(id) => if ops[0].PopOp? then [id] else []
       case None => [])
      + Pops(Step(q, ops[0]), ops[1..])
  }

  ghost predicate TidyOps(q: Queue, ops: seq<Op>)
    decreases |ops|
  {
    ops == [] || (TidyOp(q, ops[0]) && TidyOps(Step(q, ops[0]), ops[1..]))
  }

  /** Of two ids in one bucket, or ready, the earlier is popped first, whatever is inserted, drained or
      deleted in between and in whatever order due buckets are drained. */
  lemma {:induction false} PopsInOrder(q: Queue, ops: seq<Op>, a: Id, b: Id, k: nat)
    requires Tidy(q) && TidyOps(q, ops) && Precedes(q, a, b) && a != b
    requires k < |Pops(q, ops)| && Pops(q, ops)[k] == b
    ensures exists m :: 0 <= m < k && Pops(q, ops)[m] == a
    decreases |ops|
  {
    hide Tidy, Precedes, PopReady, Step, TidyOp;
    var q', rest := Step(q, ops[0]), Pops(Step(q, ops[0]), ops[1..]);
    StepTidy(q, ops[0]);
    PrecedesStep(q, ops[0], a, b);
    var n := |Pops(q, ops)| - |rest|;
    if Precedes(q', a, b) {
      assert Pops(q, ops)[k] == rest[k - n];
      PopsInOrder(q', ops[1..], a, b, k - n);
      var m :| 0 <= m < k - n && rest[m] == a;
      assert Pops(q, ops)[m + n] == a;
    } else {
      assert Pops(q, ops)[0] == a;
    }
  }

  /** A message inserted for the second of one that waits in its bucket comes after it; so does one inserted
      due after one that is ready. */
  lemma InsertedBehind(q: Queue, a: Id, b: Id, visibleAt: nat, now: nat)
    requires Tidy(q) && !Holds(q, b) && visibleAt <= now + HORIZON && a != b
    requires if visibleAt <= now then a in q.ready else InBucket(q, visibleAt, a)
    ensures Precedes(Insert(q, b, visibleAt, now), a, b)
  {
    var q' := Insert(q, b, visibleAt, now);
    if visibleAt <= now {
      var p :| 0 <= p < |q.ready| && q.ready[p] == a;
      assert q'.ready[p] == a;
    } else {
      var p :| 0 <= p < |q.buckets[visibleAt]| && q.buckets[visibleAt][p] == a;
      assert forall r :: 0 <= r <= p ==> InBucket(q, visibleAt, q.buckets[visibleAt][r]);
      assert !InBucket(q, visibleAt, b);
      assert q'.buckets[visibleAt][p] == a && q'.buckets[visibleAt][|q.buckets[visibleAt]|] == b;
      assert Before(q'.buckets[visibleAt], a, b);
    }
  }
}

/** The queue as the source runs it: deque, buckets, far list and tombstones updated in place. */
module SingleQueues {
  import opened Basics
  import opened Queues

  class SingleQueue {
    var ready: seq<Id>
    var buckets: map<nat, seq<Id>>
    var far: seq<FarItem>
    var deleted: set<Id>
    var lastDrained: nat

    function State(): Queue
      reads this
    {
      Queue(ready, buckets, far, deleted, lastDrained)
    }

    constructor (now: nat)
      ensures State() == NewQueue(now)
    {
      ready, buckets, far, deleted, lastDrained := [], map[], [], {}, now;
    }

    method Insert(id: Id, visibleAt: nat, now: nat)
      modifies this
      ensures State() == Queues.Insert(old(State()), id, visibleAt, now)
    {
      deleted := deleted - {id};
      if visibleAt <= now {
        ready := ready + [id];
      } else if visibleAt <= now + HORIZON {
        buckets := AddToBucket(buckets, visibleAt, id);
      } else {
        far := far + [FarItem(id, visibleAt)];
      }
    }

    method MarkDeleted(id: Id)
      modifies this
      ensures State() == Queues.MarkDeleted(old(State()), id)
    {
      if ready != [] && ready[0] == id {
        ready := ready[1..];
      } else {
        deleted := deleted + {id};
      }
    }

    method PopReady() returns (id: Option<Id>)
      modifies this
      ensures Popped(State(), id) == Queues.PopReady(old(State()))
    {
      while ready != []
        invariant Queues.PopReady(State()) == Queues.PopReady(old(State()))
        decreases |ready|
      {
        var front := ready[0];
        ready := ready[1..];
        if front in deleted {
          deleted := deleted - {front};
        } else {
          return Some(front);
        }
      }
      if deleted != {} {
        deleted := {};
      }
      return None;
    }

    method PromoteFar(limit: nat)
      modifies this
      ensures State() == Promote(old(State()), old(far), limit)
    {
      var items := far;
      var remaining: seq<FarItem> := [];
      for k := 0 to |items|
        invariant ready == old(ready) && deleted == old(deleted) && lastDrained == old(lastDrained)
        invariant State().(far := remaining) == Promote(old(State()), items[..k], limit)
      {
        assert items[..k + 1][..k] == items[..k];
        if items[k].id !in deleted {
          if items[k].visibleAt <= limit {
            buckets := AddToBucket(buckets, MinuteOf(items[k].visibleAt), items[k].id);
          } else {
            remaining := remaining + [items[k]];
          }
        }
      }
      assert items[..|items|] == items;
      far := remaining;
    }

    method MatureBucket(sec: nat)
      requires sec in buckets
      modifies this
      ensures State() == MatureSecond(old(State()), sec)
    {
      var bucket := buckets[sec];
      buckets := buckets - {sec};
      ghost var start := State();
      for k := 0 to |bucket|
        invariant State() == Mature(start, bucket[..k])
      {
        assert bucket[..k + 1][..k] == bucket[..k];
        if bucket[k] in deleted {
          deleted := deleted - {bucket[k]};
        } else {
          ready := ready + [bucket[k]];
        }
      }
      assert bucket[..|bucket|] == bucket;
    }

    /** `secs` is the order in which the hash map yielded the due buckets. */
    method AdvanceAndDrain(now: nat) returns (ghost secs: seq<nat>)
      modifies this
      ensures IsDrainOrder(old(State()), now, secs)
      ensures State() == Drain(old(State()), now, secs)
    {
      secs := [];
      if now < lastDrained {
        return;
      }
      PromoteFar(now + HORIZON);
      ghost var start := State();
      var due := set sec | sec in buckets && sec <= now;
      ghost var all := due;
      while due != {}
        invariant State() == MatureAll(start, secs)
        invariant NoDup(secs) && Elems(secs) !! due && Elems(secs) + due == all
        invariant buckets.Keys == start.buckets.Keys - Elems(secs)
        decreases due
      {
        var sec :| sec in due;
        MatureAllEffect(start, secs);
        MatureAllEffect(start, secs + [sec]);
        assert (secs + [sec])[..|secs|] == secs;
        assert Elems(secs + [sec]) == Elems(secs) + {sec};
        assert sec !in secs;
        MatureBucket(sec);
        secs := secs + [sec];
        due := due - {sec};
      }
      lastDrained := now;
    }
  }
}
