/** Where each message stands across all shards and on disk, without the structure of the shards. */
module Books {
  import opened Basics
  import opened WalCodec
  import opened EngineSpec

  // ---------------------------------------------------------------- dead-letter families

  /** `p` is `h` or a dead-letter queue derived from it. */
  ghost predicate InFamily(h: string, p: string)
    decreases |p|
  {
    p == h || (4 <= |p| && p == DeadLetter(p[..|p| - 4]) && InFamily(h, p[..|p| - 4]))
  }

  lemma {:induction false} FamilyLength(h: string, p: string)
    requires InFamily(h, p)
    ensures |h| <= |p|
    decreases |p|
  {
    if p != h {
      FamilyLength(h, p[..|p| - 4]);
    }
  }

  lemma FamilyDead(h: string, p: string)
    requires InFamily(h, p)
    ensures InFamily(h, DeadLetter(p)) && |DeadLetter(p)| == |p| + 4
  {
    assert DeadLetter(p)[..|p|] == p;
  }

  /** Within a family the length of a name determines it. */
  lemma {:induction false} FamilyUnique(h: string, p: string, q: string)
    requires InFamily(h, p) && InFamily(h, q) && |p| == |q|
    ensures p == q
    decreases |p|
  {
    FamilyLength(h, p);
    FamilyLength(h, q);
    if p != h {
      FamilyLength(h, p[..|p| - 4]);
      if q != h {
        FamilyUnique(h, p[..|p| - 4], q[..|q| - 4]);
      }
    } else if q != h {
      FamilyLength(h, q[..|q| - 4]);
    }
  }

  // ---------------------------------------------------------------- the book

  /** Message `id` is hot in queue `queue`. */
  datatype Spot = Spot(id: Id, queue: string)

  /** Message `id` is noted in shard `shard`. */
  datatype Mark = Mark(shard: nat, id: Id)

  datatype Book = Book(at: iset<Spot>, acked: iset<Mark>, seen: iset<Mark>, disk: seq<WalRecord>)

  /** The one queue each id is pushed to. */
  type Homes = Id -> string

  ghost predicate Hot(b: Book, id: Id) {
    exists p :: Spot(id, p) in b.at
  }

  function At(cfg: Config, queue: string, id: Id): Mark {
    Mark(ShardIdx(cfg, queue), id)
  }

  /** The message was acknowledged by a consumer and is gone for good. */
  ghost predicate Finished(cfg: Config, home: Homes, b: Book, id: Id) {
    !Hot(b, id) && At(cfg, home(id), id) in b.acked
  }

  ghost predicate RecordOk(cfg: Config, home: Homes, b: Book, r: WalRecord) {
    match r
    case Push(id, q, _, _) =>
      && InFamily(home(id), q)
      && At(cfg, home(id), id) in b.seen
      && (forall p :: Spot(id, p) in b.at ==> |q| <= |p|)
      && (Finished(cfg, home, b, id) ==> At(cfg, q, id) in b.acked)
      && (!Hot(b, id) && !Finished(cfg, home, b, id) ==> q == home(id))
    case Ack(id, q) =>
      Finished(cfg, home, b, id) && At(cfg, q, id) in b.acked
  }

  ghost predicate SpotOk(cfg: Config, home: Homes, b: Book, id: Id, p: string) {
    && InFamily(home(id), p)
    && At(cfg, home(id), id) in b.seen
    && (forall q :: Spot(id, q) in b.at ==> q == p)
    && (forall q :: InFamily(home(id), q) && |q| < |p| ==> At(cfg, q, id) in b.acked)
  }

  /** Every message is hot in at most one queue of its family, is marked as done in all shallower
      ones, and every record on disk agrees with that. */
  ghost predicate Balanced(cfg: Config, home: Homes, b: Book) {
    && (forall id, p :: Spot(id, p) in b.at ==> SpotOk(cfg, home, b, id, p))
    && (forall i, id :: Mark(i, id) in b.acked ==> At(cfg, home(id), id) in b.seen)
    && (forall k :: 0 <= k < |b.disk| ==> RecordOk(cfg, home, b, b.disk[k]))
  }

  lemma NotSeenNotHot(cfg: Config, home: Homes, b: Book, id: Id)
    requires Balanced(cfg, home, b) && At(cfg, home(id), id) !in b.seen
    ensures !Hot(b, id) && !Finished(cfg, home, b, id)
    ensures forall k :: 0 <= k < |b.disk| ==> b.disk[k].id != id
  {
    forall k | 0 <= k < |b.disk|
      ensures b.disk[k].id != id
    {
      assert RecordOk(cfg, home, b, b.disk[k]);
    }
  }

  ghost function AfterStore(cfg: Config, home: Homes, b: Book, id: Id, hot: bool): Book {
    b.(seen := b.seen + iset{At(cfg, home(id), id)},
       at := if hot then b.at + iset{Spot(id, home(id))} else b.at)
  }

  /** A first push, into RAM or only onto disk. */
  lemma BalancedStore(cfg: Config, home: Homes, b: Book, r: WalRecord, hot: bool)
    requires Balanced(cfg, home, b) && r.Push? && r.queue == home(r.id) && At(cfg, home(r.id), r.id) !in b.seen
    ensures var b' := AfterStore(cfg, home, b, r.id, hot).(disk := b.disk + [r]);
            && Balanced(cfg, home, b')
  {
    var b' := AfterStore(cfg, home, b, r.id, hot).(disk := b.disk + [r]);
    NotSeenNotHot(cfg, home, b, r.id);
    assert forall id :: id != r.id ==> (Hot(b', id) <==> Hot(b, id)) by {
      assert forall id, p :: id != r.id ==> (Spot(id, p) in b'.at <==> Spot(id, p) in b.at);
    }
    forall k | 0 <= k < |b'.disk|
      ensures RecordOk(cfg, home, b', b'.disk[k])
    {
      if k < |b.disk| {
        assert RecordOk(cfg, home, b, b.disk[k]);
      } else {
        assert hot ==> Spot(r.id, r.queue) in b'.at;
      }
    }
    forall id, p | Spot(id, p) in b'.at
      ensures SpotOk(cfg, home, b', id, p)
    {
      if Spot(id, p) in b.at {
        assert SpotOk(cfg, home, b, id, p);
      } else {
        StoredSpot(cfg, home, b', id);
      }
    }
  }

  /** A message at home has nothing shallower to be marked in. */
  lemma StoredSpot(cfg: Config, home: Homes, b: Book, id: Id)
    requires At(cfg, home(id), id) in b.seen
    requires forall q :: Spot(id, q) in b.at ==> q == home(id)
    ensures SpotOk(cfg, home, b, id, home(id))
  {
    forall q | InFamily(home(id), q)
      ensures |home(id)| <= |q|
    {
      FamilyLength(home(id), q);
    }
  }

  /** A repeated push is only logged. */
  lemma BalancedDuplicate(cfg: Config, home: Homes, b: Book, r: WalRecord)
    requires Balanced(cfg, home, b) && r.Push? && r.queue == home(r.id) && At(cfg, home(r.id), r.id) in b.seen
    ensures Balanced(cfg, home, b.(disk := b.disk + [r]))
  {
    var b' := b.(disk := b.disk + [r]);
    assert forall id :: Hot(b', id) <==> Hot(b, id);
    forall k | 0 <= k < |b'.disk|
      ensures RecordOk(cfg, home, b', b'.disk[k])
    {
      if k < |b.disk| {
        assert RecordOk(cfg, home, b, b.disk[k]);
      } else {
        forall p | Spot(r.id, p) in b.at
          ensures |r.queue| <= |p|
        {
          assert SpotOk(cfg, home, b, r.id, p);
          FamilyLength(home(r.id), p);
        }
      }
    }
    forall id, p | Spot(id, p) in b'.at
      ensures SpotOk(cfg, home, b', id, p)
    {
      assert SpotOk(cfg, home, b, id, p);
    }
  }

  ghost function AfterMove(cfg: Config, b: Book, id: Id, p: string): Book {
    b.(at := b.at - iset{Spot(id, p)} + iset{Spot(id, DeadLetter(p))},
       acked := b.acked + iset{At(cfg, p, id)},
       seen := b.seen + iset{At(cfg, DeadLetter(p), id)})
  }

  lemma MoveHot(cfg: Config, b: Book, id: Id, p: string)
    requires Spot(id, p) in b.at
    ensures forall x :: Hot(AfterMove(cfg, b, id, p), x) <==> Hot(b, x)
  {
    var b' := AfterMove(cfg, b, id, p);
    forall x | Hot(b, x)
      ensures Hot(b', x)
    {
      if x == id {
        assert Spot(id, DeadLetter(p)) in b'.at;
      } else {
        var q :| Spot(x, q) in b.at;
        assert Spot(x, q) in b'.at;
      }
    }
    forall x | Hot(b', x)
      ensures Hot(b, x)
    {
      if x != id {
        var q :| Spot(x, q) in b'.at;
        assert Spot(x, q) in b.at;
      }
    }
  }

  /** Marking a hot message as done in some shard. */
  lemma BalancedMark(cfg: Config, home: Homes, b: Book, id: Id, p: string, q: string)
    requires Balanced(cfg, home, b) && Spot(id, p) in b.at
    ensures Balanced(cfg, home, b.(acked := b.acked + iset{At(cfg, q, id)}))
  {
    var b' := b.(acked := b.acked + iset{At(cfg, q, id)});
    assert SpotOk(cfg, home, b, id, p);
    assert forall x :: Hot(b', x) <==> Hot(b, x);
    assert Hot(b, id);
    forall x, s | Spot(x, s) in b'.at
      ensures SpotOk(cfg, home, b', x, s)
    {
      assert SpotOk(cfg, home, b, x, s);
    }
    forall k | 0 <= k < |b'.disk|
      ensures RecordOk(cfg, home, b', b'.disk[k])
    {
      assert RecordOk(cfg, home, b, b.disk[k]);
    }
  }

  /** Names up to and including `p` are all that is shallower than its dead-letter queue. */
  lemma FamilyBelowDead(h: string, p: string, q: string)
    requires InFamily(h, p) && InFamily(h, q) && |q| < |DeadLetter(p)|
    ensures q == p || |q| < |p|
    decreases |q|
  {
    FamilySteps(h, p);
    FamilySteps(h, q);
    if |p| == |q| {
      FamilyUnique(h, p, q);
    }
  }

  lemma {:induction false} FamilySteps(h: string, p: string)
    requires InFamily(h, p)
    ensures |h| <= |p| && (|p| - |h|) % 4 == 0
    decreases |p|
  {
    if p != h {
      FamilySteps(h, p[..|p| - 4]);
    }
  }

  /** Dead-lettering moves the message one level deeper and marks the level it leaves. */
  lemma BalancedMove(cfg: Config, home: Homes, b: Book, id: Id, p: string)
    requires Balanced(cfg, home, b) && Spot(id, p) in b.at
    ensures Balanced(cfg, home, AfterMove(cfg, b, id, p))
  {
    var b', d := AfterMove(cfg, b, id, p), DeadLetter(p);
    assert SpotOk(cfg, home, b, id, p);
    MoveHot(cfg, b, id, p);
    FamilyDead(home(id), p);
    forall x, q | Spot(x, q) in b'.at
      ensures SpotOk(cfg, home, b', x, q)
    {
      if x == id {
        forall s | InFamily(home(id), s) && |s| < |d|
          ensures At(cfg, s, id) in b'.acked
        {
          FamilyBelowDead(home(id), p, s);
        }
      } else {
        assert SpotOk(cfg, home, b, x, q);
      }
    }
    forall k | 0 <= k < |b'.disk|
      ensures RecordOk(cfg, home, b', b'.disk[k])
    {
      var r := b.disk[k];
      assert RecordOk(cfg, home, b, r);
      assert r.id == id ==> Hot(b, id);
    }
  }

  ghost function AfterSettle(cfg: Config, b: Book, id: Id, p: string): Book {
    b.(at := b.at - iset{Spot(id, p)}, acked := b.acked + iset{At(cfg, p, id)})
  }

  /** An acknowledgement, under whatever queue name of the same shard, finishes the message. */
  lemma BalancedSettle(cfg: Config, home: Homes, b: Book, id: Id, p: string, r: WalRecord)
    requires Balanced(cfg, home, b) && Spot(id, p) in b.at
    requires r == Ack(id, r.queue) && ShardIdx(cfg, r.queue) == ShardIdx(cfg, p)
    ensures var b' := AfterSettle(cfg, b, id, p).(disk := b.disk + [r]);
            && Balanced(cfg, home, b') && Finished(cfg, home, b', id)
  {
    var b' := AfterSettle(cfg, b, id, p).(disk := b.disk + [r]);
    assert SpotOk(cfg, home, b, id, p);
    assert !Hot(b', id);
    assert forall x :: x != id ==> (Hot(b', x) <==> Hot(b, x)) by {
      assert forall x, q :: x != id ==> (Spot(x, q) in b'.at <==> Spot(x, q) in b.at);
    }
    forall s | InFamily(home(id), s) && |s| <= |p|
      ensures At(cfg, s, id) in b'.acked
    {
      if |s| == |p| {
        FamilyUnique(home(id), s, p);
      }
    }
    FamilyLength(home(id), p);
    assert InFamily(home(id), home(id));
    forall x, q | Spot(x, q) in b'.at
      ensures SpotOk(cfg, home, b', x, q)
    {
      assert SpotOk(cfg, home, b, x, q);
    }
    forall k | 0 <= k < |b'.disk|
      ensures RecordOk(cfg, home, b', b'.disk[k])
    {
      if k < |b.disk| {
        assert RecordOk(cfg, home, b, b.disk[k]);
        assert b.disk[k].id == id ==> Hot(b, id);
      }
    }
  }

  /** A logged message that is neither hot in its queue nor marked there is cold: its only copy is
      the record. */
  lemma ColdRecord(cfg: Config, home: Homes, b: Book, r: WalRecord)
    requires Balanced(cfg, home, b) && r in b.disk && r.Push?
    requires Spot(r.id, r.queue) !in b.at && At(cfg, r.queue, r.id) !in b.acked
    ensures !Hot(b, r.id) && !Finished(cfg, home, b, r.id) && r.queue == home(r.id)
  {
    var k :| 0 <= k < |b.disk| && b.disk[k] == r;
    assert RecordOk(cfg, home, b, b.disk[k]);
    if Hot(b, r.id) {
      var p :| Spot(r.id, p) in b.at;
      assert SpotOk(cfg, home, b, r.id, p);
      if |r.queue| == |p| {
        FamilyUnique(home(r.id), r.queue, p);
      }
      assert false;
    }
  }

  ghost function AfterPageIn(cfg: Config, b: Book, r: WalRecord): Book {
    b.(at := b.at + iset{Spot(r.id, r.queue)}, seen := b.seen + iset{At(cfg, r.queue, r.id)})
  }

  /** Paging in a cold message makes it hot in its home queue. */
  lemma BalancedPageIn(cfg: Config, home: Homes, b: Book, r: WalRecord)
    requires Balanced(cfg, home, b) && r in b.disk && r.Push?
    requires Spot(r.id, r.queue) !in b.at && At(cfg, r.queue, r.id) !in b.acked
    ensures Balanced(cfg, home, AfterPageIn(cfg, b, r))
  {
    var b' := AfterPageIn(cfg, b, r);
    ColdRecord(cfg, home, b, r);
    assert Hot(b', r.id) by { assert Spot(r.id, r.queue) in b'.at; }
    assert forall x :: x != r.id ==> (Hot(b', x) <==> Hot(b, x)) by {
      assert forall x, q :: x != r.id ==> (Spot(x, q) in b'.at <==> Spot(x, q) in b.at);
    }
    var k0 :| 0 <= k0 < |b.disk| && b.disk[k0] == r;
    assert RecordOk(cfg, home, b, b.disk[k0]);
    forall q | InFamily(home(r.id), q)
      ensures |home(r.id)| <= |q|
    {
      FamilyLength(home(r.id), q);
    }
    forall x, q | Spot(x, q) in b'.at
      ensures SpotOk(cfg, home, b', x, q)
    {
      if Spot(x, q) in b.at {
        assert SpotOk(cfg, home, b, x, q);
      }
    }
    forall k | 0 <= k < |b'.disk|
      ensures RecordOk(cfg, home, b', b'.disk[k])
    {
      assert RecordOk(cfg, home, b, b.disk[k]);
    }
  }

  /** Compaction keeps one record per hot message, in the queue where it is hot. */
  lemma BalancedCompact(cfg: Config, home: Homes, b: Book, survivors: seq<WalRecord>)
    requires Balanced(cfg, home, b)
    requires forall k :: 0 <= k < |survivors| ==>
             survivors[k].Push? && Spot(survivors[k].id, survivors[k].queue) in b.at
    ensures Balanced(cfg, home, b.(disk := survivors))
  {
    var b' := b.(disk := survivors);
    assert forall x :: Hot(b', x) <==> Hot(b, x);
    forall x, q | Spot(x, q) in b'.at
      ensures SpotOk(cfg, home, b', x, q)
    {
      assert SpotOk(cfg, home, b, x, q);
    }
    forall k | 0 <= k < |survivors|
      ensures RecordOk(cfg, home, b', survivors[k])
    {
      assert SpotOk(cfg, home, b, survivors[k].id, survivors[k].queue);
      assert Hot(b, survivors[k].id);
    }
  }
}
