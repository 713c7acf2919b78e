/** Replicating the queue engine (walrq/src/cluster/raft.rs): what applying a log of commands leaves
    live, catching up from a snapshot, rebuilding on promotion, and majorities.

    The engine is kept as what replication can see of it: the live messages and the ids each shard has
    seen. Message bodies are opaque; due times are not tracked. */
module Replication {
  import opened Basics
  import opened Recovery

  datatype Command =
    | Push(queue: string, id: Id, payload: Bytes)
    | Ack(queue: string, id: Id)

  datatype Body = Body(queue: string, payload: Bytes)

  datatype Replica = Replica(live: map<Key, Body>, seen: set<Key>)

  const EMPTY: Replica := Replica(map[], {})

  function CommandKey(shardOf: Sharding, c: Command): Key {
    Key(shardOf(c.queue), c.id)
  }

  /** A push is skipped when the shard has seen the id; an ack removes the message and leaves the id
      seen. */
  function Apply(shardOf: Sharding, r: Replica, c: Command): Replica {
    var k := CommandKey(shardOf, c);
    match c
    case Push(queue, _, payload) =>
      if k in r.seen then r else Replica(r.live[k := Body(queue, payload)], r.seen + {k})
    case Ack(_, _) => r.(live := r.live - {k})
  }

  function ApplyAll(shardOf: Sharding, r: Replica, log: seq<Command>): Replica {
    if log == [] then r else Apply(shardOf, ApplyAll(shardOf, r, log[..|log| - 1]), log[|log| - 1])
  }

  // ---------------------------------------------------------------- what a log says about a message

  predicate PushAt(shardOf: Sharding, log: seq<Command>, i: nat, k: Key) {
    i < |log| && log[i].Push? && CommandKey(shardOf, log[i]) == k
  }

  predicate AckAt(shardOf: Sharding, log: seq<Command>, i: nat, k: Key) {
    i < |log| && log[i].Ack? && CommandKey(shardOf, log[i]) == k
  }

  ghost predicate Pushed(shardOf: Sharding, log: seq<Command>, k: Key) {
    exists i: nat :: PushAt(shardOf, log, i, k)
  }

  ghost predicate AckOf(shardOf: Sharding, log: seq<Command>, k: Key) {
    exists i: nat :: AckAt(shardOf, log, i, k)
  }

  /** Some ack of the message comes after a push of it. */
  ghost predicate AckedAfterPush(shardOf: Sharding, log: seq<Command>, k: Key) {
    exists i: nat, j: nat :: i < j && PushAt(shardOf, log, i, k) && AckAt(shardOf, log, j, k)
  }

  /** No push of a message follows an ack of it. */
  ghost predicate NoPushAfterAck(shardOf: Sharding, log: seq<Command>) {
    forall k, i: nat, j: nat :: AckAt(shardOf, log, i, k) && PushAt(shardOf, log, j, k) ==> j < i
  }

  /** The body the first push of the message carries. */
  function FirstBody(shardOf: Sharding, log: seq<Command>, k: Key): Option<Body> {
    if log == [] then None
    else
      var c := log[|log| - 1];
      match FirstBody(shardOf, log[..|log| - 1], k)
      case Some(b) => Some(b)
      case None => if c.Push? && CommandKey(shardOf, c) == k then Some(Body(c.queue, c.payload)) else None
  }

  lemma {:induction false} FirstBodyIff(shardOf: Sharding, log: seq<Command>, k: Key)
    ensures FirstBody(shardOf, log, k).Some? <==> Pushed(shardOf, log, k)
  {
    if log != [] {
      var front := log[..|log| - 1];
      FirstBodyIff(shardOf, front, k);
      LogSnoc(shardOf, log, k);
    }
  }

  /** What the last command of a log adds. */
  lemma AtSnoc(shardOf: Sharding, log: seq<Command>, k: Key)
    requires log != []
    ensures var n := |log| - 1;
            && (forall i: nat :: PushAt(shardOf, log, i, k) <==>
                  PushAt(shardOf, log[..n], i, k) || (i == n && log[n].Push? && CommandKey(shardOf, log[n]) == k))
            && (forall i: nat :: AckAt(shardOf, log, i, k) <==>
                  AckAt(shardOf, log[..n], i, k) || (i == n && log[n].Ack? && CommandKey(shardOf, log[n]) == k))
  {
  }

  lemma LogSnoc(shardOf: Sharding, log: seq<Command>, k: Key)
    requires log != []
    ensures var front, c := log[..|log| - 1], log[|log| - 1];
            var mine := CommandKey(shardOf, c) == k;
            && (Pushed(shardOf, log, k) <==> Pushed(shardOf, front, k) || (c.Push? && mine))
            && (AckOf(shardOf, log, k) <==> AckOf(shardOf, front, k) || (c.Ack? && mine))
            && (AckedAfterPush(shardOf, log, k) <==>
                  AckedAfterPush(shardOf, front, k) || (Pushed(shardOf, front, k) && c.Ack? && mine))
  {
    var n := |log| - 1;
    var front, c := log[..n], log[n];
    AtSnoc(shardOf, log, k);
    assert forall i: nat :: PushAt(shardOf, front, i, k) ==> i < n;
    assert forall i: nat :: AckAt(shardOf, front, i, k) ==> i < n;
    if c.Push? && CommandKey(shardOf, c) == k {
      assert PushAt(shardOf, log, n, k);
    }
    if c.Ack? && CommandKey(shardOf, c) == k {
      assert AckAt(shardOf, log, n, k);
    }
  }

  // ---------------------------------------------------------------- what applying a log does to a message

  /** Status of a message in a replica: seen or not, and live with which body. */
  ghost predicate Stands(r: Replica, k: Key, seen: bool, body: Option<Body>) {
    && (k in r.seen <==> seen)
    && (k in r.live <==> body.Some?)
    && (k in r.live ==> r.live[k] == body.value)
  }

  /** An id already seen: pushes do nothing, an ack anywhere removes the message. */
  lemma {:induction false} SeenFate(shardOf: Sharding, r: Replica, log: seq<Command>, k: Key)
    requires k in r.seen
    ensures Stands(ApplyAll(shardOf, r, log), k, true,
                   if k in r.live && !AckOf(shardOf, log, k) then Some(r.live[k]) else None)
  {
    if log != [] {
      SeenFate(shardOf, r, log[..|log| - 1], k);
      LogSnoc(shardOf, log, k);
    }
  }

  /** An id not yet seen: its first push counts, and it stays unless an ack follows a push. */
  lemma {:induction false} FreshFate(shardOf: Sharding, r: Replica, log: seq<Command>, k: Key)
    requires k !in r.seen && k !in r.live
    ensures Stands(ApplyAll(shardOf, r, log), k, Pushed(shardOf, log, k),
                   if AckedAfterPush(shardOf, log, k) then None else FirstBody(shardOf, log, k))
  {
    if log != [] {
      FreshFate(shardOf, r, log[..|log| - 1], k);
      LogSnoc(shardOf, log, k);
      FirstBodyIff(shardOf, log, k);
      FirstBodyIff(shardOf, log[..|log| - 1], k);
    }
  }

  // ---------------------------------------------------------------- catching up from a snapshot

  /** `items` lists the live messages, each once, in whatever order. */
  ghost predicate IsSnapshot(shardOf: Sharding, items: seq<Command>, live: map<Key, Body>) {
    && (forall i :: 0 <= i < |items| ==>
          items[i].Push? && CommandKey(shardOf, items[i]) in live
          && live[CommandKey(shardOf, items[i])] == Body(items[i].queue, items[i].payload))
    && (forall k :: k in live ==> Pushed(shardOf, items, k))
  }

  lemma {:induction false} FirstOfSnapshot(shardOf: Sharding, items: seq<Command>, live: map<Key, Body>, k: Key)
    requires forall i :: 0 <= i < |items| ==>
               items[i].Push? && CommandKey(shardOf, items[i]) in live
               && live[CommandKey(shardOf, items[i])] == Body(items[i].queue, items[i].payload)
    ensures FirstBody(shardOf, items, k).Some? ==> k in live && FirstBody(shardOf, items, k) == Some(live[k])
  {
    if items != [] {
      FirstOfSnapshot(shardOf, items[..|items| - 1], live, k);
    }
  }

  /** Installing a snapshot on a cleared engine leaves exactly its messages, all of them seen. */
  lemma InstallGives(shardOf: Sharding, items: seq<Command>, live: map<Key, Body>)
    requires IsSnapshot(shardOf, items, live)
    ensures ApplyAll(shardOf, EMPTY, items) == Replica(live, live.Keys)
  {
    var r := ApplyAll(shardOf, EMPTY, items);
    forall k
      ensures Stands(r, k, k in live, if k in live then Some(live[k]) else None)
    {
      FreshFate(shardOf, EMPTY, items, k);
      FirstBodyIff(shardOf, items, k);
      FirstOfSnapshot(shardOf, items, live, k);
    }
    assert r.live == live;
    assert r.seen == live.Keys;
  }

  /** Catch-up as the leader does it: the follower is cleared, receives the leader's live messages and
      then the whole log suffix, although the snapshot already reflects it. It ends with the leader's
      live messages if and only if the suffix acknowledges none of them, and every other message the
      suffix pushes is acknowledged after a push of it in the suffix. */
  lemma SnapshotConvergesIff(shardOf: Sharding, leader: Replica, suffix: seq<Command>, items: seq<Command>)
    requires IsSnapshot(shardOf, items, leader.live)
    ensures ApplyAll(shardOf, ApplyAll(shardOf, EMPTY, items), suffix).live == leader.live <==>
            forall k ::
              && (k in leader.live ==> !AckOf(shardOf, suffix, k))
              && (k !in leader.live && Pushed(shardOf, suffix, k) ==> AckedAfterPush(shardOf, suffix, k))
  {
    var start := Replica(leader.live, leader.live.Keys);
    InstallGives(shardOf, items, leader.live);
    var f := ApplyAll(shardOf, start, suffix);
    forall k
      ensures k in leader.live ==>
                (k in f.live <==> !AckOf(shardOf, suffix, k)) && (k in f.live ==> f.live[k] == leader.live[k])
      ensures k !in leader.live ==> (k in f.live <==> Pushed(shardOf, suffix, k) && !AckedAfterPush(shardOf, suffix, k))
    {
      if k in leader.live {
        SeenFate(shardOf, start, suffix, k);
      } else {
        FreshFate(shardOf, start, suffix, k);
        FirstBodyIff(shardOf, suffix, k);
      }
    }
    if f.live == leader.live {
      forall k
        ensures k in leader.live ==> !AckOf(shardOf, suffix, k)
        ensures k !in leader.live && Pushed(shardOf, suffix, k) ==> AckedAfterPush(shardOf, suffix, k)
      {
      }
    }
  }

  /** In particular it converges whenever no push of a message follows an ack of it in the whole log
      that the leader applied. */
  lemma SnapshotConverges(shardOf: Sharding, prefix: seq<Command>, suffix: seq<Command>, items: seq<Command>)
    requires NoPushAfterAck(shardOf, prefix + suffix)
    requires IsSnapshot(shardOf, items, ApplyAll(shardOf, EMPTY, prefix + suffix).live)
    ensures ApplyAll(shardOf, ApplyAll(shardOf, EMPTY, items), suffix).live
            == ApplyAll(shardOf, EMPTY, prefix + suffix).live
  {
    var log := prefix + suffix;
    var leader := ApplyAll(shardOf, EMPTY, log);
    forall k
      ensures k in leader.live ==> !AckOf(shardOf, suffix, k)
      ensures k !in leader.live && Pushed(shardOf, suffix, k) ==> AckedAfterPush(shardOf, suffix, k)
    {
      FreshFate(shardOf, EMPTY, log, k);
      FirstBodyIff(shardOf, log, k);
      SuffixAcks(shardOf, prefix, suffix, k);
    }
    SnapshotConvergesIff(shardOf, leader, suffix, items);
  }

  lemma AtSuffix(shardOf: Sharding, prefix: seq<Command>, suffix: seq<Command>, k: Key)
    ensures var log, n := prefix + suffix, |prefix|;
            && (forall i: nat :: PushAt(shardOf, suffix, i, k) <==> PushAt(shardOf, log, n + i, k))
            && (forall i: nat :: AckAt(shardOf, suffix, i, k) <==> AckAt(shardOf, log, n + i, k))
  {
  }

  /** Without pushes after acks, an ack in the suffix comes after every push of its message. */
  lemma SuffixAcks(shardOf: Sharding, prefix: seq<Command>, suffix: seq<Command>, k: Key)
    requires NoPushAfterAck(shardOf, prefix + suffix)
    ensures Pushed(shardOf, prefix + suffix, k) && AckOf(shardOf, suffix, k) ==>
            AckedAfterPush(shardOf, prefix + suffix, k)
    ensures Pushed(shardOf, suffix, k) && AckedAfterPush(shardOf, prefix + suffix, k) ==>
            AckedAfterPush(shardOf, suffix, k)
    ensures Pushed(shardOf, suffix, k) ==> Pushed(shardOf, prefix + suffix, k)
  {
    hide PushAt, AckAt;
    var log, n := prefix + suffix, |prefix|;
    AtSuffix(shardOf, prefix, suffix, k);
    if Pushed(shardOf, suffix, k) && AckedAfterPush(shardOf, log, k) {
      var p: nat :| PushAt(shardOf, suffix, p, k);
      var i: nat, j: nat :| i < j && PushAt(shardOf, log, i, k) && AckAt(shardOf, log, j, k);
      assert PushAt(shardOf, log, n + p, k);
      assert n + p < j;
      assert AckAt(shardOf, suffix, j - n, k);
    }
  }

  lemma ApplyTwo(shardOf: Sharding, r: Replica, a: Command, b: Command)
    ensures ApplyAll(shardOf, r, [a, b]) == Apply(shardOf, Apply(shardOf, r, a), b)
  {
    assert [a, b][..1] == [a] && [a][..0] == [];
    assert ApplyAll(shardOf, r, [a]) == Apply(shardOf, r, a);
  }

  lemma ApplyFour(shardOf: Sharding, r: Replica, a: Command, b: Command, c: Command, d: Command)
    ensures ApplyAll(shardOf, r, [a, b, c, d])
            == Apply(shardOf, Apply(shardOf, Apply(shardOf, Apply(shardOf, r, a), b), c), d)
  {
    ApplyTwo(shardOf, r, a, b);
    assert [a, b, c, d][..3] == [a, b, c] && [a, b, c][..2] == [a, b];
    assert ApplyAll(shardOf, r, [a, b, c]) == Apply(shardOf, ApplyAll(shardOf, r, [a, b]), c);
  }

  /** A batch of acks is logged whole once one of them is accepted, so it may log the ack of a message that
      is pushed only later. Such a message is live on the leader and lost by the follower. */
  lemma SnapshotDiverges(shardOf: Sharding, queue: string, other: Id, id: Id, payload: Bytes)
    requires other != id
    ensures var log := [Push(queue, other, payload), Ack(queue, other), Ack(queue, id), Push(queue, id, payload)];
            var leader, items := ApplyAll(shardOf, EMPTY, log), [Push(queue, id, payload)];
            && IsSnapshot(shardOf, items, leader.live)
            && Key(shardOf(queue), id) in leader.live
            && Key(shardOf(queue), id) !in ApplyAll(shardOf, ApplyAll(shardOf, EMPTY, items), log).live
  {
    var k, x := Key(shardOf(queue), id), Key(shardOf(queue), other);
    var log := [Push(queue, other, payload), Ack(queue, other), Ack(queue, id), Push(queue, id, payload)];
    var items := [Push(queue, id, payload)];
    ApplyFour(shardOf, EMPTY, log[0], log[1], log[2], log[3]);
    assert map[x := Body(queue, payload)] - {x} == map[];
    var leader := ApplyAll(shardOf, EMPTY, log);
    assert leader.live == map[k := Body(queue, payload)];
    assert PushAt(shardOf, items, 0, k);
    InstallGives(shardOf, items, leader.live);
    assert AckAt(shardOf, log, 2, k);
    SeenFate(shardOf, Replica(leader.live, leader.live.Keys), log, k);
  }

  // ---------------------------------------------------------------- promotion

  ghost predicate AckOfId(log: seq<Command>, id: Id) {
    exists i :: 0 <= i < |log| && log[i].Ack? && log[i].id == id
  }

  /** First pass of a promotion: the ids named by the acks of the log. */
  function AckedIds(log: seq<Command>): set<Id> {
    set c | c in log && c.Ack? :: c.id
  }

  /** Second pass: the pushes whose id is not among them. */
  function Unacked(log: seq<Command>, acked: set<Id>): seq<Command> {
    if log == [] then []
    else
      var c := log[|log| - 1];
      Unacked(log[..|log| - 1], acked) + if c.Push? && c.id !in acked then [c] else []
  }

  lemma AckedIdsIff(log: seq<Command>, id: Id)
    ensures id in AckedIds(log) <==> AckOfId(log, id)
  {
    if AckOfId(log, id) {
      var i :| 0 <= i < |log| && log[i].Ack? && log[i].id == id;
      assert log[i] in log;
    }
    if id in AckedIds(log) {
      var c :| c in log && c.Ack? && c.id == id;
      var i :| 0 <= i < |log| && log[i] == c;
    }
  }

  lemma {:induction false} UnackedFirst(shardOf: Sharding, log: seq<Command>, acked: set<Id>, k: Key)
    ensures FirstBody(shardOf, Unacked(log, acked), k) == if k.id in acked then None else FirstBody(shardOf, log, k)
  {
    if log != [] {
      var front, c := log[..|log| - 1], log[|log| - 1];
      UnackedFirst(shardOf, front, acked, k);
      var kept := Unacked(front, acked);
      FirstBodySnoc(shardOf, front, c, k);
      FirstBodySnoc(shardOf, kept, c, k);
      Unsnoc(log);
      EmptyRight(kept);
    }
  }

  lemma FirstBodySnoc(shardOf: Sharding, log: seq<Command>, c: Command, k: Key)
    ensures FirstBody(shardOf, log + [c], k) ==
            if FirstBody(shardOf, log, k).Some? then FirstBody(shardOf, log, k)
            else if c.Push? && CommandKey(shardOf, c) == k then Some(Body(c.queue, c.payload)) else None
  {
    Snoc(log, c);
  }

  lemma {:induction false} UnackedPushes(log: seq<Command>, acked: set<Id>)
    ensures forall i :: 0 <= i < |Unacked(log, acked)| ==> Unacked(log, acked)[i].Push? && Unacked(log, acked)[i] in log
  {
    if log != [] {
      UnackedPushes(log[..|log| - 1], acked);
      Unsnoc(log);
    }
  }

  lemma NeverAcked(shardOf: Sharding, log: seq<Command>, acked: set<Id>, k: Key)
    ensures !AckedAfterPush(shardOf, Unacked(log, acked), k)
  {
    UnackedPushes(log, acked);
  }

  /** Promotion without a snapshot clears the engine and re-pushes what no ack of the log names. This
      gives the live messages of in-order replay if and only if, for every message the log pushes, an
      ack naming its id occurs anywhere exactly when an ack of the message follows a push of it. */
  lemma PromotionIff(shardOf: Sharding, log: seq<Command>)
    ensures ApplyAll(shardOf, EMPTY, Unacked(log, AckedIds(log))).live == ApplyAll(shardOf, EMPTY, log).live <==>
            forall k :: Pushed(shardOf, log, k) ==> (AckOfId(log, k.id) <==> AckedAfterPush(shardOf, log, k))
  {
    var kept := Unacked(log, AckedIds(log));
    var p, r := ApplyAll(shardOf, EMPTY, kept), ApplyAll(shardOf, EMPTY, log);
    forall k
      ensures Stands(p, k, k in p.seen, if AckOfId(log, k.id) then None else FirstBody(shardOf, log, k))
      ensures Stands(r, k, k in r.seen, if AckedAfterPush(shardOf, log, k) then None else FirstBody(shardOf, log, k))
      ensures FirstBody(shardOf, log, k).Some? <==> Pushed(shardOf, log, k)
    {
      FreshFate(shardOf, EMPTY, log, k);
      FreshFate(shardOf, EMPTY, kept, k);
      UnackedFirst(shardOf, log, AckedIds(log), k);
      NeverAcked(shardOf, log, AckedIds(log), k);
      AckedIdsIff(log, k.id);
      FirstBodyIff(shardOf, log, k);
    }
    SameLive(shardOf, log, p, r);
  }

  lemma SameLive(shardOf: Sharding, log: seq<Command>, p: Replica, r: Replica)
    requires forall k :: Stands(p, k, k in p.seen, if AckOfId(log, k.id) then None else FirstBody(shardOf, log, k))
    requires forall k :: Stands(r, k, k in r.seen, if AckedAfterPush(shardOf, log, k) then None
             else FirstBody(shardOf, log, k))
    requires forall k :: FirstBody(shardOf, log, k).Some? <==> Pushed(shardOf, log, k)
    ensures p.live == r.live <==>
            forall k :: Pushed(shardOf, log, k) ==> (AckOfId(log, k.id) <==> AckedAfterPush(shardOf, log, k))
  {
    hide Pushed, AckOfId, AckedAfterPush, FirstBody;
    if p.live == r.live {
      forall k | Pushed(shardOf, log, k)
        ensures AckOfId(log, k.id) <==> AckedAfterPush(shardOf, log, k)
      {
        assert Stands(p, k, k in p.seen, if AckOfId(log, k.id) then None else FirstBody(shardOf, log, k));
        assert Stands(r, k, k in r.seen, if AckedAfterPush(shardOf, log, k) then None else FirstBody(shardOf, log, k));
      }
    }
    if forall k :: Pushed(shardOf, log, k) ==> (AckOfId(log, k.id) <==> AckedAfterPush(shardOf, log, k)) {
      forall k
        ensures (k in p.live <==> k in r.live) && (k in p.live ==> p.live[k] == r.live[k])
      {
        assert Stands(p, k, k in p.seen, if AckOfId(log, k.id) then None else FirstBody(shardOf, log, k));
        assert Stands(r, k, k in r.seen, if AckedAfterPush(shardOf, log, k) then None else FirstBody(shardOf, log, k));
      }
    }
  }

  /** Acks of a message name the shard it is pushed to. */
  ghost predicate OneShardPerId(shardOf: Sharding, log: seq<Command>) {
    forall i, j :: 0 <= i < |log| && 0 <= j < |log| && log[i].id == log[j].id ==>
      CommandKey(shardOf, log[i]) == CommandKey(shardOf, log[j])
  }

  /** In particular it does when every id stays in one shard and no push follows an ack. */
  lemma PromotionPreserves(shardOf: Sharding, log: seq<Command>)
    requires OneShardPerId(shardOf, log) && NoPushAfterAck(shardOf, log)
    ensures ApplyAll(shardOf, EMPTY, Unacked(log, AckedIds(log))).live == ApplyAll(shardOf, EMPTY, log).live
  {
    forall k | Pushed(shardOf, log, k)
      ensures AckOfId(log, k.id) <==> AckedAfterPush(shardOf, log, k)
    {
      var i: nat :| PushAt(shardOf, log, i, k);
      if AckOfId(log, k.id) {
        var j :| 0 <= j < |log| && log[j].Ack? && log[j].id == k.id;
        assert AckAt(shardOf, log, j, k);
      }
      if AckedAfterPush(shardOf, log, k) {
        var a: nat, j: nat :| a < j && PushAt(shardOf, log, a, k) && AckAt(shardOf, log, j, k);
        assert log[j].Ack? && log[j].id == k.id;
      }
    }
    PromotionIff(shardOf, log);
  }

  /** An ack that names the id under another shard makes promotion drop a message that replay keeps. */
  lemma PromotionDrops(shardOf: Sharding, queue: string, other: string, id: Id, payload: Bytes)
    requires shardOf(queue) != shardOf(other)
    ensures var log := [Push(queue, id, payload), Ack(other, id)];
            && Key(shardOf(queue), id) in ApplyAll(shardOf, EMPTY, log).live
            && Key(shardOf(queue), id) !in ApplyAll(shardOf, EMPTY, Unacked(log, AckedIds(log))).live
  {
    var k, log := Key(shardOf(queue), id), [Push(queue, id, payload), Ack(other, id)];
    assert log[1].Ack? && log[1].id == id;
    ApplyTwo(shardOf, EMPTY, log[0], log[1]);
    FreshFate(shardOf, EMPTY, Unacked(log, AckedIds(log)), k);
    UnackedFirst(shardOf, log, AckedIds(log), k);
    AckedIdsIff(log, id);
  }

  lemma {:induction false} SeenStays(shardOf: Sharding, r: Replica, log: seq<Command>, k: Key)
    requires k in r.seen
    ensures k in ApplyAll(shardOf, r, log).seen
  {
    if log != [] {
      SeenStays(shardOf, r, log[..|log| - 1], k);
    }
  }

  lemma {:induction false} PushedSeen(shardOf: Sharding, r: Replica, log: seq<Command>, k: Key)
    requires Pushed(shardOf, log, k)
    ensures k in ApplyAll(shardOf, r, log).seen
  {
    LogSnoc(shardOf, log, k);
    if Pushed(shardOf, log[..|log| - 1], k) {
      PushedSeen(shardOf, r, log[..|log| - 1], k);
    }
  }

  /** Promotion on top of a snapshot re-pushes part of the log onto the engine as it is. An engine that
      applied the log is left unchanged, whatever it applied before. */
  lemma {:induction false} RepushChangesNothing(shardOf: Sharding, base: Replica, log: seq<Command>,
                                                again: seq<Command>)
    requires forall i :: 0 <= i < |again| ==> again[i].Push? && again[i] in log
    ensures var r := ApplyAll(shardOf, base, log); ApplyAll(shardOf, r, again) == r
  {
    if again != [] {
      var front, c := again[..|again| - 1], again[|again| - 1];
      RepushChangesNothing(shardOf, base, log, front);
      var i :| 0 <= i < |log| && log[i] == c;
      assert PushAt(shardOf, log, i, CommandKey(shardOf, c));
      PushedSeen(shardOf, base, log, CommandKey(shardOf, c));
    }
  }

  // ---------------------------------------------------------------- majorities

  /** The peer list of a node: no duplicates and not the node itself. */
  ghost predicate GoodPeers(self: string, peers: seq<string>) {
    NoDup(peers) && self !in peers
  }

  function AddPeer(self: string, peers: seq<string>, peer: string): seq<string> {
    if peer !in peers && peer != self then peers + [peer] else peers
  }

  function RemovePeer(peers: seq<string>, peer: string): seq<string> {
    if peers == [] then []
    else
      var last := peers[|peers| - 1];
      RemovePeer(peers[..|peers| - 1], peer) + if last != peer then [last] else []
  }

  lemma DistinctSnoc(s: seq<string>, x: string)
    ensures NoDup(s + [x]) <==> NoDup(s) && x !in Elems(s)
    ensures Elems(s + [x]) == Elems(s) + {x}
    ensures x in s <==> x in Elems(s)
  {
    if NoDup(s + [x]) {
      assert forall i :: 0 <= i < |s| ==> (s + [x])[i] == s[i];
      assert (s + [x])[|s|] == x;
    }
  }

  lemma AddPeerGood(self: string, peers: seq<string>, peer: string)
    requires GoodPeers(self, peers)
    ensures GoodPeers(self, AddPeer(self, peers, peer))
    ensures Elems(AddPeer(self, peers, peer)) == Elems(peers) + ({peer} - {self})
  {
  }

  lemma {:induction false} RemovePeerGood(self: string, peers: seq<string>, peer: string)
    requires GoodPeers(self, peers)
    ensures GoodPeers(self, RemovePeer(peers, peer)) && Elems(RemovePeer(peers, peer)) == Elems(peers) - {peer}
  {
    if peers != [] {
      var front, last := peers[..|peers| - 1], peers[|peers| - 1];
      Unsnoc(peers);
      DistinctSnoc(front, last);
      RemovePeerGood(self, front, peer);
      DistinctSnoc(RemovePeer(front, peer), last);
    }
  }

  function Quorum(nodes: nat): nat {
    nodes / 2 + 1
  }

  datatype Reply = Reply(peer: string, success: bool)

  /** Each peer answers at most once. */
  ghost predicate OneReplyEach(peers: seq<string>, replies: seq<Reply>) {
    && (forall i :: 0 <= i < |replies| ==> replies[i].peer in peers)
    && (forall i, j :: 0 <= i < j < |replies| ==> replies[i].peer != replies[j].peer)
  }

  function Successes(replies: seq<Reply>): nat {
    if replies == [] then 0 else Successes(replies[..|replies| - 1]) + if replies[|replies| - 1].success then 1 else 0
  }

  function Appliers(replies: seq<Reply>): set<string> {
    set r | r in replies && r.success :: r.peer
  }

  /** The loop that collects replies: counts from one for the leader and stops at the quorum. */
  method CollectAcks(replies: seq<Reply>, quorum: nat) returns (acks: nat)
    requires 1 <= quorum
    ensures acks >= quorum <==> 1 + Successes(replies) >= quorum
    ensures acks <= 1 + Successes(replies)
  {
    acks := 1;
    var k := 0;
    while k < |replies|
      invariant k <= |replies| && acks == 1 + Successes(replies[..k])
      invariant acks >= quorum ==> quorum == 1
    {
      PrefixStep(replies, k);
      if replies[k].success {
        acks := acks + 1;
        if acks >= quorum {
          MoreSuccesses(replies, k + 1);
          return;
        }
      }
      k := k + 1;
    }
    assert replies[..|replies|] == replies;
  }

  lemma {:induction false} MoreSuccesses(replies: seq<Reply>, k: nat)
    requires k <= |replies|
    ensures Successes(replies[..k]) <= Successes(replies)
  {
    if k == |replies| {
      assert replies[..k] == replies;
    } else {
      MoreSuccesses(replies[..|replies| - 1], k);
      assert replies[..|replies| - 1][..k] == replies[..k];
    }
  }

  lemma AppliersSnoc(front: seq<Reply>, last: Reply)
    requires forall i :: 0 <= i < |front| ==> front[i].peer != last.peer
    ensures Appliers(front + [last]) == Appliers(front) + if last.success then {last.peer} else {}
    ensures last.peer !in Appliers(front)
  {
  }

  lemma {:induction false} AppliersCount(peers: seq<string>, replies: seq<Reply>)
    requires OneReplyEach(peers, replies)
    ensures |Appliers(replies)| == Successes(replies) && forall p :: p in Appliers(replies) ==> p in peers
  {
    if replies == [] {
      assert Appliers(replies) == {};
    } else {
      var front, last := replies[..|replies| - 1], replies[|replies| - 1];
      Unsnoc(replies);
      assert forall i :: 0 <= i < |front| ==> front[i] == replies[i];
      AppliersCount(peers, front);
      AppliersSnoc(front, last);
    }
  }

  /** When enough replies say success for an Ok, the leader and the peers that sent them are a majority
      of all the nodes. */
  lemma OkMeansMajority(self: string, peers: seq<string>, replies: seq<Reply>)
    requires GoodPeers(self, peers) && OneReplyEach(peers, replies)
    requires 1 + Successes(replies) >= Quorum(|peers| + 1)
    ensures |{self} + Appliers(replies)| >= Quorum(|peers| + 1) && {self} + Appliers(replies) <= {self} + Elems(peers)
    ensures |{self} + Elems(peers)| == |peers| + 1
  {
    AppliersCount(peers, replies);
    assert |{self} + Appliers(replies)| == 1 + |Appliers(replies)|;
    ElemsCount(peers);
    assert |{self} + Elems(peers)| == 1 + |Elems(peers)|;
  }

  lemma {:induction false} ElemsCount(s: seq<string>)
    requires NoDup(s)
    ensures |Elems(s)| == |s|
  {
    if s != [] {
      var front, last := s[..|s| - 1], s[|s| - 1];
      Unsnoc(s);
      DistinctSnoc(front, last);
      ElemsCount(front);
    }
  }

  /** Any two majorities of the same nodes share a node. */
  lemma MajoritiesMeet(nodes: set<string>, a: set<string>, b: set<string>)
    requires a <= nodes && b <= nodes && |a| >= Quorum(|nodes|) && |b| >= Quorum(|nodes|)
    ensures a * b != {}
  {
    if a * b == {} {
      assert |a + b| == |a| + |b|;
      SubsetSize(a + b, nodes);
      assert false;
    }
  }

  lemma {:induction false} SubsetSize(a: set<string>, b: set<string>)
    requires a <= b
    ensures |a| <= |b|
  {
    if a != {} {
      var x :| x in a;
      SubsetSize(a - {x}, b - {x});
    }
  }

  /** So every majority of the nodes holds the leader or one of those peers. */
  lemma EveryMajorityKnows(self: string, peers: seq<string>, replies: seq<Reply>, majority: set<string>)
    requires GoodPeers(self, peers) && OneReplyEach(peers, replies)
    requires 1 + Successes(replies) >= Quorum(|peers| + 1)
    requires majority <= {self} + Elems(peers) && |majority| >= Quorum(|peers| + 1)
    ensures exists n :: n in majority && (n == self || n in Appliers(replies))
  {
    OkMeansMajority(self, peers, replies);
    MajoritiesMeet({self} + Elems(peers), majority, {self} + Appliers(replies));
    var n :| n in majority * ({self} + Appliers(replies));
    assert n in majority && (n == self || n in Appliers(replies));
  }

  /** Each of the nodes has applied the commands to its engine. */
  ghost predicate AppliedBy(shardOf: Sharding, nodes: set<string>, before: map<string, Replica>,
                            after: map<string, Replica>, commands: seq<Command>)
  {
    forall n :: n in nodes ==> n in before && n in after && after[n] == ApplyAll(shardOf, before[n], commands)
  }

  /** The engine knows every message that the commands push, and holds those it had not seen before. */
  ghost predicate Stores(shardOf: Sharding, before: Replica, after: Replica, commands: seq<Command>) {
    forall k :: Pushed(shardOf, commands, k) ==>
      && k in after.seen
      && (k !in before.seen && k !in before.live ==>
            k in after.live && Some(after.live[k]) == FirstBody(shardOf, commands, k))
  }

  lemma AppliedStores(shardOf: Sharding, r: Replica, commands: seq<Command>)
    requires forall i :: 0 <= i < |commands| ==> commands[i].Push?
    ensures Stores(shardOf, r, ApplyAll(shardOf, r, commands), commands)
  {
    forall k | Pushed(shardOf, commands, k)
      ensures k in ApplyAll(shardOf, r, commands).seen
      ensures k !in r.seen && k !in r.live ==>
                && k in ApplyAll(shardOf, r, commands).live
                && Some(ApplyAll(shardOf, r, commands).live[k]) == FirstBody(shardOf, commands, k)
    {
      PushedSeen(shardOf, r, commands, k);
      if k !in r.seen && k !in r.live {
        FreshFate(shardOf, r, commands, k);
        FirstBodyIff(shardOf, commands, k);
      }
    }
  }

  /** A push batch answered Ok is in the engine of some node of every majority: the leader and every
      peer that answered success have applied it, and their engines hold its messages. */
  lemma EveryMajorityStores(shardOf: Sharding, self: string, peers: seq<string>, replies: seq<Reply>,
                            commands: seq<Command>, before: map<string, Replica>, after: map<string, Replica>,
                            majority: set<string>)
    requires GoodPeers(self, peers) && OneReplyEach(peers, replies)
    requires 1 + Successes(replies) >= Quorum(|peers| + 1)
    requires forall i :: 0 <= i < |commands| ==> commands[i].Push?
    requires AppliedBy(shardOf, {self} + Appliers(replies), before, after, commands)
    requires majority <= {self} + Elems(peers) && |majority| >= Quorum(|peers| + 1)
    ensures exists n :: n in majority && n in before && n in after && Stores(shardOf, before[n], after[n], commands)
  {
    hide Stores, Appliers, ApplyAll, Quorum, Successes;
    EveryMajorityKnows(self, peers, replies, majority);
    var n :| n in majority && (n == self || n in Appliers(replies));
    AppliedStores(shardOf, before[n], commands);
  }
}
