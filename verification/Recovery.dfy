/** What a restart rebuilds from the two log segments, and why flip-flop compaction may crash at any
    byte (walrq/src/engine/disk_log.rs, `perform_flip_flop_compaction` and `open`;
    walrq/src/engine/queue.rs, the recovery loop of `open`). */
module Recovery {
  import opened Basics
  import opened Framing
  import opened WalCodec

  /** A record acts on the shard its queue name hashes to. */
  datatype Key = Key(shard: nat, id: Id)

  datatype Stored = Stored(queue: string, visibleAt: nat, payload: Bytes)

  function StoredOf(r: WalRecord): Stored
    requires r.Push?
  {
    Stored(r.queue, r.visibleAt, r.payload)
  }

  type Sharding = string -> nat

  function KeyOf(shardOf: Sharding, r: WalRecord): Key {
    Key(shardOf(r.queue), r.id)
  }

  function ReplayOne(shardOf: Sharding, live: map<Key, Stored>, r: WalRecord): map<Key, Stored> {
    match r
    case Push(_, queue, visibleAt, payload) => live[KeyOf(shardOf, r) := Stored(queue, visibleAt, payload)]
    case Ack(_, _) => live - {KeyOf(shardOf, r)}
  }

  /** The unacknowledged messages after replaying `log` on top of `live`. */
  function Replay(shardOf: Sharding, live: map<Key, Stored>, log: seq<WalRecord>): map<Key, Stored> {
    if log == [] then live else ReplayOne(shardOf, Replay(shardOf, live, log[..|log| - 1]), log[|log| - 1])
  }

  function Live(shardOf: Sharding, log: seq<WalRecord>): map<Key, Stored> {
    Replay(shardOf, map[], log)
  }

  lemma {:induction false} ReplaySplit(shardOf: Sharding, live: map<Key, Stored>, a: seq<WalRecord>, b: seq<WalRecord>)
    ensures Replay(shardOf, live, a + b) == Replay(shardOf, Replay(shardOf, live, a), b)
  {
    if b == [] {
      assert a + b == a;
    } else {
      assert (a + b)[..|a + b| - 1] == a + b[..|b| - 1];
      ReplaySplit(shardOf, live, a, b[..|b| - 1]);
    }
  }

  /** The log says something about `k`. */
  ghost predicate Mentions(shardOf: Sharding, log: seq<WalRecord>, k: Key) {
    exists i :: 0 <= i < |log| && KeyOf(shardOf, log[i]) == k
  }

  /** The last record about a key decides; a key without records keeps what it had. */
  lemma {:induction false} ReplayLocal(shardOf: Sharding, live: map<Key, Stored>, log: seq<WalRecord>, k: Key)
    ensures if Mentions(shardOf, log, k) then
              && (k in Replay(shardOf, live, log) <==> k in Live(shardOf, log))
              && (k in Live(shardOf, log) ==> Replay(shardOf, live, log)[k] == Live(shardOf, log)[k])
            else
              && k !in Live(shardOf, log)
              && (k in Replay(shardOf, live, log) <==> k in live)
              && (k in live ==> Replay(shardOf, live, log)[k] == live[k])
  {
    if log != [] {
      var front, r := log[..|log| - 1], log[|log| - 1];
      ReplayLocal(shardOf, live, front, k);
      assert forall i :: 0 <= i < |front| ==> front[i] == log[i];
      if Mentions(shardOf, front, k) {
        var i :| 0 <= i < |front| && KeyOf(shardOf, front[i]) == k;
        assert KeyOf(shardOf, log[i]) == k;
      }
    }
  }

  /** Record `n` pushes `k` and nothing after it acknowledges `k`. */
  ghost predicate Stands(shardOf: Sharding, log: seq<WalRecord>, n: nat, k: Key) {
    && n < |log| && log[n].Push? && KeyOf(shardOf, log[n]) == k
    && forall j :: n < j < |log| && KeyOf(shardOf, log[j]) == k ==> log[j].Push?
  }

  /** A message is live if and only if one of its Push records is followed by no Ack of it in the same
      shard, and then it is as one of those records says. */
  lemma {:induction false} LiveIff(shardOf: Sharding, log: seq<WalRecord>, k: Key)
    ensures k in Live(shardOf, log) <==> exists n: nat :: Stands(shardOf, log, n, k)
    ensures k in Live(shardOf, log) ==>
              exists n: nat :: Stands(shardOf, log, n, k) && Live(shardOf, log)[k] == StoredOf(log[n])
  {
    if log != [] {
      var front, r := log[..|log| - 1], log[|log| - 1];
      LiveIff(shardOf, front, k);
      forall n: nat | n < |front|
        ensures Stands(shardOf, log, n, k) <==> Stands(shardOf, front, n, k) && (KeyOf(shardOf, r) == k ==> r.Push?)
      {
        StandsOn(shardOf, log, n, k);
      }
      if KeyOf(shardOf, r) == k && r.Push? {
        assert Stands(shardOf, log, |front|, k);
      } else if k in Live(shardOf, log) {
        var n: nat :| Stands(shardOf, front, n, k) && Live(shardOf, front)[k] == StoredOf(front[n]);
        assert Stands(shardOf, log, n, k) && log[n] == front[n];
      }
    }
  }

  lemma StandsOn(shardOf: Sharding, log: seq<WalRecord>, n: nat, k: Key)
    requires n + 1 < |log|
    ensures var front, r := log[..|log| - 1], log[|log| - 1];
            Stands(shardOf, log, n, k) <==> Stands(shardOf, front, n, k) && (KeyOf(shardOf, r) == k ==> r.Push?)
  {
    var front := log[..|log| - 1];
    assert forall j :: 0 <= j < |front| ==> front[j] == log[j];
    assert Stands(shardOf, front, n, k) ==>
        forall j :: n < j < |log| - 1 && KeyOf(shardOf, log[j]) == k ==> front[j].Push?;
    assert Stands(shardOf, log, n, k) ==>
        forall j :: n < j < |front| && KeyOf(shardOf, front[j]) == k ==> log[j].Push?;
  }

  /** `part` is some of `whole`, unchanged. */
  ghost predicate Within(part: map<Key, Stored>, whole: map<Key, Stored>) {
    forall k :: k in part ==> k in whole && whole[k] == part[k]
  }

  /** Replaying a log over messages it leaves live anyway changes nothing. */
  lemma ReplayOverSurvivors(shardOf: Sharding, live: map<Key, Stored>, log: seq<WalRecord>)
    requires Within(live, Live(shardOf, log))
    ensures Replay(shardOf, live, log) == Live(shardOf, log)
  {
    var all := Live(shardOf, log);
    forall k
      ensures k in Replay(shardOf, live, log) <==> k in all
      ensures k in all ==> k in Replay(shardOf, live, log) && Replay(shardOf, live, log)[k] == all[k]
    {
      ReplayLocal(shardOf, live, log, k);
    }
  }

  // ---------------------------------------------------------------- compaction

  /** Survivors are written as one Push per message. */
  ghost predicate OnePushEach(shardOf: Sharding, survivors: seq<WalRecord>) {
    && (forall i :: 0 <= i < |survivors| ==> survivors[i].Push?)
    && forall i, j :: 0 <= i < j < |survivors| ==> KeyOf(shardOf, survivors[i]) != KeyOf(shardOf, survivors[j])
  }

  lemma {:induction false} LiveOfSurvivors(shardOf: Sharding, survivors: seq<WalRecord>)
    requires OnePushEach(shardOf, survivors)
    ensures forall i :: 0 <= i < |survivors| ==>
              var k := KeyOf(shardOf, survivors[i]);
              k in Live(shardOf, survivors) && Live(shardOf, survivors)[k] == StoredOf(survivors[i])
    ensures forall k :: k in Live(shardOf, survivors) ==> Mentions(shardOf, survivors, k)
  {
    if survivors != [] {
      var front := survivors[..|survivors| - 1];
      LiveOfSurvivors(shardOf, front);
      assert forall i :: 0 <= i < |front| ==> front[i] == survivors[i];
      forall k | k in Live(shardOf, survivors)
        ensures Mentions(shardOf, survivors, k)
      {
        if k != KeyOf(shardOf, survivors[|survivors| - 1]) {
          assert k in Live(shardOf, front) && Mentions(shardOf, front, k);
          var i :| 0 <= i < |front| && KeyOf(shardOf, front[i]) == k;
          assert KeyOf(shardOf, survivors[i]) == k;
        }
      }
    }
  }

  lemma SurvivorsPrefix(shardOf: Sharding, survivors: seq<WalRecord>, n: nat)
    requires OnePushEach(shardOf, survivors) && n <= |survivors|
    ensures Within(Live(shardOf, survivors[..n]), Live(shardOf, survivors))
  {
    var part := survivors[..n];
    LiveOfSurvivors(shardOf, survivors);
    LiveOfSurvivors(shardOf, part);
    forall k | k in Live(shardOf, part)
      ensures k in Live(shardOf, survivors) && Live(shardOf, survivors)[k] == Live(shardOf, part)[k]
    {
      var i :| 0 <= i < |part| && KeyOf(shardOf, part[i]) == k;
      assert part[i] == survivors[i];
    }
  }

  /** Pushing again, unchanged, messages that are live changes nothing. */
  lemma {:induction false} ReplayAgain(shardOf: Sharding, live: map<Key, Stored>, again: seq<WalRecord>)
    requires forall i :: 0 <= i < |again| ==>
               again[i].Push? && KeyOf(shardOf, again[i]) in live
               && live[KeyOf(shardOf, again[i])] == StoredOf(again[i])
    ensures Replay(shardOf, live, again) == live
  {
    if again != [] {
      ReplayAgain(shardOf, live, again[..|again| - 1]);
    }
  }

  /** The two segments as a crash leaves them. */
  datatype Segments = Segments(a: Bytes, b: Bytes)

  function Segment(s: Segments, isB: bool): Bytes {
    if isB then s.b else s.a
  }

  function WithSegment(s: Segments, isB: bool, bytes: Bytes): Segments {
    if isB then s.(b := bytes) else s.(a := bytes)
  }

  /** What `open` rebuilds: segment A is replayed first, then segment B. */
  ghost function Recovered(ctx: Context, shardOf: Sharding, s: Segments): map<Key, Stored>
    requires Progress(WalFormat(ctx))
  {
    Live(shardOf, DecodeAll(WalFormat(ctx), s.a) + DecodeAll(WalFormat(ctx), s.b))
  }

  /** The segments a compaction can leave behind: any part of the survivors' bytes in the new
      segment beside the intact old one, or all of them and the old one truncated. */
  ghost predicate MidCopy(wasB: bool, old_: Bytes, copy: Bytes, s: Segments) {
    || (Segment(s, wasB) == old_ && Segment(s, !wasB) <= copy)
    || (Segment(s, wasB) == [] && Segment(s, !wasB) == copy)
  }

  ghost predicate CrashPoint(ctx: Context, wasB: bool, old_: Bytes, survivors: seq<WalRecord>, s: Segments) {
    MidCopy(wasB, old_, EncodeAll(WalFormat(ctx), survivors), s)
  }

  ghost predicate CrashSafe(ctx: Context, shardOf: Sharding, wasB: bool, old_: Bytes, survivors: seq<WalRecord>)
    requires Progress(WalFormat(ctx))
  {
    forall s :: CrashPoint(ctx, wasB, old_, survivors, s) ==>
      Recovered(ctx, shardOf, s) == Live(shardOf, DecodeAll(WalFormat(ctx), old_))
  }

  /** A torn copy of the survivors, before or after the old log, does not change what is live. */
  lemma PartialCopyHarmless(shardOf: Sharding, log: seq<WalRecord>, survivors: seq<WalRecord>, n: nat)
    requires OnePushEach(shardOf, survivors) && n <= |survivors|
    requires Live(shardOf, survivors) == Live(shardOf, log)
    ensures Live(shardOf, log + survivors[..n]) == Live(shardOf, log)
    ensures Live(shardOf, survivors[..n] + log) == Live(shardOf, log)
  {
    var part := survivors[..n];
    LiveOfSurvivors(shardOf, survivors);
    forall i | 0 <= i < |part|
      ensures part[i].Push? && KeyOf(shardOf, part[i]) in Live(shardOf, log)
              && Live(shardOf, log)[KeyOf(shardOf, part[i])] == StoredOf(part[i])
    {
      assert part[i] == survivors[i];
    }
    ReplaySplit(shardOf, map[], log, part);
    ReplayAgain(shardOf, Live(shardOf, log), part);
    ReplaySplit(shardOf, map[], part, log);
    SurvivorsPrefix(shardOf, survivors, n);
    ReplayOverSurvivors(shardOf, Live(shardOf, part), log);
  }

  lemma EmptySides<T>(s: seq<T>)
    ensures [] + s == s && s + [] == s
  {
  }

  lemma PrefixIs<T>(a: seq<T>, b: seq<T>)
    requires a <= b
    ensures a == b[..|a|]
  {
  }

  lemma CrashPointRecovers(ctx: Context, shardOf: Sharding, wasB: bool, old_: Bytes, survivors: seq<WalRecord>,
                           s: Segments)
    requires AllFit(ctx.names, survivors) && OnePushEach(shardOf, survivors)
    requires Progress(WalFormat(ctx)) && CrashPoint(ctx, wasB, old_, survivors, s)
    requires Live(shardOf, survivors) == Live(shardOf, DecodeAll(WalFormat(ctx), old_))
    ensures Recovered(ctx, shardOf, s) == Live(shardOf, DecodeAll(WalFormat(ctx), old_))
  {
    var f := WalFormat(ctx);
    var copy := EncodeAll(f, survivors);
    var log := DecodeAll(f, old_);
    var k := |Segment(s, !wasB)|;
    WalTornTail(ctx, survivors, k);
    assert f.dec([]).Torn?;
    if Segment(s, wasB) == [] && Segment(s, !wasB) == copy {
      EmptySides(survivors);
    } else {
      PrefixIs(Segment(s, !wasB), copy);
      PartialCopyHarmless(shardOf, log, survivors, WholeWithin(f.size, survivors, k));
    }
  }

  /** Compaction is safe at every crash point, whichever segment was active, if and only if the
      survivors it copies are the live messages of the old segment. */
  lemma CompactionCrashSafeIff(ctx: Context, shardOf: Sharding, wasB: bool, old_: Bytes, survivors: seq<WalRecord>)
    requires AllFit(ctx.names, survivors) && OnePushEach(shardOf, survivors)
    ensures Progress(WalFormat(ctx))
    ensures CrashSafe(ctx, shardOf, wasB, old_, survivors)
            <==> Live(shardOf, survivors) == Live(shardOf, DecodeAll(WalFormat(ctx), old_))
  {
    var f := WalFormat(ctx);
    WalProgress(ctx);
    if Live(shardOf, survivors) == Live(shardOf, DecodeAll(f, old_)) {
      forall s | CrashPoint(ctx, wasB, old_, survivors, s)
        ensures Recovered(ctx, shardOf, s) == Live(shardOf, DecodeAll(f, old_))
      {
        CrashPointRecovers(ctx, shardOf, wasB, old_, survivors, s);
      }
    } else {
      var done := WithSegment(Segments([], []), !wasB, EncodeAll(f, survivors));
      WalTornTail(ctx, survivors, 0);
      assert f.dec([]).Torn?;
      EmptySides(survivors);
      assert CrashPoint(ctx, wasB, old_, survivors, done);
    }
  }

  // ---------------------------------------------------------------- restarting between two segments

  /** The two segments after an Ack was appended to one of them. */
  function WithAck(a: seq<WalRecord>, b: seq<WalRecord>, toB: bool, r: WalRecord): seq<WalRecord> {
    if toB then a + (b + [r]) else (a + [r]) + b
  }

  /** An acknowledgement holds across the next restart if and only if it was appended to the segment that
      is replayed last, or that segment does not bring the message back. After a crash that left both
      segments filled, appends go to A although B is replayed last. */
  lemma AckHoldsIff(shardOf: Sharding, a: seq<WalRecord>, b: seq<WalRecord>, toB: bool, id: Id, queue: string)
    ensures var k := Key(shardOf(queue), id);
            k !in Live(shardOf, WithAck(a, b, toB, Ack(id, queue))) <==> toB || k !in Live(shardOf, b)
  {
    var k, r := Key(shardOf(queue), id), Ack(id, queue);
    if toB {
      Assoc(a, b, [r]);
      Snoc(a + b, r);
    } else {
      Snoc(a, r);
      ReplaySplit(shardOf, map[], a + [r], b);
      ReplayLocal(shardOf, Live(shardOf, a + [r]), b, k);
    }
  }
}
