/** What holds of every run of the engine. */
module EngineTheorems {
  import opened Basics
  import opened EngineSpec
  import opened ShardInv
  import opened Books
  import opened EngineSteps
  import opened Lifecycle
  import opened EngineLife
  import opened EngineRuns

  /** All events of a run, in order. */
  ghost function RunEvents(cfg: Config, calls: seq<Call>): seq<Event> {
    EventsOf(Run(cfg, calls).log)
  }

  /** The calls happen at times that never decrease. */
  ghost predicate MonotoneClock(calls: seq<Call>) {
    forall i, j :: 0 <= i < j < |calls| ==> calls[i].now <= calls[j].now
  }

  /** The time of the last call. */
  function LastTime(calls: seq<Call>): nat {
    if |calls| == 0 then 0 else calls[|calls| - 1].now
  }

  // ---------------------------------------------------------------- one place

  /** After every run each hot message is hot in one shard only and there in exactly one place, and
      the counter of messages in RAM is exact. */
  lemma EveryRunOnePlace(cfg: Config, home: Homes, calls: seq<Call>)
    requires AllowedRun(cfg, home, calls)
    ensures var e := Run(cfg, calls).engine;
            && (forall i :: 0 <= i < NUM_SHARDS ==> OnePlace(e.shards[i], {}))
            && (forall i, j, id :: 0 <= i < NUM_SHARDS && 0 <= j < NUM_SHARDS
                  && id in e.shards[i].messages && id in e.shards[j].messages
                  ==> i == j)
            && e.total == HotCount(e.shards)
  {
    hide OnePlace, Balanced, BookOf, HotCount, Run, AllowedRun, Has;
    var e := Run(cfg, calls).engine;
    var s := RunLife(cfg, home, calls, 0);
    forall i, j, id | 0 <= i < NUM_SHARDS && 0 <= j < NUM_SHARDS && id in e.shards[i].messages
      && id in e.shards[j].messages
      ensures i == j
    {
      HotOnce(cfg, home, e, [], i, j, id);
    }
  }

  // ---------------------------------------------------------------- lives

  lemma {:induction false} RunTimes(cfg: Config, calls: seq<Call>)
    ensures |Run(cfg, calls).log| == |calls|
    ensures forall k :: 0 <= k < |calls| ==> Run(cfg, calls).log[k].now == calls[k].now
  {
    hide Step;
    if |calls| > 0 {
      RunTimes(cfg, calls[..|calls| - 1]);
    }
  }

  lemma {:induction false} MonotoneLog(log: seq<Entry>)
    requires forall i, j :: 0 <= i < j < |log| ==> log[i].now <= log[j].now
    ensures Monotone(log)
  {
    if log != [] {
      var front := log[..|log| - 1];
      assert forall k :: 0 <= k < |front| ==> front[k] == log[k];
      MonotoneLog(front);
    }
  }

  /** The life of each message in a run. */
  lemma RunLives(cfg: Config, home: Homes, calls: seq<Call>, id: Id, mono: bool) returns (s: Status)
    requires AllowedRun(cfg, home, calls) && (mono ==> MonotoneClock(calls))
    ensures Has(cfg, home, Run(cfg, calls).engine, [], id, s)
    ensures Lives(cfg, home(id), Project(RunEvents(cfg, calls), id), s, Clock(Run(cfg, calls).log), mono)
  {
    hide Inv, Has, Lives, AllowedRun, Follows;
    s := RunLife(cfg, home, calls, id);
    if mono {
      RunTimes(cfg, calls);
      MonotoneLog(Run(cfg, calls).log);
    }
    FollowsLives(cfg, home, id, Run(cfg, calls).log, s, mono);
  }

  /** Where the event at position `j` stands among the events of its message. */
  lemma Standing(events: seq<Event>, id: Id, j: nat) returns (p: nat)
    requires j < |events| && events[j].id == id
    ensures p == |Project(events[..j], id)| < |Project(events, id)| && Project(events, id)[p] == events[j]
    ensures Project(events, id)[..p + 1] == Project(events[..j + 1], id)
  {
    PrefixStep(events, j);
    p := |Project(events[..j], id)|;
    assert Project(events[..j + 1], id) == Project(events[..j], id) + [events[j]];
    ProjectSplit(events[..j + 1], events[j + 1..], id);
    assert events == events[..j + 1] + events[j + 1..];
  }

  lemma PlaceOrder(events: seq<Event>, id: Id, j: nat, k: nat)
    requires j < k <= |events| && events[j].id == id
    ensures |Project(events[..j], id)| < |Project(events[..k], id)|
  {
    var p := Standing(events[..k], id, j);
    assert events[..k][..j] == events[..j];
  }

  /** Once an ack of a message has succeeded nothing happens to it any more: no poll of any queue
      returns it, no ack of it succeeds, and pushing it again is not accepted. */
  lemma NothingAfterAck(cfg: Config, home: Homes, calls: seq<Call>, j: nat, k: nat)
    requires AllowedRun(cfg, home, calls) && j < k < |RunEvents(cfg, calls)|
    requires RunEvents(cfg, calls)[j].Acked?
    ensures RunEvents(cfg, calls)[k].id != RunEvents(cfg, calls)[j].id
  {
    hide AllowedRun, Run, Has;
    var events := RunEvents(cfg, calls);
    var id := events[j].id;
    if events[k].id == id {
      var s := RunLives(cfg, home, calls, id, false);
      var p := Standing(events, id, j);
      var q := Standing(events, id, k);
      PlaceOrder(events, id, j, k);
      assert false;
    }
  }

  /** An ack succeeds only under the receipt of the last hand-out of the message. */
  lemma AckUnderLastReceipt(cfg: Config, home: Homes, calls: seq<Call>, k: nat)
    requires AllowedRun(cfg, home, calls) && k < |RunEvents(cfg, calls)| && RunEvents(cfg, calls)[k].Acked?
    ensures var events := RunEvents(cfg, calls);
            var mine := Project(events[..k], events[k].id);
            mine != [] && mine[|mine| - 1].Delivered? && mine[|mine| - 1].receipt == events[k].receipt
  {
    hide AllowedRun, Run, Has;
    var events := RunEvents(cfg, calls);
    var id := events[k].id;
    var s := RunLives(cfg, home, calls, id, false);
    var p := Standing(events, id, k);
    var hist := Project(events, id);
    assert p > 0 ==> HandsReceipt(hist, p - 1, hist[p].receipt);
    PrefixStep(hist, p);
    PrefixStep(events, k);
    assert Project(events[..k + 1], id) == Project(events[..k], id) + [events[k]];
    assert hist[..p] == Project(events[..k], id);
  }

  /** A message is stored once, before anything else happens to it. */
  lemma StoredFirst(cfg: Config, home: Homes, calls: seq<Call>, j: nat, k: nat)
    requires AllowedRun(cfg, home, calls) && j < k < |RunEvents(cfg, calls)|
    requires RunEvents(cfg, calls)[j].id == RunEvents(cfg, calls)[k].id
    ensures !RunEvents(cfg, calls)[k].Stored?
  {
    hide AllowedRun, Run, Has;
    var events := RunEvents(cfg, calls);
    var id := events[j].id;
    var s := RunLives(cfg, home, calls, id, false);
    var q := Standing(events, id, k);
    PlaceOrder(events, id, j, k);
  }

  /** In every run a message is handed out at most max(1, max_delivery_count) times under its own
      queue name and at most once under each added ".dlq" level. */
  lemma DeliveryBound(cfg: Config, home: Homes, calls: seq<Call>, id: Id, queue: string)
    requires AllowedRun(cfg, home, calls)
    ensures HandsAt(Project(RunEvents(cfg, calls), id), queue)
            <= if queue == home(id) then Max(1, cfg.maxDelivery) else 1
  {
    hide AllowedRun, Run, Has;
    var s := RunLives(cfg, home, calls, id, false);
  }

  /** The delivery count a poll reports is the number of times the message has been handed out. */
  lemma DeliveryCount(cfg: Config, home: Homes, calls: seq<Call>, k: nat)
    requires AllowedRun(cfg, home, calls) && k < |RunEvents(cfg, calls)| && RunEvents(cfg, calls)[k].Delivered?
    ensures var events := RunEvents(cfg, calls);
            events[k].count == Hands(Project(events[..k + 1], events[k].id))
  {
    hide AllowedRun, Run, Has;
    var events := RunEvents(cfg, calls);
    var id := events[k].id;
    var s := RunLives(cfg, home, calls, id, false);
    var p := Standing(events, id, k);
  }

  /** Leases are exclusive: with a clock that does not step back, a message is handed out again only
      when its previous lease has ended. */
  lemma LeaseExclusive(cfg: Config, home: Homes, calls: seq<Call>, j: nat, k: nat)
    requires AllowedRun(cfg, home, calls) && MonotoneClock(calls) && j < k < |RunEvents(cfg, calls)|
    requires var events := RunEvents(cfg, calls);
             events[j].Delivered? && events[k].Delivered? && events[j].id == events[k].id
    ensures RunEvents(cfg, calls)[j].until <= RunEvents(cfg, calls)[k].now
  {
    hide AllowedRun, Run, Has;
    var events := RunEvents(cfg, calls);
    var id := events[j].id;
    var s := RunLives(cfg, home, calls, id, true);
    var p := Standing(events, id, j);
    var q := Standing(events, id, k);
    PlaceOrder(events, id, j, k);
  }

  lemma OneMore(cfg: Config, home: Homes, calls: seq<Call>, c: Call)
    requires AllowedRun(cfg, home, calls) && Allowed(cfg, home, Run(cfg, calls).engine, c)
    ensures AllowedRun(cfg, home, calls + [c])
    ensures var o := Step(cfg, Run(cfg, calls).engine, c);
            Run(cfg, calls + [c]).engine == o.engine && RunEvents(cfg, calls + [c]) == RunEvents(cfg, calls) + o.events
  {
    hide Step, Allowed;
    Snoc(calls, c);
    Snoc(Run(cfg, calls).log, Entry(c.now, Step(cfg, Run(cfg, calls).engine, c).events));
  }
}
