/** The life of one message as its producers and consumers can observe it, and what follows from it
    for every history. `EngineLife` shows that the engine keeps every message to this life. */
module Lifecycle {
  import opened Basics
  import opened EngineSpec
  import opened Books

  datatype Status =
    /** Never pushed. */
    | Unseen
    /** Accepted, but only on disk. */
    | Cold
    /** In a queue, handed out `count` times so far. */
    | InQueue(queue: string, count: nat)
    /** Handed out for the `count`-th time, until its lease ends. */
    | OnLease(queue: string, count: nat, until: nat, receipt: Receipt)
    /** Taken off an ended lease by the poll in progress. */
    | Returning(queue: string, count: nat)
    /** Acknowledged. */
    | Gone

  /** The queue a message goes to when its lease ends. */
  function NextQueue(cfg: Config, queue: string, count: nat): string {
    if cfg.maxDelivery <= count then DeadLetter(queue) else queue
  }

  /** What may happen to a message during a call at `now` without anyone noticing. */
  predicate Silent(cfg: Config, h: string, s: Status, s': Status, now: nat) {
    || s' == s
    || (s.Cold? && s' == InQueue(h, 0))
    || (s.OnLease? && s.until <= now && s' == InQueue(NextQueue(cfg, s.queue, s.count), s.count))
  }

  /** The events that may happen to a message whose home queue is `h`. */
  predicate Legal(h: string, s: Status, ev: Event, now: nat) {
    match ev
    case Stored(q, _, _) => s.Unseen? && q == h
    case Delivered(q, _, c, t, u, _) => 0 < c && s == InQueue(q, c - 1) && t == now && now <= u
    case Acked(_, _, receipt) => s.OnLease? && s.receipt == receipt
  }

  function Fire(s: Status, ev: Event): Status {
    match ev
    case Stored(q, _, place) => if place.Spilled? then Cold else InQueue(q, 0)
    case Delivered(q, _, c, _, u, receipt) => OnLease(q, c, u, receipt)
    case Acked(_, _, _) => Gone
  }

  function FireAll(s: Status, events: seq<Event>): Status {
    if events == [] then s else Fire(FireAll(s, events[..|events| - 1]), events[|events| - 1])
  }

  predicate Accepts(h: string, s: Status, events: seq<Event>, now: nat) {
    events == [] ||
    (var front := events[..|events| - 1];
     Accepts(h, s, front, now) && Legal(h, FireAll(s, front), events[|events| - 1], now))
  }

  lemma {:induction false} FireThen(s: Status, a: seq<Event>, b: seq<Event>)
    ensures FireAll(s, a + b) == FireAll(FireAll(s, a), b)
  {
    if b == [] {
      EmptyRight(a);
    } else {
      FireThen(s, a, b[..|b| - 1]);
      SnocSplit(a, b);
    }
  }

  lemma {:induction false} AcceptsThen(h: string, s: Status, a: seq<Event>, b: seq<Event>, now: nat)
    requires Accepts(h, s, a, now) && Accepts(h, FireAll(s, a), b, now)
    ensures Accepts(h, s, a + b, now) && FireAll(s, a + b) == FireAll(FireAll(s, a), b)
  {
    FireThen(s, a, b);
    if b == [] {
      EmptyRight(a);
    } else {
      var front, last := b[..|b| - 1], b[|b| - 1];
      AcceptsThen(h, s, a, front, now);
      FireThen(s, a, front);
      SnocSplit(a, b);
    }
  }

  lemma SnocSplit<T>(a: seq<T>, b: seq<T>)
    requires b != []
    ensures (a + b)[..|a + b| - 1] == a + b[..|b| - 1] && (a + b)[|a + b| - 1] == b[|b| - 1]
  {
  }

  /** The events that concern one message. */
  function Project(events: seq<Event>, id: Id): (r: seq<Event>)
    ensures forall k :: 0 <= k < |r| ==> r[k].id == id
  {
    if events == [] then []
    else
      var last := events[|events| - 1];
      Project(events[..|events| - 1], id) + if last.id == id then [last] else []
  }

  lemma {:induction false} ProjectSplit(a: seq<Event>, b: seq<Event>, id: Id)
    ensures Project(a + b, id) == Project(a, id) + Project(b, id)
  {
    if b == [] {
      EmptyRight(a);
    } else {
      var front := b[..|b| - 1];
      ProjectSplit(a, front, id);
      SnocSplit(a, b);
      var last := if b[|b| - 1].id == id then [b[|b| - 1]] else [];
      Assoc(Project(a, id), Project(front, id), last);
    }
  }

  /** One call: when it happened and the events it caused, of all messages. */
  datatype Entry = Entry(now: nat, events: seq<Event>)

  /** The calls of `log` treat the message as its life allows and leave it at `s`. */
  ghost predicate Follows(cfg: Config, home: Homes, id: Id, log: seq<Entry>, s: Status)
    decreases |log|, 0
  {
    if log == [] then s == Unseen
    else FollowsThen(cfg, home, id, log[..|log| - 1], log[|log| - 1], s)
  }

  ghost predicate FollowsThen(cfg: Config, home: Homes, id: Id, log: seq<Entry>, call: Entry, s: Status)
    decreases |log|, 1
  {
    exists s0 :: Follows(cfg, home, id, log, s0) && Turns(cfg, home(id), id, s0, call, s)
  }

  ghost predicate Turns(cfg: Config, h: string, id: Id, s0: Status, call: Entry, s: Status) {
    exists s1 :: Turn(cfg, h, id, s0, s1, call, s)
  }

  predicate Turn(cfg: Config, h: string, id: Id, s0: Status, s1: Status, call: Entry, s: Status) {
    var mine := Project(call.events, id);
    Silent(cfg, h, s0, s1, call.now) && Accepts(h, s1, mine, call.now) && FireAll(s1, mine) == s
  }

  /** All events of a history, in order. */
  function EventsOf(log: seq<Entry>): seq<Event> {
    if log == [] then [] else EventsOf(log[..|log| - 1]) + log[|log| - 1].events
  }

  // ---------------------------------------------------------------- what every life satisfies

  /** Number of hand-outs. */
  function Hands(events: seq<Event>): nat {
    if events == [] then 0
    else Hands(events[..|events| - 1]) + if events[|events| - 1].Delivered? then 1 else 0
  }

  /** Number of hand-outs under one queue name. */
  function HandsAt(events: seq<Event>, queue: string): nat {
    if events == [] then 0
    else
      var last := events[|events| - 1];
      HandsAt(events[..|events| - 1], queue) + if last.Delivered? && last.queue == queue then 1 else 0
  }

  /** How often a message may be handed out under a queue name: at home up to the delivery limit, but
      at least once; under each dead-letter name once. */
  function Limit(cfg: Config, h: string, queue: string): nat {
    if queue == h then Max(1, cfg.maxDelivery) else 1
  }

  /** It is stored once and first, the acknowledgement is under the receipt of the last hand-out, and
      nothing happens after it. */
  ghost predicate Orderly(hist: seq<Event>, s: Status) {
    && (s.OnLease? ==> hist != [] && HandsReceipt(hist, |hist| - 1, s.receipt))
    && (forall k :: 0 < k < |hist| && hist[k].Acked? ==> HandsReceipt(hist, k - 1, hist[k].receipt))
    && (hist == [] <==> s.Unseen?)
    && (forall k :: 0 <= k < |hist| ==> (hist[k].Stored? <==> k == 0))
    && (forall k :: 0 <= k < |hist| ==> (hist[k].Acked? <==> s.Gone? && k == |hist| - 1))
  }

  ghost predicate HandsReceipt(hist: seq<Event>, k: nat, receipt: Receipt) {
    k < |hist| && hist[k].Delivered? && hist[k].receipt == receipt
  }

  /** Hand-outs are numbered 1, 2, 3, ... */
  ghost predicate Numbered(hist: seq<Event>) {
    forall k :: 0 <= k < |hist| && hist[k].Delivered? ==> hist[k].count == Hands(hist[..k + 1])
  }

  ghost predicate Limited(cfg: Config, h: string, hist: seq<Event>) {
    forall q :: HandsAt(hist, q) <= Limit(cfg, h, q)
  }

  /** No hand-out happened under a name longer than `n`. */
  ghost predicate Shallow(hist: seq<Event>, n: int) {
    forall k :: 0 <= k < |hist| && hist[k].Delivered? ==> |hist[k].queue| <= n
  }

  /** What the status remembers of the hand-outs so far. */
  ghost predicate Remembers(cfg: Config, h: string, hist: seq<Event>, s: Status) {
    match s
    case InQueue(q, c) =>
      && c == Hands(hist) && HandsAt(hist, q) < Limit(cfg, h, q) && |h| <= |q|
      && (if q == h then HandsAt(hist, h) == c && Shallow(hist, |q|)
          else cfg.maxDelivery <= c && Shallow(hist, |q| - 1))
    case OnLease(q, c, _, _) =>
      && c == Hands(hist) && Shallow(hist, |q|) && |h| <= |q|
      && (if q == h then HandsAt(hist, h) == c else cfg.maxDelivery <= c)
    case _ => s.Gone? || Hands(hist) == 0
  }

  /** Every lease but the present one ended by `clock`, and no hand-out happened before the previous
      lease ended. */
  ghost predicate Exclusive(hist: seq<Event>, s: Status, clock: nat) {
    && (forall j, k :: 0 <= j < k < |hist| && hist[j].Delivered? && hist[k].Delivered? ==> hist[j].until <= hist[k].now)
    && (!s.Gone? ==> forall j :: 0 <= j < |hist| && hist[j].Delivered? ==>
          hist[j].until <= clock || (s.OnLease? && hist[j].until == s.until))
  }

  ghost predicate Lives(cfg: Config, h: string, hist: seq<Event>, s: Status, clock: nat, mono: bool) {
    && !s.Returning?
    && Orderly(hist, s) && Numbered(hist) && Limited(cfg, h, hist) && Remembers(cfg, h, hist, s)
    && (mono ==> Exclusive(hist, s, clock))
  }

  lemma {:induction false} NoHands(hist: seq<Event>, q: string)
    requires Shallow(hist, |q| - 1)
    ensures HandsAt(hist, q) == 0
  {
    if hist != [] {
      var front := hist[..|hist| - 1];
      assert forall k :: 0 <= k < |front| ==> front[k] == hist[k];
      NoHands(front, q);
    }
  }

  lemma {:induction false} HandsAtMost(hist: seq<Event>, q: string)
    ensures HandsAt(hist, q) <= Hands(hist)
  {
    if hist != [] {
      HandsAtMost(hist[..|hist| - 1], q);
    }
  }

  lemma LivesSilent(cfg: Config, h: string, hist: seq<Event>, s: Status, s': Status, clock: nat, now: nat, mono: bool)
    requires Lives(cfg, h, hist, s, clock, mono) && Silent(cfg, h, s, s', now) && (mono ==> clock <= now)
    ensures Lives(cfg, h, hist, s', now, mono)
  {
    if s.OnLease? && s' != s && cfg.maxDelivery <= s.count {
      NoHands(hist, s'.queue);
    } else if s.Cold? && s' != s {
      HandsAtMost(hist, h);
      ColdShallow(hist, |h|);
    }
  }

  lemma {:induction false} ColdShallow(hist: seq<Event>, n: int)
    requires Hands(hist) == 0
    ensures Shallow(hist, n)
  {
    if hist != [] {
      var front := hist[..|hist| - 1];
      ColdShallow(front, n);
      assert forall k :: 0 <= k < |front| ==> front[k] == hist[k];
    }
  }

  lemma SnocHands(hist: seq<Event>, ev: Event)
    ensures Hands(hist + [ev]) == Hands(hist) + if ev.Delivered? then 1 else 0
    ensures forall q :: HandsAt(hist + [ev], q) == HandsAt(hist, q) + if ev.Delivered? && ev.queue == q then 1 else 0
  {
    Snoc(hist, ev);
  }

  lemma NoHandsYet()
    ensures Hands([]) == 0 && forall q :: HandsAt([], q) == 0
  {
  }

  lemma NumberedSnoc(hist: seq<Event>, ev: Event)
    requires Numbered(hist) && (ev.Delivered? ==> ev.count == Hands(hist) + 1)
    ensures Numbered(hist + [ev])
  {
    var hist' := hist + [ev];
    SnocHands(hist, ev);
    forall k | 0 <= k < |hist'| && hist'[k].Delivered?
      ensures hist'[k].count == Hands(hist'[..k + 1])
    {
      if k < |hist| {
        assert hist'[..k + 1] == hist[..k + 1];
      } else {
        assert hist'[..k + 1] == hist';
      }
    }
  }

  lemma LivesEvent(cfg: Config, h: string, hist: seq<Event>, s: Status, ev: Event, now: nat, mono: bool)
    requires Lives(cfg, h, hist, s, now, mono) && Legal(h, s, ev, now)
    ensures Lives(cfg, h, hist + [ev], Fire(s, ev), now, mono)
  {
    hide Hands, HandsAt, Numbered;
    NoHandsYet();
    SnocHands(hist, ev);
    NumberedSnoc(hist, ev);
  }

  lemma {:induction false} LivesEvents(cfg: Config, h: string, hist: seq<Event>, s: Status, events: seq<Event>,
                                       now: nat, mono: bool)
    requires Lives(cfg, h, hist, s, now, mono) && Accepts(h, s, events, now)
    ensures Lives(cfg, h, hist + events, FireAll(s, events), now, mono)
  {
    hide Lives, Legal, Fire;
    if events == [] {
      EmptyRight(hist);
    } else {
      var front, last := events[..|events| - 1], events[|events| - 1];
      LivesEvents(cfg, h, hist, s, front, now, mono);
      LivesEvent(cfg, h, hist + front, FireAll(s, front), last, now, mono);
      Assoc(hist, front, [last]);
      Unsnoc(events);
    }
  }

  function Clock(log: seq<Entry>): nat {
    if log == [] then 0 else log[|log| - 1].now
  }

  predicate Monotone(log: seq<Entry>) {
    log == [] || (Monotone(log[..|log| - 1]) && Clock(log[..|log| - 1]) <= log[|log| - 1].now)
  }

  lemma {:induction false} FollowsLives(cfg: Config, home: Homes, id: Id, log: seq<Entry>, s: Status, mono: bool)
    requires Follows(cfg, home, id, log, s) && (mono ==> Monotone(log))
    ensures Lives(cfg, home(id), Project(EventsOf(log), id), s, Clock(log), mono)
  {
    if log != [] {
      var front, call := log[..|log| - 1], log[|log| - 1];
      var s0 :| Follows(cfg, home, id, front, s0) && Turns(cfg, home(id), id, s0, call, s);
      var s1 :| Turn(cfg, home(id), id, s0, s1, call, s);
      FollowsLives(cfg, home, id, front, s0, mono);
      var hist := Project(EventsOf(front), id);
      LivesSilent(cfg, home(id), hist, s0, s1, Clock(front), call.now, mono);
      LivesEvents(cfg, home(id), hist, s1, Project(call.events, id), call.now, mono);
      ProjectSplit(EventsOf(front), call.events, id);
    }
  }
}
