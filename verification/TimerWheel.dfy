/** The hashed timer wheel that holds the leases of one shard (walrq/src/engine/timer_wheel.rs).

    `Wheel` is the wheel's state as a value and the functions below say what each operation does
    to it; `class TimerWheels.TimerWheel` performs the same operations in place. `Represents` ties a wheel to
    a plain map of leases. */
module Wheels {
  import opened Basics

  datatype Item = Item(id: Id, queue: string, receipt: Receipt, expireAt: nat)

  datatype IndexEntry = IndexEntry(slot: nat, receipt: Receipt)

  datatype WheelState = WheelState(slots: seq<seq<Item>>, index: map<Id, IndexEntry>, lastChecked: nat)

  /** A wheel has at least one slot. */
  type Wheel = w: WheelState | 0 < |w.slots| witness WheelState([[]], map[], 0)

  /** What an implementation keeps true so that no slot access is out of range. */
  ghost predicate Shaped(w: Wheel) {
    forall id :: id in w.index ==> w.index[id].slot < |w.slots|
  }

  function NewWheel(capacity: nat): Wheel {
    WheelState(seq(Max(capacity, 60), _ => []), map[], 0)
  }

  function Insert(w: Wheel, item: Item): Wheel {
    var s := item.expireAt % |w.slots|;
    w.(index := w.index[item.id := IndexEntry(s, item.receipt)],
       slots := w.slots[s := w.slots[s] + [item]])
  }

  /** Position of the first item with the given id, or `|slot|` when there is none. */
  function Position(slot: seq<Item>, id: Id): (p: nat)
    ensures p <= |slot|
    ensures forall i :: 0 <= i < p ==> slot[i].id != id
    ensures p < |slot| ==> slot[p].id == id
  {
    if slot == [] || slot[0].id == id then 0 else 1 + Position(slot[1..], id)
  }

  /** Vec::swap_remove, a no-op when `pos` is past the end. */
  function SwapRemove(slot: seq<Item>, pos: nat): seq<Item> {
    if pos < |slot| then slot[pos := slot[|slot| - 1]][..|slot| - 1] else slot
  }

  predicate Valid(w: Wheel, id: Id, receipt: Receipt) {
    id in w.index && w.index[id].receipt == receipt
  }

  function RemoveIfValid(w: Wheel, id: Id, receipt: Receipt): Wheel {
    if Valid(w, id, receipt) then
      var s := w.index[id].slot;
      if s < |w.slots| then
        w.(index := w.index - {id}, slots := w.slots[s := SwapRemove(w.slots[s], Position(w.slots[s], id))])
      else w.(index := w.index - {id})
    else w
  }

  // ---------------------------------------------------------------- collecting expired leases

  datatype Sweep = Sweep(wheel: Wheel, expired: seq<Item>)

  /** Items of a slot that have expired, in slot order. */
  function Due(slot: seq<Item>, now: nat): seq<Item> {
    if slot == [] then []
    else
      var last := slot[|slot| - 1];
      Due(slot[..|slot| - 1], now) + if last.expireAt <= now then [last] else []
  }

  /** Items of a slot that have not. */
  function Kept(slot: seq<Item>, now: nat): seq<Item> {
    if slot == [] then []
    else
      var last := slot[|slot| - 1];
      Kept(slot[..|slot| - 1], now) + if last.expireAt <= now then [] else [last]
  }

  function IdsOf(items: seq<Item>): set<Id> {
    set it | it in items :: it.id
  }

  function SweepSlot(st: Sweep, s: nat, now: nat): Sweep
    requires s < |st.wheel.slots|
  {
    var slot := st.wheel.slots[s];
    Sweep(st.wheel.(slots := st.wheel.slots[s := Kept(slot, now)],
                    index := st.wheel.index - IdsOf(Due(slot, now))),
          st.expired + Due(slot, now))
  }

  function SweepSlots(w: Wheel, order: seq<nat>, now: nat): (r: Sweep)
    requires forall i :: 0 <= i < |order| ==> order[i] < |w.slots|
    ensures |r.wheel.slots| == |w.slots|
  {
    if order == [] then Sweep(w, [])
    else SweepSlot(SweepSlots(w, order[..|order| - 1], now), order[|order| - 1], now)
  }

  /** `last_checked_sec` as the sweep uses it: a first check looks back one second only. */
  function Since(w: Wheel, now: nat): nat {
    if w.lastChecked == 0 then SatSub(now, 1) else w.lastChecked
  }

  /** The slots a check visits: all of them after a gap of a whole turn, else one per elapsed second. */
  function Visits(since: nat, now: nat, size: nat): (r: seq<nat>)
    requires 0 < size
    ensures forall i :: 0 <= i < |r| ==> r[i] < size
  {
    if size <= SatSub(now, since) then seq(size, i => i)
    else seq(SatSub(now, since), t requires t >= 0 => (since + 1 + t) % size)
  }

  function Collect(w: Wheel, now: nat): Sweep {
    if w.index == map[] then Sweep(w.(lastChecked := now), [])
    else
      var st := SweepSlots(w, Visits(Since(w, now), now, |w.slots|), now);
      st.(wheel := st.wheel.(lastChecked := now))
  }

  // ---------------------------------------------------------------- the map of leases it stands for

  ghost predicate HoldsExactly(slot: seq<Item>, s: nat, size: nat, leases: map<Id, Item>)
    requires 0 < size
  {
    && NoDup(slot)
    && forall it :: it in slot <==> it.id in leases && leases[it.id] == it && it.expireAt % size == s
  }

  ghost predicate Represents(w: Wheel, leases: map<Id, Item>) {
    && w.index.Keys == leases.Keys
    && (forall id :: id in leases ==>
          leases[id].id == id && w.index[id] == IndexEntry(leases[id].expireAt % |w.slots|, leases[id].receipt))
    && forall s :: 0 <= s < |w.slots| ==> HoldsExactly(w.slots[s], s, |w.slots|, leases)
  }

  lemma RepresentsNew(capacity: nat)
    ensures Represents(NewWheel(capacity), map[])
  {
  }

  lemma RepresentsInsert(w: Wheel, leases: map<Id, Item>, item: Item)
    requires Represents(w, leases) && item.id !in leases
    ensures Represents(Insert(w, item), leases[item.id := item])
  {
    var w' := Insert(w, item);
    var leases' := leases[item.id := item];
    forall s | 0 <= s < |w.slots|
      ensures HoldsExactly(w'.slots[s], s, |w.slots|, leases')
    {
      assert HoldsExactly(w.slots[s], s, |w.slots|, leases);
    }
  }

  lemma SwapRemoveContents(slot: seq<Item>, p: nat)
    requires p < |slot| && NoDup(slot)
    ensures NoDup(SwapRemove(slot, p))
    ensures forall it :: it in SwapRemove(slot, p) <==> it in slot && it != slot[p]
  {
    var n, r := |slot|, SwapRemove(slot, p);
    assert forall i :: 0 <= i < n - 1 ==> r[i] == if i == p then slot[n - 1] else slot[i];
    forall it | it in slot && it != slot[p]
      ensures it in r
    {
      var i :| 0 <= i < n && slot[i] == it;
      assert r[if i == n - 1 then p else i] == it;
    }
  }

  lemma RepresentsRemove(w: Wheel, leases: map<Id, Item>, id: Id, receipt: Receipt)
    requires Represents(w, leases)
    ensures Shaped(w)
    ensures Valid(w, id, receipt) <==> id in leases && leases[id].receipt == receipt
    ensures Represents(RemoveIfValid(w, id, receipt), if Valid(w, id, receipt) then leases - {id} else leases)
  {
    if Valid(w, id, receipt) {
      var s := w.index[id].slot;
      var w', leases' := RemoveIfValid(w, id, receipt), leases - {id};
      assert HoldsExactly(w.slots[s], s, |w.slots|, leases);
      assert leases[id] in w.slots[s];
      var p := Position(w.slots[s], id);
      assert w.slots[s][p] in w.slots[s];
      SwapRemoveContents(w.slots[s], p);
      forall t | 0 <= t < |w.slots|
        ensures HoldsExactly(w'.slots[t], t, |w.slots|, leases')
      {
        assert HoldsExactly(w.slots[t], t, |w.slots|, leases);
      }
    }
  }

  lemma {:induction false} DueKept(slot: seq<Item>, now: nat)
    requires NoDup(slot)
    ensures NoDup(Due(slot, now)) && NoDup(Kept(slot, now))
    ensures forall it :: it in Due(slot, now) <==> it in slot && it.expireAt <= now
    ensures forall it :: it in Kept(slot, now) <==> it in slot && now < it.expireAt
  {
    if slot != [] {
      var front, last := slot[..|slot| - 1], slot[|slot| - 1];
      assert slot == front + [last];
      assert last !in front;
      DueKept(front, now);
    }
  }

  /** Leases that a sweep of the slots in `visited` hands back. */
  ghost function Taken(leases: map<Id, Item>, visited: set<nat>, size: nat, now: nat): set<Id>
    requires 0 < size
  {
    set id | id in leases && leases[id].expireAt <= now && leases[id].expireAt % size in visited
  }

  ghost predicate ListsExactly(items: seq<Item>, leases: map<Id, Item>, ids: set<Id>) {
    && NoDup(items)
    && forall it :: it in items <==> it.id in ids && it.id in leases && leases[it.id] == it
  }

  lemma SweepSlotTakes(w: Wheel, leases: map<Id, Item>, s: nat, now: nat)
    requires Represents(w, leases) && s < |w.slots|
    ensures var r := SweepSlot(Sweep(w, []), s, now);
            var ids := Taken(leases, {s}, |w.slots|, now);
            Represents(r.wheel, leases - ids) && ListsExactly(r.expired, leases, ids)
  {
    var n := |w.slots|;
    var w' := SweepSlot(Sweep(w, []), s, now).wheel;
    var ids := Taken(leases, {s}, n, now);
    var due := Due(w.slots[s], now);
    assert HoldsExactly(w.slots[s], s, n, leases);
    DueKept(w.slots[s], now);
    assert IdsOf(due) == ids by {
      forall id | id in ids ensures id in IdsOf(due) { assert leases[id] in due; }
    }
    forall t | 0 <= t < n
      ensures HoldsExactly(w'.slots[t], t, n, leases - ids)
    {
      assert HoldsExactly(w.slots[t], t, n, leases);
    }
  }

  lemma SweepSlotAdds(st: Sweep, leases: map<Id, Item>, before: set<Id>, s: nat, now: nat)
    requires Represents(st.wheel, leases - before) && ListsExactly(st.expired, leases, before)
    requires s < |st.wheel.slots|
    ensures var r := SweepSlot(st, s, now);
            var ids := before + Taken(leases - before, {s}, |st.wheel.slots|, now);
            Represents(r.wheel, leases - ids) && ListsExactly(r.expired, leases, ids)
  {
    var rest := leases - before;
    var here := Taken(rest, {s}, |st.wheel.slots|, now);
    assert rest - here == leases - (before + here) && before + (here - before) == before + here;
    SweepSlotTakes(st.wheel, rest, s, now);
    var due := SweepSlot(Sweep(st.wheel, []), s, now).expired;
    assert due == Due(st.wheel.slots[s], now);
    assert SweepSlot(st, s, now) == Sweep(SweepSlot(Sweep(st.wheel, []), s, now).wheel, st.expired + due);
    ListsJoin(leases, st.expired, before, due, here);
  }

  lemma TakenSplits(leases: map<Id, Item>, front: seq<nat>, s: nat, size: nat, now: nat)
    requires 0 < size
    ensures Taken(leases, Elems(front + [s]), size, now)
            == Taken(leases, Elems(front), size, now)
               + Taken(leases - Taken(leases, Elems(front), size, now), {s}, size, now)
  {
    assert Elems(front + [s]) == Elems(front) + {s};
  }

  /** A sweep hands back exactly the expired leases of the slots it visits, each once. */
  lemma {:induction false} SweepSlotsTakes(w: Wheel, leases: map<Id, Item>, order: seq<nat>, now: nat)
    requires Represents(w, leases) && forall i :: 0 <= i < |order| ==> order[i] < |w.slots|
    ensures var r := SweepSlots(w, order, now);
            var ids := Taken(leases, Elems(order), |w.slots|, now);
            Represents(r.wheel, leases - ids) && ListsExactly(r.expired, leases, ids)
  {
    if order == [] {
      assert leases - Taken(leases, Elems(order), |w.slots|, now) == leases;
    } else {
      var front, s := order[..|order| - 1], order[|order| - 1];
      assert order == front + [s];
      SweepSlotsTakes(w, leases, front, now);
      SweepSlotAdds(SweepSlots(w, front, now), leases, Taken(leases, Elems(front), |w.slots|, now), s, now);
      TakenSplits(leases, front, s, |w.slots|, now);
    }
  }

  lemma ListsJoin(leases: map<Id, Item>, a: seq<Item>, aIds: set<Id>, b: seq<Item>, bIds: set<Id>)
    requires ListsExactly(a, leases, aIds) && ListsExactly(b, leases - aIds, bIds)
    ensures ListsExactly(a + b, leases, aIds + (bIds - aIds))
  {
    assert forall it :: it in a + b <==> it in a || it in b;
    forall i, j | 0 <= i < j < |a + b|
      ensures (a + b)[i] != (a + b)[j]
    {
      if i < |a| <= j {
        assert a[i] in a && b[j - |a|] in b;
      }
    }
  }

  // ---------------------------------------------------------------- which leases a check reaches

  lemma {:induction false} ModShift(a: int, q: int, n: int)
    requires 0 < n
    ensures (a + q * n) % n == a % n
    decreases if q < 0 then -q else q
  {
    if q > 0 {
      ModShift(a, q - 1, n);
      ModStep(a + (q - 1) * n, n);
      assert a + (q - 1) * n + n == a + q * n;
    } else if q < 0 {
      ModShift(a, q + 1, n);
      ModStep(a + q * n, n);
      assert a + q * n + n == a + (q + 1) * n;
    }
  }

  lemma ModStep(a: int, n: int)
    requires 0 < n
    ensures (a + n) % n == a % n
  {
    var q, r := a / n, a % n;
    assert a == q * n + r;
    assert a + n == (q + 1) * n + r;
    DivModUnique(a + n, q + 1, r, n);
  }

  /** The check of `now` visits the slot of a lease that expires at `t`. */
  predicate Reached(t: nat, since: nat, now: nat, size: nat)
    requires 0 < size
  {
    size <= SatSub(now, since) || (t - since - 1) % size < SatSub(now, since)
  }

  lemma VisitsReached(t: nat, since: nat, now: nat, size: nat)
    requires 0 < size
    ensures t % size in Elems(Visits(since, now, size)) <==> Reached(t, since, now, size)
  {
    var r := Visits(since, now, size);
    if size <= SatSub(now, since) {
      assert r[t % size] == t % size;
    } else {
      var q, k := (t - since - 1) / size, (t - since - 1) % size;
      ModShift(since + 1 + k, q, size);
      assert since + 1 + k + q * size == t;
      if k < |r| {
        assert r[k] == t % size;
      }
      if t % size in r {
        var j :| 0 <= j < |r| && r[j] == t % size;
        SameResidue(since + 1 + j, since + 1 + k, size);
      }
    }
  }

  lemma SameResidue(a: int, b: int, n: int)
    requires 0 < n && a % n == b % n && -n < a - b < n
    ensures a == b
  {
    var d := a / n - b / n;
    assert a - b == d * n by {
      assert a == (a / n) * n + a % n && b == (b / n) * n + b % n;
      assert d * n == (a / n) * n - (b / n) * n;
    }
    assert (1 <= d ==> n <= d * n) && (d <= -1 ==> d * n <= -n);
  }

  lemma TimelyReached(t: nat, since: nat, now: nat, size: nat)
    requires 0 < size && since < t <= now
    ensures Reached(t, since, now, size)
  {
    if now - since < size {
      DivModUnique(t - since - 1, 0, t - since - 1, size);
    }
  }

  ghost function Expired(leases: map<Id, Item>, now: nat): set<Id> {
    set id | id in leases && leases[id].expireAt <= now
  }

  ghost predicate CollectsExactly(w: Wheel, leases: map<Id, Item>, now: nat, ids: set<Id>) {
    var r := Collect(w, now);
    && Represents(r.wheel, leases - ids)
    && ListsExactly(r.expired, leases, ids)
    && r.wheel.lastChecked == now
  }

  /** A check hands back the expired leases it reaches, each once, and keeps all the others. */
  lemma CollectTakesReached(w: Wheel, leases: map<Id, Item>, now: nat)
    requires Represents(w, leases)
    ensures CollectsExactly(w, leases, now,
              set id | id in Expired(leases, now) && Reached(leases[id].expireAt, Since(w, now), now, |w.slots|))
  {
    var size, since := |w.slots|, Since(w, now);
    var ids := set id | id in Expired(leases, now) && Reached(leases[id].expireAt, since, now, size);
    if w.index == map[] {
      assert leases.Keys == {} && leases - ids == leases;
    } else {
      var order := Visits(since, now, size);
      SweepSlotsTakes(w, leases, order, now);
      assert Taken(leases, Elems(order), size, now) == ids by {
        forall id | id in leases {
          VisitsReached(leases[id].expireAt, since, now, size);
        }
      }
      var st := SweepSlots(w, order, now);
      assert Collect(w, now) == st.(wheel := st.wheel.(lastChecked := now));
    }
  }

  /** The check is exact, handing back all leases with expire_at <= now and no other, precisely when
      it reaches the slot of every expired lease. */
  lemma CollectExactIff(w: Wheel, leases: map<Id, Item>, now: nat)
    requires Represents(w, leases)
    ensures CollectsExactly(w, leases, now, Expired(leases, now)) <==>
            forall id :: id in leases && leases[id].expireAt <= now ==>
              Reached(leases[id].expireAt, Since(w, now), now, |w.slots|)
  {
    var ids := set id | id in Expired(leases, now) && Reached(leases[id].expireAt, Since(w, now), now, |w.slots|);
    CollectTakesReached(w, leases, now);
    if CollectsExactly(w, leases, now, Expired(leases, now)) {
      assert (leases - ids).Keys == (leases - Expired(leases, now)).Keys;
      forall id | id in leases && leases[id].expireAt <= now
        ensures id in ids
      {
        assert id !in leases - ids;
      }
    }
    if forall id :: id in leases && leases[id].expireAt <= now ==>
         Reached(leases[id].expireAt, Since(w, now), now, |w.slots|) {
      assert ids == Expired(leases, now);
    }
  }

  // ---------------------------------------------------------------- the leases a wheel holds

  /** The item indexed under `id`. */
  ghost function LeaseOf(w: Wheel, id: Id): Item
    requires Shaped(w) && id in w.index
  {
    var slot := w.slots[w.index[id].slot];
    var p := Position(slot, id);
    if p < |slot| then slot[p] else Item(id, "", 0, 0)
  }

  ghost function LeasesOf(w: Wheel): map<Id, Item>
    requires Shaped(w)
  {
    map id | id in w.index :: LeaseOf(w, id)
  }

  /** Slots and index agree. */
  ghost predicate Consistent(w: Wheel) {
    Shaped(w) && Represents(w, LeasesOf(w))
  }

  lemma RepresentsLeasesOf(w: Wheel, leases: map<Id, Item>)
    requires Represents(w, leases)
    ensures Consistent(w) && LeasesOf(w) == leases
  {
    hide HoldsExactly, LeaseOf;
    assert Shaped(w);
    forall id | id in w.index
      ensures LeaseOf(w, id) == leases[id]
    {
      LeaseFound(w, leases, id);
    }
    assert LeasesOf(w).Keys == leases.Keys;
    assert LeasesOf(w) == leases;
  }

  lemma LeaseFound(w: Wheel, leases: map<Id, Item>, id: Id)
    requires Represents(w, leases) && Shaped(w) && id in w.index
    ensures LeaseOf(w, id) == leases[id]
  {
    var s := leases[id].expireAt % |w.slots|;
    assert HoldsExactly(w.slots[s], s, |w.slots|, leases);
    assert leases[id] in w.slots[s];
    var p := Position(w.slots[s], id);
    assert w.slots[s][p] in w.slots[s];
  }

  lemma ConsistentNew(capacity: nat)
    ensures Consistent(NewWheel(capacity)) && NewWheel(capacity).index == map[]
  {
    RepresentsNew(capacity);
    RepresentsLeasesOf(NewWheel(capacity), map[]);
  }

  lemma ConsistentInsert(w: Wheel, item: Item)
    requires Consistent(w) && item.id !in w.index
    ensures Consistent(Insert(w, item)) && LeasesOf(Insert(w, item)) == LeasesOf(w)[item.id := item]
    ensures Insert(w, item).index.Keys == w.index.Keys + {item.id}
  {
    RepresentsInsert(w, LeasesOf(w), item);
    RepresentsLeasesOf(Insert(w, item), LeasesOf(w)[item.id := item]);
  }

  lemma ConsistentRemove(w: Wheel, id: Id, receipt: Receipt)
    requires Consistent(w) && Valid(w, id, receipt)
    ensures Consistent(RemoveIfValid(w, id, receipt)) && LeasesOf(RemoveIfValid(w, id, receipt)) == LeasesOf(w) - {id}
    ensures RemoveIfValid(w, id, receipt).index.Keys == w.index.Keys - {id}
  {
    RepresentsRemove(w, LeasesOf(w), id, receipt);
    RepresentsLeasesOf(RemoveIfValid(w, id, receipt), LeasesOf(w) - {id});
  }

  /** A check returns distinct expired leases and keeps the others. */
  lemma ConsistentCollect(w: Wheel, now: nat)
    requires Consistent(w)
    ensures var r := Collect(w, now);
            && Consistent(r.wheel)
            && LeasesOf(r.wheel) == LeasesOf(w) - IdsOf(r.expired)
            && r.wheel.index.Keys == w.index.Keys - IdsOf(r.expired)
            && (forall k :: 0 <= k < |r.expired| ==>
                  r.expired[k].id in w.index && LeasesOf(w)[r.expired[k].id] == r.expired[k]
                  && r.expired[k].expireAt <= now)
            && (forall j, k :: 0 <= j < k < |r.expired| ==> r.expired[j].id != r.expired[k].id)
  {
    hide LeaseOf, HoldsExactly, Collect, Reached, Since;
    var leases, r := LeasesOf(w), Collect(w, now);
    var ids := set id | id in Expired(leases, now) && Reached(leases[id].expireAt, Since(w, now), now, |w.slots|);
    CollectTakesReached(w, leases, now);
    assert forall k :: 0 <= k < |r.expired| ==> r.expired[k] in r.expired;
    assert IdsOf(r.expired) == ids by {
      forall id | id in ids ensures id in IdsOf(r.expired) { assert leases[id] in r.expired; }
    }
    RepresentsLeasesOf(r.wheel, leases - ids);
  }

  /** Every lease was taken out after a check at a positive time and ends after the last check. */
  ghost predicate Fresh(w: Wheel) {
    Shaped(w) && forall id :: id in w.index ==> 0 < w.lastChecked < LeasesOf(w)[id].expireAt
  }

  /** A check of such a wheel leaves no lease that has ended. */
  lemma FreshCollect(w: Wheel, now: nat)
    requires Consistent(w) && Fresh(w) && 0 < now
    ensures var w' := Collect(w, now).wheel;
            Fresh(w') && w'.lastChecked == now
  {
    hide LeaseOf, HoldsExactly, Collect, Reached;
    var leases := LeasesOf(w);
    CollectExactIff(w, leases, now);
    forall id | id in leases && leases[id].expireAt <= now
      ensures Reached(leases[id].expireAt, Since(w, now), now, |w.slots|)
    {
      TimelyReached(leases[id].expireAt, w.lastChecked, now, |w.slots|);
    }
    assert CollectsExactly(w, leases, now, Expired(leases, now));
    RepresentsLeasesOf(Collect(w, now).wheel, leases - Expired(leases, now));
  }

  // ---------------------------------------------------------------- whole runs against a map of leases

  datatype Op =
    | InsertOp(item: Item)
    | RemoveOp(id: Id, receipt: Receipt)
    | CollectOp(now: nat)

  /** The reference: a map of leases and the time of the last check. */
  datatype Ledger = Ledger(leases: map<Id, Item>, lastChecked: nat)

  /** What an operation answers: whether a lease was removed, or the set of leases collected. */
  datatype Answer = Done | Removed(ok: bool) | Collected(items: set<Item>)

  ghost function LedgerStep(l: Ledger, op: Op): (Ledger, Answer) {
    match op
    case InsertOp(item) => (l.(leases := l.leases[item.id := item]), Done)
    case RemoveOp(id, receipt) =>
      if id in l.leases && l.leases[id].receipt == receipt
      then (l.(leases := l.leases - {id}), Removed(true))
      else (l, Removed(false))
    case CollectOp(now) =>
      (Ledger(l.leases - Expired(l.leases, now), now),
       Collected(set id | id in Expired(l.leases, now) :: l.leases[id]))
  }

  ghost function WheelStep(w: Wheel, op: Op): (Wheel, Answer) {
    match op
    case InsertOp(item) => (Insert(w, item), Done)
    case RemoveOp(id, receipt) => (RemoveIfValid(w, id, receipt), Removed(Valid(w, id, receipt)))
    case CollectOp(now) => (Collect(w, now).wheel, Collected(Elems(Collect(w, now).expired)))
  }

  /** How the engine uses the wheel: a lease is taken out on an id that has none, after a check at a
      positive time, and ends after the time of that check. */
  predicate Allowed(l: Ledger, op: Op) {
    match op
    case InsertOp(item) => item.id !in l.leases && 0 < l.lastChecked < item.expireAt
    case RemoveOp(_, _) => true
    case CollectOp(now) => 0 < now
  }

  ghost predicate Refines(w: Wheel, l: Ledger) {
    && Represents(w, l.leases)
    && w.lastChecked == l.lastChecked
    && forall id :: id in l.leases ==> 0 < l.lastChecked < l.leases[id].expireAt
  }

  lemma StepRefines(w: Wheel, l: Ledger, op: Op)
    requires Refines(w, l) && Allowed(l, op)
    ensures Refines(WheelStep(w, op).0, LedgerStep(l, op).0)
    ensures WheelStep(w, op).1 == LedgerStep(l, op).1
  {
    match op
    case InsertOp(item) => RepresentsInsert(w, l.leases, item);
    case RemoveOp(id, receipt) => RepresentsRemove(w, l.leases, id, receipt);
    case CollectOp(now) =>
      CollectExactIff(w, l.leases, now);
      forall id | id in l.leases && l.leases[id].expireAt <= now {
        TimelyReached(l.leases[id].expireAt, w.lastChecked, now, |w.slots|);
      }
      assert CollectsExactly(w, l.leases, now, Expired(l.leases, now));
  }

  ghost predicate AllowedRun(l: Ledger, ops: seq<Op>)
    decreases |ops|
  {
    ops == [] || (Allowed(l, ops[0]) && AllowedRun(LedgerStep(l, ops[0]).0, ops[1..]))
  }

  ghost function LedgerRun(l: Ledger, ops: seq<Op>): seq<Answer>
    decreases |ops|
  {
    if ops == [] then [] else [LedgerStep(l, ops[0]).1] + LedgerRun(LedgerStep(l, ops[0]).0, ops[1..])
  }

  ghost function WheelRun(w: Wheel, ops: seq<Op>): seq<Answer>
    decreases |ops|
  {
    if ops == [] then [] else [WheelStep(w, ops[0]).1] + WheelRun(WheelStep(w, ops[0]).0, ops[1..])
  }

  /** Over every run the wheel answers as the map of leases does, whatever the gaps between checks
      and even when the clock steps back. */
  lemma {:induction false} RunRefines(w: Wheel, l: Ledger, ops: seq<Op>)
    requires Refines(w, l) && AllowedRun(l, ops)
    ensures WheelRun(w, ops) == LedgerRun(l, ops)
    decreases |ops|
  {
    if ops != [] {
      StepRefines(w, l, ops[0]);
      RunRefines(WheelStep(w, ops[0]).0, LedgerStep(l, ops[0]).0, ops[1..]);
    }
  }

  lemma WheelIsLeaseMap(capacity: nat, ops: seq<Op>)
    requires AllowedRun(Ledger(map[], 0), ops)
    ensures WheelRun(NewWheel(capacity), ops) == LedgerRun(Ledger(map[], 0), ops)
  {
    RepresentsNew(capacity);
    RunRefines(NewWheel(capacity), Ledger(map[], 0), ops);
  }

  /** A zero-second lease is the case the wheel gets wrong: taken out at the time `t` of the last check to
      expire at `t`, it is collected by a later check if and only if that comes a whole turn later. */
  lemma ZeroTimeoutMissed(capacity: nat, t: nat, now: nat, item: Item)
    requires 0 < t < now && item.expireAt == t
    ensures var w := Insert(NewWheel(capacity).(lastChecked := t), item);
            && Represents(w, map[item.id := item])
            && (CollectsExactly(w, map[item.id := item], now, {item.id}) <==> t + Max(capacity, 60) <= now)
  {
    var w0 := NewWheel(capacity).(lastChecked := t);
    RepresentsNew(capacity);
    assert Represents(w0, map[]);
    RepresentsInsert(w0, map[], item);
    var leases := map[][item.id := item];
    CollectExactIff(Insert(w0, item), leases, now);
    assert Expired(leases, now) == {item.id};
    DivModUnique(-1, -1, |w0.slots| - 1, |w0.slots|);
  }

  lemma SweepEmpty(w: Wheel, expired: seq<Item>, s: nat, now: nat)
    requires s < |w.slots|
    ensures w.slots[s] == [] ==> SweepSlot(Sweep(w, expired), s, now) == Sweep(w, expired)
  {
    assert w.slots[s] == [] ==> w.slots[s := []] == w.slots;
    assert IdsOf([]) == {} && w.index - {} == w.index;
  }
}

/** The wheel as the source runs it: `slots`, `index_by_id` and `last_checked_sec` updated in place. */
module TimerWheels {
  import opened Basics
  import opened Wheels

  class TimerWheel {
    var slots: seq<seq<Item>>
    var index: map<Id, IndexEntry>
    var lastChecked: nat

    function State(): Wheel
      requires 0 < |slots|
      reads this
    {
      WheelState(slots, index, lastChecked)
    }

    constructor (capacity: nat)
      ensures 0 < |slots| && State() == NewWheel(capacity)
    {
      slots := seq(Max(capacity, 60), _ => []);
      index := map[];
      lastChecked := 0;
    }

    method Insert(item: Item)
      requires 0 < |slots|
      modifies this
      ensures 0 < |slots| && State() == Wheels.Insert(old(State()), item)
    {
      var s := item.expireAt % |slots|;
      index := index[item.id := IndexEntry(s, item.receipt)];
      slots := slots[s := slots[s] + [item]];
    }

    method RemoveIfValid(id: Id, receipt: Receipt) returns (ok: bool)
      requires 0 < |slots| && Shaped(State())
      modifies this
      ensures 0 < |slots| && ok == Valid(old(State()), id, receipt)
      ensures State() == Wheels.RemoveIfValid(old(State()), id, receipt)
    {
      if id in index && index[id].receipt == receipt {
        var s := index[id].slot;
        index := index - {id};
        var p := 0;
        while p < |slots[s]| && slots[s][p].id != id
          invariant p <= |slots[s]|
          invariant forall i :: 0 <= i < p ==> slots[s][i].id != id
        {
          p := p + 1;
        }
        assert p == Position(slots[s], id);
        slots := slots[s := SwapRemove(slots[s], p)];
        return true;
      }
      return false;
    }

    /** Drains one slot, moving what has expired to the end of `expired`. */
    method DrainSlot(s: nat, now: nat, expired: seq<Item>) returns (expired': seq<Item>)
      requires s < |slots|
      modifies this
      ensures 0 < |slots|
      ensures Sweep(State(), expired') == SweepSlot(Sweep(old(State()), expired), s, now)
    {
      var slot := slots[s];
      var remaining: seq<Item> := [];
      expired' := expired;
      for k := 0 to |slot|
        invariant slots == old(slots) && lastChecked == old(lastChecked)
        invariant remaining == Kept(slot[..k], now)
        invariant expired' == expired + Due(slot[..k], now)
        invariant index == old(index) - IdsOf(Due(slot[..k], now))
      {
        assert slot[..k + 1][..k] == slot[..k];
        if slot[k].expireAt <= now {
          assert IdsOf(Due(slot[..k + 1], now)) == IdsOf(Due(slot[..k], now)) + {slot[k].id};
          index := index - {slot[k].id};
          expired' := expired' + [slot[k]];
        } else {
          remaining := remaining + [slot[k]];
        }
      }
      assert slot[..|slot|] == slot;
      slots := slots[s := remaining];
    }

    method VisitSlot(s: nat, now: nat, expired: seq<Item>) returns (expired': seq<Item>)
      requires s < |slots|
      modifies this
      ensures |slots| == old(|slots|)
      ensures Sweep(State(), expired') == SweepSlot(Sweep(old(State()), expired), s, now)
    {
      expired' := expired;
      SweepEmpty(State(), expired, s, now);
      if slots[s] != [] {
        expired' := DrainSlot(s, now, expired);
      }
    }

    /** Full sweep, after a gap of at least one turn. */
    method SweepAll(now: nat) returns (expired: seq<Item>)
      requires 0 < |slots|
      modifies this
      ensures 0 < |slots|
      ensures Sweep(State(), expired) == SweepSlots(old(State()), seq(old(|slots|), i => i), now)
    {
      expired := [];
      ghost var order := seq(|slots|, i => i);
      for s := 0 to |slots|
        invariant |slots| == |order|
        invariant Sweep(State(), expired) == SweepSlots(old(State()), order[..s], now)
      {
        PrefixStep(order, s);
        expired := VisitSlot(s, now, expired);
      }
      assert order[..|order|] == order;
    }

    /** Targeted sweep: one slot per elapsed second. */
    method SweepElapsed(since: nat, elapsed: nat, now: nat) returns (expired: seq<Item>)
      requires 0 < |slots| && elapsed == SatSub(now, since) < |slots|
      modifies this
      ensures 0 < |slots|
      ensures Sweep(State(), expired) == SweepSlots(old(State()), Visits(since, now, old(|slots|)), now)
    {
      expired := [];
      var size := |slots|;
      ghost var order := Visits(since, now, size);
      for t := 1 to elapsed + 1
        invariant |slots| == size
        invariant Sweep(State(), expired) == SweepSlots(old(State()), order[..t - 1], now)
      {
        PrefixStep(order, t - 1);
        expired := VisitSlot((since + t) % size, now, expired);
      }
      assert order[..elapsed] == order;
    }

    method CollectExpired(now: nat) returns (expired: seq<Item>)
      requires 0 < |slots|
      modifies this
      ensures 0 < |slots|
      ensures Sweep(State(), expired) == Collect(old(State()), now)
    {
      if index == map[] {
        lastChecked := now;
        return [];
      }
      var since := if lastChecked == 0 then SatSub(now, 1) else lastChecked;
      var elapsed := Min(SatSub(now, since), |slots|);
      if |slots| <= elapsed {
        expired := SweepAll(now);
      } else {
        expired := SweepElapsed(since, elapsed, now);
      }
      lastChecked := now;
    }
  }
}
