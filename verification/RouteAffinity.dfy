/**
 Session affinity: a bounded least-recently-used table from tenant and cache
 key to backend, whose entries expire.
 */
module RouteAffinity {
  import opened Common
  import opened Recency

  datatype Entry = Entry(backend: string, expires: int)

  type Table = seq<Item<Entry>>

  // ---- the table as a value ----

  function Answer(items: Table, key: string, now: int): (r: Option<string>)
    ensures r.Some? <==> Has(items, key) && now < Find(items, key).value.expires
  {
    match Find(items, key)
    case Some(e) => if now < e.expires then Some(e.backend) else None
    case None => None
  }

  /** A live entry becomes the most recent one, an expired one goes. */
  function AfterGet(items: Table, key: string, now: int): Table {
    match Find(items, key)
    case Some(e) => if now < e.expires then ToFront(items, Item(key, e)) else Without(items, key)
    case None => items
  }

  function AfterPut(max: nat, ttl: int, items: Table, key: string, backend: string, now: int): Table {
    Trim(max, ToFront(items, Item(key, Entry(backend, now + ttl))))
  }

  function AfterInvalidate(items: Table, backend: string): Table {
    Keep(items, (item: Item<Entry>) => item.value.backend != backend)
  }

  class Affinity {
    const max: nat
    const ttl: int
    var values: map<string, Item<Entry>>
    var order: Table

    /** The map and the list hold the same items, no key twice, at most `max`. */
    ghost predicate Valid()
      reads this
    {
      max > 0 && Distinct(order) && |order| <= max && Agree(values, order)
    }

    constructor (limit: int, ttl: int)
      ensures Valid() && order == []
      ensures max == (if limit <= 0 then 1024 else limit)
      ensures this.ttl == if ttl <= 0 then 300_000_000_000 else ttl
    {
      max := if limit <= 0 then 1024 else limit;
      this.ttl := if ttl <= 0 then 300_000_000_000 else ttl;
      values, order := map[], [];
    }

    method Get(tenant: string, key: string, now: int) returns (backend: Option<string>)
      requires Valid()
      modifies `values, `order
      ensures Valid()
      ensures backend == Answer(old(order), Composite(tenant, key), now)
      ensures order == AfterGet(old(order), Composite(tenant, key), now)
    {
      hide Agree;
      hide Distinct;
      var composite := tenant + NUL + key;
      EntriesFind(values, order, composite);
      if composite !in values {
        return None;
      }
      var entry := values[composite];
      if now >= entry.value.expires {
        RemovedMembers(values, order, composite);
        values := values - {composite};
        order := Without(order, composite);
        return None;
      }
      StoredMembers(values, order, entry);
      assert values[composite := entry] == values;
      order := [entry] + Without(order, composite);
      backend := Some(entry.value.backend);
    }

    method Put(tenant: string, key: string, backend: string, now: int)
      requires Valid()
      modifies `values, `order
      ensures Valid()
      ensures order == AfterPut(max, ttl, old(order), Composite(tenant, key), backend, now)
    {
      hide Agree;
      hide Distinct;
      hide Without;
      var composite := tenant + NUL + key;
      var item := Item(composite, Entry(backend, now + ttl));
      ghost var target := ToFront(order, item);
      StoredMembers(values, order, item);
      var resident := composite in values;
      values := values[composite := item];
      order := [item] + Without(order, composite);
      if resident {
        return;
      }
      while |order| > max
        invariant Agree(values, order) && Distinct(order)
        invariant |order| <= |target| && order == target[..|order|] && (|order| >= max || order == target)
        decreases |order|
      {
        TrimmedMembers(values, order);
        values := values - {order[|order| - 1].key};
        order := order[..|order| - 1];
      }
    }

    /** Delete every entry of the backend, in any order. */
    method InvalidateBackend(backend: string)
      requires Valid()
      modifies `values, `order
      ensures Valid() && order == AfterInvalidate(old(order), backend)
    {
      hide Without;
      hide Distinct;
      hide Has;
      hide Agree;
      ghost var before := order;
      ghost var drop := (item: Item<Entry>) => item.value.backend == backend;
      var keys := values.Keys;
      NoneMet(values, before, drop);
      while keys != {}
        invariant Distinct(order) && |order| <= |before| && Agree(values, order) && keys <= values.Keys
        invariant order == Keep(before, Unmet(drop, keys))
        decreases keys
      {
        var key :| key in keys;
        SameEntry(before, values, drop, keys, key);
        UnmetStep(before, drop, keys, key, values[key].value.backend == backend);
        if values[key].value.backend == backend {
          RemovedMembers(values, order, key);
          values := values - {key};
          order := Without(order, key);
        }
        keys := keys - {key};
      }
      KeepAgree(before, Unmet(drop, {}), (item: Item<Entry>) => item.value.backend != backend);
    }
  }

  lemma SameEntry(before: Table, values: map<string, Item<Entry>>, drop: Item<Entry> -> bool, keys: set<string>, key: string)
    requires key in keys && key in values && Agree(values, Keep(before, Unmet(drop, keys)))
    ensures forall item :: item in before && item.key == key ==> item == values[key]
  {
    KeepMembers(before, Unmet(drop, keys));
  }

  // ---- runs ----

  datatype Op =
    | Get(key: string, now: int)
    | Put(key: string, backend: string, now: int)
    | Invalidate(backend: string)

  function After(max: nat, ttl: int, ops: seq<Op>): Table {
    if ops == [] then []
    else
      var items := After(max, ttl, ops[..|ops| - 1]);
      match ops[|ops| - 1]
      case Get(key, now) => AfterGet(items, key, now)
      case Put(key, backend, now) => AfterPut(max, ttl, items, key, backend, now)
      case Invalidate(backend) => AfterInvalidate(items, backend)
  }

  /** What an unbounded table would hold: the last put, unless the entry expired at a lookup or was invalidated. */
  function Latest(ttl: int, ops: seq<Op>, key: string): Option<Entry> {
    if ops == [] then None
    else
      var before := Latest(ttl, ops[..|ops| - 1], key);
      match ops[|ops| - 1]
      case Get(k, now) => if k == key && before.Some? && now >= before.value.expires then None else before
      case Put(k, backend, now) => if k == key then Some(Entry(backend, now + ttl)) else before
      case Invalidate(backend) => if before.Some? && before.value.backend == backend then None else before
  }

  /** Whether a put had to push an entry out. */
  ghost predicate NeverFull(max: nat, ttl: int, ops: seq<Op>) {
    ops == [] ||
    (NeverFull(max, ttl, ops[..|ops| - 1]) &&
     match ops[|ops| - 1]
     case Put(key, backend, now) =>
       |ToFront(After(max, ttl, ops[..|ops| - 1]), Item(key, Entry(backend, now + ttl)))| <= max
     case _ => true)
  }

  lemma TrimFind(max: nat, items: Table, key: string)
    requires Distinct(items)
    ensures Distinct(Trim(max, items)) && (Has(Trim(max, items), key) ==> Find(Trim(max, items), key) == Find(items, key))
  {
    var kept := Trim(max, items);
    if Has(kept, key) {
      var i :| 0 <= i < |kept| && kept[i].key == key;
      FindMember(kept, kept[i]);
      assert items[i] == kept[i];
      FindMember(items, items[i]);
    }
  }

  /**
   In every run the table holds no key twice, at most `max` entries, and what it
   holds is the latest entry of its key; it holds all of them until a put has to
   push one out.
   */
  lemma {:induction false} TableIsLatest(max: nat, ttl: int, ops: seq<Op>, key: string)
    ensures var items := After(max, ttl, ops);
            && Distinct(items) && |items| <= max
            && (Has(items, key) ==> Find(items, key) == Latest(ttl, ops, key))
            && (NeverFull(max, ttl, ops) ==> Find(items, key) == Latest(ttl, ops, key))
  {
    hide Distinct;
    hide Has;
    hide Find;
    hide Without;
    hide AfterPut;
    hide AfterGet;
    hide AfterInvalidate;
    if ops == [] {
      EmptyTable(key);
    } else {
      var before := After(max, ttl, ops[..|ops| - 1]);
      TableIsLatest(max, ttl, ops[..|ops| - 1], key);
      match ops[|ops| - 1]
      case Get(k, now) => GetFind(before, k, now, key);
      case Put(k, backend, now) =>
        PutFind(max, ttl, before, k, backend, now, key);
      case Invalidate(backend) => InvalidateFind(before, backend, key);
    }
  }

  lemma InvalidateFind(items: Table, backend: string, key: string)
    requires Distinct(items)
    ensures var after := AfterInvalidate(items, backend);
            && Distinct(after) && |after| <= |items|
            && Find(after, key) ==
               if Find(items, key).Some? && Find(items, key).value.backend == backend then None else Find(items, key)
  {
    FindKept(items, (item: Item<Entry>) => item.value.backend != backend, key);
    KeepDistinct(items, (item: Item<Entry>) => item.value.backend != backend);
    KeepMembers(items, (item: Item<Entry>) => item.value.backend != backend);
  }

  lemma PutFind(max: nat, ttl: int, items: Table, k: string, backend: string, now: int, key: string)
    requires Distinct(items)
    ensures var after := AfterPut(max, ttl, items, k, backend, now);
            var latest := if k == key then Some(Entry(backend, now + ttl)) else Find(items, key);
            && Distinct(after) && |after| <= max && (Has(after, key) ==> Find(after, key) == latest)
            && (Has(after, key) && k != key ==> Has(items, key))
            && (|ToFront(items, Item(k, Entry(backend, now + ttl)))| <= max ==> Find(after, key) == latest)
  {
    var item := Item(k, Entry(backend, now + ttl));
    ToFrontDistinct(items, item);
    FindToFront(items, item, key);
    TrimFind(max, ToFront(items, item), key);
  }

  lemma EmptyTable(key: string)
    ensures Distinct<Entry>([]) && Find<Entry>([], key) == None
  {
  }

  lemma GetFind(items: Table, k: string, now: int, key: string)
    requires Distinct(items)
    ensures var after := AfterGet(items, k, now);
            && Distinct(after) && |after| <= |items|
            && Find(after, key) == (if k == key && Find(items, k).Some? && now >= Find(items, k).value.expires then None
                                    else Find(items, key))
  {
    match Find(items, k)
    case Some(e) =>
      if now < e.expires {
        ToFrontDistinct(items, Item(k, e));
        FindToFront(items, Item(k, e), key);
        WithoutLength(items, k);
      } else {
        WithoutDistinct(items, k);
        FindWithout(items, k, key);
      }
    case None =>
  }

  /**
   An answer is never stale: it is the backend last put for that tenant and key,
   not invalidated since, and not expired. As long as nothing was pushed out
   there is an answer exactly then.
   */
  lemma AnswerIsLatest(max: nat, ttl: int, ops: seq<Op>, key: string, now: int)
    ensures var answer := Answer(After(max, ttl, ops), key, now);
            var latest := Latest(ttl, ops, key);
            && (answer.Some? ==> latest.Some? && answer.value == latest.value.backend && now < latest.value.expires)
            && (NeverFull(max, ttl, ops) ==> (answer.Some? <==> latest.Some? && now < latest.value.expires))
  {
    TableIsLatest(max, ttl, ops, key);
  }

  /** After an invalidation no answer names the backend, until it is put again. */
  lemma {:induction false} InvalidatedIsGone(max: nat, ttl: int, ops: seq<Op>, more: seq<Op>, backend: string, key: string, now: int)
    requires forall op :: op in more ==> !(op.Put? && op.backend == backend)
    ensures Answer(After(max, ttl, ops + [Invalidate(backend)] + more), key, now) != Some(backend)
  {
    AnswerIsLatest(max, ttl, ops + [Invalidate(backend)] + more, key, now);
    NeverNamed(ttl, ops + [Invalidate(backend)], more, backend, key);
  }

  lemma {:induction false} NeverNamed(ttl: int, ops: seq<Op>, more: seq<Op>, backend: string, key: string)
    requires ops != [] && ops[|ops| - 1] == Invalidate(backend)
    requires forall op :: op in more ==> !(op.Put? && op.backend == backend)
    ensures var latest := Latest(ttl, ops + more, key); latest.Some? ==> latest.value.backend != backend
  {
    if more == [] {
      NilUnit(ops);
    } else {
      AppendInit(ops, more);
      assert forall op :: op in more[..|more| - 1] ==> op in more;
      assert more[|more| - 1] in more;
      NeverNamed(ttl, ops, more[..|more| - 1], backend, key);
    }
  }

  // ---- the order is that of use ----

  /** A put uses its key, and so does a lookup that is answered. */
  ghost predicate Uses(items: Table, op: Op, key: string) {
    match op
    case Get(k, now) => k == key && Answer(items, k, now).Some?
    case Put(k, _, _) => k == key
    case Invalidate(_) => false
  }

  /** The number of the operation that used the key last, from 1; 0 without one. */
  ghost function LastUse(max: nat, ttl: int, ops: seq<Op>, key: string): nat {
    if ops == [] then 0
    else if Uses(After(max, ttl, ops[..|ops| - 1]), ops[|ops| - 1], key) then |ops|
    else LastUse(max, ttl, ops[..|ops| - 1], key)
  }

  lemma {:induction false} LastUseInRange(max: nat, ttl: int, ops: seq<Op>, key: string)
    ensures LastUse(max, ttl, ops, key) <= |ops|
  {
    if ops != [] {
      LastUseInRange(max, ttl, ops[..|ops| - 1], key);
    }
  }

  /** What one operation does to the order of two keys that are both there afterwards. */
  lemma StepBefore(max: nat, ttl: int, items: Table, op: Op, x: string, y: string)
    requires Distinct(items) && x != y
    ensures var after := match op
                         case Get(key, now) => AfterGet(items, key, now)
                         case Put(key, backend, now) => AfterPut(max, ttl, items, key, backend, now)
                         case Invalidate(backend) => AfterInvalidate(items, backend);
            Before(after, x, y) ==> !Uses(items, op, y) && (Uses(items, op, x) || Before(items, x, y))
  {
    hide Before;
    hide Find;
    match op
    case Get(key, now) =>
      var _ := Find(items, key);
      match Find(items, key) {
        case Some(e) =>
          ToFrontBefore(items, Item(key, e), x, y);
          KeepBefore(items, (item: Item<Entry>) => item.key != key, x, y);
        case None =>
      }
    case Put(key, backend, now) =>
      var item := Item(key, Entry(backend, now + ttl));
      ToFrontBefore(items, item, x, y);
      TrimBefore(max, ToFront(items, item), x, y);
    case Invalidate(backend) =>
      KeepBefore(items, (item: Item<Entry>) => item.value.backend != backend, x, y);
  }

  /** In every run the entries stand in the order of their last use. */
  lemma {:induction false} OrderIsByUse(max: nat, ttl: int, ops: seq<Op>, x: string, y: string)
    requires x != y && Before(After(max, ttl, ops), x, y)
    ensures LastUse(max, ttl, ops, x) > LastUse(max, ttl, ops, y)
  {
    hide Before;
    hide Uses;
    hide AfterGet;
    hide AfterPut;
    hide AfterInvalidate;
    if ops == [] {
      NothingBefore<Entry>(x, y);
    } else {
      var init, op := ops[..|ops| - 1], ops[|ops| - 1];
      var items := After(max, ttl, init);
      TableIsLatest(max, ttl, init, x);
      StepBefore(max, ttl, items, op, x, y);
      LastUseInRange(max, ttl, init, y);
      if !Uses(items, op, x) {
        OrderIsByUse(max, ttl, init, x, y);
      }
    }
  }

  /** What a put pushes out was used before everything that stays, and it pushes out only if the table is full and the key new. */
  lemma EvictedIsLeastUsed(max: nat, ttl: int, ops: seq<Op>, op: Op, gone: string, stays: string)
    requires max > 0 && op.Put? && gone != op.key
    requires Has(After(max, ttl, ops), gone) && !Has(After(max, ttl, ops + [op]), gone)
    requires Has(After(max, ttl, ops + [op]), stays)
    ensures |After(max, ttl, ops)| == max && !Has(After(max, ttl, ops), op.key)
    ensures LastUse(max, ttl, ops + [op], stays) > LastUse(max, ttl, ops + [op], gone)
  {
    hide Without;
    hide Before;
    hide Has;
    var items := After(max, ttl, ops);
    assert (ops + [op])[..|ops|] == ops;
    TableIsLatest(max, ttl, ops, gone);
    var item := Item(op.key, Entry(op.backend, op.now + ttl));
    var front := ToFront(items, item);
    FrontHas(items, item, gone);
    FrontHas(items, item, stays);
    StoredLength(items, item);
    ToFrontDistinct(items, item);
    LastOut(max, front, gone, stays);
    ToFrontBefore(items, item, stays, gone);
    LastUseInRange(max, ttl, ops, gone);
    if stays != op.key {
      OrderIsByUse(max, ttl, ops, stays, gone);
    }
  }

  lemma FrontHas(items: Table, item: Item<Entry>, key: string)
    requires Distinct(items)
    ensures Has(ToFront(items, item), key) <==> key == item.key || Has(items, key)
  {
    FindToFront(items, item, key);
    var _ := Find(items, key);
    var _ := Find(ToFront(items, item), key);
  }

  lemma StoredLength(items: Table, item: Item<Entry>)
    requires Distinct(items)
    ensures |ToFront(items, item)| == if Has(items, item.key) then |items| else |items| + 1
  {
    WithoutLength(items, item.key);
    assert Has(items, item.key) ==> |items| > 0;
  }

  /** What is cut off stands behind what stays. */
  lemma LastOut(max: nat, front: Table, gone: string, stays: string)
    requires Distinct(front) && Has(front, gone) && !Has(Trim(max, front), gone) && Has(Trim(max, front), stays)
    ensures |front| > max && Has(front, stays) && gone != stays && Before(front, stays, gone)
  {
    var j :| 0 <= j < |front| && front[j].key == gone;
    var i :| 0 <= i < |Trim(max, front)| && Trim(max, front)[i].key == stays;
    assert forall k :: 0 <= k < |Trim(max, front)| ==> Trim(max, front)[k] == front[k];
    assert front[i].key == stays;
  }
}
