/**
 A least-recently-used list as a value: keyed items, most recent first, no key
 twice. The routing caches are proved against it.
 */
module Recency {
  import opened Common

  datatype Item<+T> = Item(key: string, value: T)

  ghost predicate Distinct<T>(items: seq<Item<T>>) {
    forall i, j :: 0 <= i < j < |items| ==> items[i].key != items[j].key
  }

  predicate Has<T>(items: seq<Item<T>>, key: string) {
    exists i :: 0 <= i < |items| && items[i].key == key
  }

  function Find<T>(items: seq<Item<T>>, key: string): (r: Option<T>)
    ensures r.Some? <==> Has(items, key)
    ensures r.Some? ==> exists i :: 0 <= i < |items| && items[i] == Item(key, r.value)
  {
    if items == [] then None
    else if items[0].key == key then Some(items[0].value)
    else
      assert forall i :: 0 <= i < |items| - 1 ==> items[1..][i] == items[i + 1];
      Find(items[1..], key)
  }

  function Keep<T>(items: seq<Item<T>>, keep: Item<T> -> bool): seq<Item<T>> {
    if items == [] then []
    else if keep(items[0]) then [items[0]] + Keep(items[1..], keep)
    else Keep(items[1..], keep)
  }

  function Without<T>(items: seq<Item<T>>, key: string): seq<Item<T>> {
    Keep(items, (item: Item<T>) => item.key != key)
  }

  /** The item becomes the most recent one; an older one of the same key goes. */
  function ToFront<T>(items: seq<Item<T>>, item: Item<T>): seq<Item<T>> {
    [item] + Without(items, item.key)
  }

  function Trim<T>(max: nat, items: seq<Item<T>>): seq<Item<T>> {
    if |items| > max then items[..max] else items
  }

  lemma {:induction false} KeepMembers<T>(items: seq<Item<T>>, keep: Item<T> -> bool)
    ensures |Keep(items, keep)| <= |items|
    ensures forall item :: item in Keep(items, keep) ==> item in items && keep(item)
    ensures forall item :: item in items && keep(item) ==> item in Keep(items, keep)
  {
    if items != [] {
      KeepMembers(items[1..], keep);
      TakeDrop(items, 1);
      assert forall item :: item in items <==> item == items[0] || item in items[1..];
    }
  }

  lemma {:induction false} KeepDistinct<T>(items: seq<Item<T>>, keep: Item<T> -> bool)
    requires Distinct(items)
    ensures Distinct(Keep(items, keep))
  {
    if items != [] {
      var tail := items[1..];
      var rest := Keep(tail, keep);
      KeepDistinct(tail, keep);
      KeepMembers(tail, keep);
      forall j | 0 <= j < |rest| ensures rest[j].key != items[0].key {
        assert rest[j] in Keep(tail, keep);
        var i :| 0 <= i < |tail| && tail[i] == rest[j];
        assert items[i + 1] == rest[j];
      }
    }
  }

  lemma {:induction false} FindMember<T>(items: seq<Item<T>>, item: Item<T>)
    requires Distinct(items) && item in items
    ensures Find(items, item.key) == Some(item.value)
  {
    if items[0] == item {
    } else {
      assert item in items[1..];
      var j :| 0 <= j < |items[1..]| && items[1..][j] == item;
      assert items[j + 1] == item;
      FindMember(items[1..], item);
    }
  }

  lemma FindKept<T>(items: seq<Item<T>>, keep: Item<T> -> bool, key: string)
    requires Distinct(items)
    ensures Find(Keep(items, keep), key) ==
            match Find(items, key)
            case Some(value) => if keep(Item(key, value)) then Some(value) else None
            case None => None
  {
    var kept := Keep(items, keep);
    KeepMembers(items, keep);
    KeepDistinct(items, keep);
    match Find(items, key)
    case Some(value) =>
      var item := Item(key, value);
      assert item in items;
      if keep(item) {
        FindMember(kept, item);
      } else if Has(kept, key) {
        var i :| 0 <= i < |kept| && kept[i].key == key;
        assert kept[i] in kept;
        FindMember(items, kept[i]);
      }
    case None => KeptHas(items, keep, key);
  }

  lemma KeptHas<T>(items: seq<Item<T>>, keep: Item<T> -> bool, key: string)
    ensures Has(Keep(items, keep), key) ==> Has(items, key)
  {
    var kept := Keep(items, keep);
    KeepMembers(items, keep);
    if Has(kept, key) {
      var i :| 0 <= i < |kept| && kept[i].key == key;
      assert kept[i] in kept;
      var j :| 0 <= j < |items| && items[j] == kept[i];
    }
  }

  lemma FindWithout<T>(items: seq<Item<T>>, removed: string, key: string)
    requires Distinct(items)
    ensures Find(Without(items, removed), key) == if key == removed then None else Find(items, key)
  {
    FindKept(items, (item: Item<T>) => item.key != removed, key);
  }

  lemma WithoutDistinct<T>(items: seq<Item<T>>, key: string)
    requires Distinct(items)
    ensures Distinct(Without(items, key)) && !Has(Without(items, key), key)
    ensures |Without(items, key)| <= |items|
  {
    KeepDistinct(items, (item: Item<T>) => item.key != key);
    KeepMembers(items, (item: Item<T>) => item.key != key);
    FindWithout(items, key, key);
  }

  lemma ToFrontDistinct<T>(items: seq<Item<T>>, item: Item<T>)
    requires Distinct(items)
    ensures Distinct(ToFront(items, item)) && |ToFront(items, item)| <= |items| + 1
  {
    WithoutDistinct(items, item.key);
    var rest := Without(items, item.key);
    forall j | 0 <= j < |rest| ensures rest[j].key != item.key {
    }
  }

  lemma FindToFront<T>(items: seq<Item<T>>, item: Item<T>, key: string)
    requires Distinct(items)
    ensures Find(ToFront(items, item), key) == if key == item.key then Some(item.value) else Find(items, key)
  {
    FindWithout(items, item.key, key);
    DropPrefix([item], Without(items, item.key));
  }

  /** Bringing a resident item to the front neither grows nor shrinks the list. */
  lemma {:induction false} WithoutLength<T>(items: seq<Item<T>>, key: string)
    requires Distinct(items)
    ensures |Without(items, key)| == if Has(items, key) then |items| - 1 else |items|
  {
    if items != [] {
      WithoutLength(items[1..], key);
      assert forall i :: 0 <= i < |items| - 1 ==> items[1..][i] == items[i + 1];
      if items[0].key == key {
        assert !Has(items[1..], key);
      } else {
        assert Has(items, key) ==> Has(items[1..], key);
      }
    }
  }

  /** A new key on a full list pushes out exactly the least recently used item. */
  lemma NewKeyEvictsOldest<T>(max: nat, items: seq<Item<T>>, item: Item<T>)
    requires Distinct(items) && 0 < max == |items| && !Has(items, item.key)
    ensures Trim(max, ToFront(items, item)) == [item] + items[..max - 1]
  {
    WithoutAbsent(items, item.key);
  }

  lemma {:induction false} WithoutAbsent<T>(items: seq<Item<T>>, key: string)
    requires !Has(items, key)
    ensures Without(items, key) == items
  {
    if items != [] {
      assert items[0].key != key;
      assert forall i :: 0 <= i < |items| - 1 ==> items[1..][i] == items[i + 1];
      assert !Has(items[1..], key);
      WithoutAbsent(items[1..], key);
      TakeDrop(items, 1);
    }
  }

  lemma {:induction false} KeepAgree<T>(items: seq<Item<T>>, p: Item<T> -> bool, q: Item<T> -> bool)
    requires forall item :: item in items ==> p(item) == q(item)
    ensures Keep(items, p) == Keep(items, q)
  {
    if items != [] {
      assert items[0] in items && forall item :: item in items[1..] ==> item in items;
      KeepAgree(items[1..], p, q);
    }
  }

  lemma {:induction false} KeepTwice<T>(items: seq<Item<T>>, p: Item<T> -> bool, q: Item<T> -> bool)
    ensures Keep(Keep(items, p), q) == Keep(items, (item: Item<T>) => p(item) && q(item))
  {
    if items != [] {
      KeepTwice(items[1..], p, q);
      if p(items[0]) {
        var rest := Keep(items[1..], p);
        assert ([items[0]] + rest)[1..] == rest;
      }
    }
  }

  lemma {:induction false} KeepAll<T>(items: seq<Item<T>>, p: Item<T> -> bool)
    requires forall item :: item in items ==> p(item)
    ensures Keep(items, p) == items
  {
    HeadAndTail(items);
    if items != [] {
      KeepAll(items[1..], p);
    }
  }

  // ---- who is ahead of whom ----

  ghost predicate Before<T>(items: seq<Item<T>>, x: string, y: string) {
    exists i, j :: 0 <= i < j < |items| && items[i].key == x && items[j].key == y
  }

  lemma BeforeCons<T>(head: Item<T>, rest: seq<Item<T>>, x: string, y: string)
    ensures Before([head] + rest, x, y) <==> (head.key == x && Has(rest, y)) || Before(rest, x, y)
  {
    var items := [head] + rest;
    if head.key == x && Has(rest, y) {
      var j :| 0 <= j < |rest| && rest[j].key == y;
      assert items[0].key == x && items[j + 1].key == y;
    }
    if Before(rest, x, y) {
      var i, j :| 0 <= i < j < |rest| && rest[i].key == x && rest[j].key == y;
      assert items[i + 1].key == x && items[j + 1].key == y;
    }
    if Before(items, x, y) {
      var i, j :| 0 <= i < j < |items| && items[i].key == x && items[j].key == y;
      assert rest[j - 1].key == y;
      assert i > 0 ==> rest[i - 1].key == x;
    }
  }

  lemma HasCons<T>(head: Item<T>, rest: seq<Item<T>>, key: string)
    ensures Has([head] + rest, key) <==> head.key == key || Has(rest, key)
  {
    var items := [head] + rest;
    assert items[0] == head && forall i :: 0 <= i < |rest| ==> items[i + 1] == rest[i];
    if Has(items, key) && head.key != key {
      var i :| 0 <= i < |items| && items[i].key == key;
      assert rest[i - 1].key == key;
    }
  }

  /** Dropping items leaves the others in their order. */
  lemma {:induction false} KeepBefore<T>(items: seq<Item<T>>, keep: Item<T> -> bool, x: string, y: string)
    requires Distinct(items) && x != y
    ensures Before(Keep(items, keep), x, y) <==>
            Before(items, x, y) && Has(Keep(items, keep), x) && Has(Keep(items, keep), y)
  {
    hide Before;
    if items == [] {
      NothingBefore<T>(x, y);
    } else {
      var head, rest := items[0], items[1..];
      TakeDrop(items, 1);
      assert items == [head] + rest;
      KeepBefore(rest, keep, x, y);
      BeforeCons(head, rest, x, y);
      HasCons(head, rest, y);
      KeptHas(rest, keep, y);
      KeptHas(rest, keep, x);
      if keep(head) {
        BeforeCons(head, Keep(rest, keep), x, y);
        HasCons(head, Keep(rest, keep), x);
        HasCons(head, Keep(rest, keep), y);
      }
      DistinctHead(head, rest);
      BeforeHas(rest, x, y);
    }
  }

  lemma NothingBefore<T>(x: string, y: string)
    ensures !Before<T>([], x, y)
  {
  }

  lemma DistinctHead<T>(head: Item<T>, rest: seq<Item<T>>)
    requires Distinct([head] + rest)
    ensures !Has(rest, head.key)
  {
    var items := [head] + rest;
    forall i | 0 <= i < |rest| ensures rest[i].key != head.key {
      assert items[i + 1] == rest[i] && items[0] == head;
    }
  }

  lemma BeforeHas<T>(items: seq<Item<T>>, x: string, y: string)
    ensures Before(items, x, y) ==> Has(items, x) && Has(items, y)
  {
  }

  /** What comes to the front is ahead of all others, and these stay in their order. */
  lemma ToFrontBefore<T>(items: seq<Item<T>>, item: Item<T>, x: string, y: string)
    requires Distinct(items) && x != y
    ensures Before(ToFront(items, item), x, y) <==>
            if x == item.key then Has(items, y) else y != item.key && Before(items, x, y)
  {
    hide Before;
    var keep := (other: Item<T>) => other.key != item.key;
    var rest := Without(items, item.key);
    assert rest == Keep(items, keep);
    BeforeCons(item, rest, x, y);
    KeepBefore(items, keep, x, y);
    FindWithout(items, item.key, x);
    FindWithout(items, item.key, y);
    var _ := Find(items, x);
    var _ := Find(items, y);
    var _ := Find(rest, x);
    var _ := Find(rest, y);
    BeforeHas(items, x, y);
  }

  lemma TrimBefore<T>(max: nat, items: seq<Item<T>>, x: string, y: string)
    ensures Before(Trim(max, items), x, y) ==> Before(items, x, y)
  {
  }

  /** Of two items of the list one is ahead. */
  lemma OneBefore<T>(items: seq<Item<T>>, x: string, y: string)
    requires Distinct(items) && x != y && Has(items, x) && Has(items, y)
    ensures Before(items, x, y) <==> !Before(items, y, x)
  {
    var i :| 0 <= i < |items| && items[i].key == x;
    var j :| 0 <= j < |items| && items[j].key == y;
    if i < j {
      assert Before(items, x, y);
    } else {
      assert Before(items, y, x);
    }
  }

  // ---- a list with a map beside it ----

  /** Map and list agree. */
  ghost predicate Agree<T>(entries: map<string, Item<T>>, order: seq<Item<T>>) {
    && (forall key :: key in entries <==> Has(order, key))
    && (forall item :: item in order ==> item.key in entries && entries[item.key] == item)
  }

  lemma EntriesFind<T>(entries: map<string, Item<T>>, order: seq<Item<T>>, key: string)
    requires Distinct(order) && Agree(entries, order)
    ensures key in entries <==> Find(order, key).Some?
    ensures key in entries ==> entries[key] == Item(key, Find(order, key).value)
  {
    if key in entries {
      var i :| 0 <= i < |order| && order[i].key == key;
      FindMember(order, order[i]);
    }
  }

  lemma RemovedMembers<T>(entries: map<string, Item<T>>, order: seq<Item<T>>, key: string)
    requires Distinct(order) && Agree(entries, order)
    ensures Agree(entries - {key}, Without(order, key)) && Distinct(Without(order, key))
    ensures |Without(order, key)| <= |order|
  {
    WithoutDistinct(order, key);
    KeepMembers(order, (item: Item<T>) => item.key != key);
    forall other ensures other in entries - {key} <==> Has(Without(order, key), other) {
      FindWithout(order, key, other);
    }
  }

  lemma AbsentMembers<T>(entries: map<string, Item<T>>, order: seq<Item<T>>, key: string)
    requires Agree(entries, order) && key !in entries
    ensures Without(order, key) == order && entries - {key} == entries
  {
    WithoutAbsent(order, key);
  }

  lemma StoredMembers<T>(entries: map<string, Item<T>>, order: seq<Item<T>>, item: Item<T>)
    requires Distinct(order) && Agree(entries, order)
    ensures Agree(entries[item.key := item], ToFront(order, item)) && Distinct(ToFront(order, item))
    ensures |ToFront(order, item)| == if item.key in entries then |order| else |order| + 1
  {
    hide Keep;
    hide Find;
    WithoutLength(order, item.key);
    ToFrontDistinct(order, item);
    KeepMembers(order, (other: Item<T>) => other.key != item.key);
    forall key ensures key in entries[item.key := item] <==> Has(ToFront(order, item), key) {
      FindToFront(order, item, key);
    }
  }

  lemma HasInit<T>(order: seq<Item<T>>, key: string)
    requires order != []
    ensures Has(order, key) <==> Has(order[..|order| - 1], key) || order[|order| - 1].key == key
  {
    var n := |order| - 1;
    if Has(order, key) && order[n].key != key {
      var i :| 0 <= i < |order| && order[i].key == key;
      assert order[..n][i].key == key;
    }
    if Has(order[..n], key) {
      var i :| 0 <= i < n && order[..n][i].key == key;
      assert order[i].key == key;
    }
  }

  lemma TrimmedMembers<T>(entries: map<string, Item<T>>, order: seq<Item<T>>)
    requires order != [] && Distinct(order) && Agree(entries, order)
    ensures Agree(entries - {order[|order| - 1].key}, order[..|order| - 1]) && Distinct(order[..|order| - 1])
  {
    hide Has;
    var n := |order| - 1;
    LastIsGone(order);
    InitAndLast(order);
    forall key ensures key in entries - {order[n].key} <==> Has(order[..n], key) {
      HasInit(order, key);
    }
  }

  lemma LastIsGone<T>(order: seq<Item<T>>)
    requires order != [] && Distinct(order)
    ensures !Has(order[..|order| - 1], order[|order| - 1].key)
    ensures forall item :: item in order[..|order| - 1] ==> item.key != order[|order| - 1].key
  {
    var n := |order| - 1;
    forall item | item in order[..n] ensures item.key != order[n].key {
      var i :| 0 <= i < n && order[..n][i] == item;
      assert order[i] == item;
    }
  }

  /** Half way through the removal of all items to drop: those whose key is not met yet are still there. */
  function Unmet<T>(drop: Item<T> -> bool, keys: set<string>): Item<T> -> bool {
    (item: Item<T>) => !(drop(item) && item.key !in keys)
  }

  lemma NoneMet<T>(entries: map<string, Item<T>>, items: seq<Item<T>>, drop: Item<T> -> bool)
    requires Agree(entries, items)
    ensures Keep(items, Unmet(drop, entries.Keys)) == items
  {
    KeepAll(items, Unmet(drop, entries.Keys));
  }

  lemma UnmetStep<T>(items: seq<Item<T>>, drop: Item<T> -> bool, keys: set<string>, key: string, dropped: bool)
    requires key in keys && forall item :: item in items && item.key == key ==> drop(item) == dropped
    ensures Keep(items, Unmet(drop, keys - {key})) ==
            if dropped then Without(Keep(items, Unmet(drop, keys)), key) else Keep(items, Unmet(drop, keys))
  {
    if dropped {
      var other := (item: Item<T>) => item.key != key;
      KeepTwice(items, Unmet(drop, keys), other);
      KeepAgree(items, (item: Item<T>) => Unmet(drop, keys)(item) && other(item), Unmet(drop, keys - {key}));
    } else {
      KeepAgree(items, Unmet(drop, keys), Unmet(drop, keys - {key}));
    }
  }

  // ---- keys made of two parts ----

  const NUL: string := ['\0']

  function Composite(backendId: string, rest: string): string {
    backendId + NUL + rest
  }

  predicate HasPrefix(key: string, prefix: string) {
    prefix <= key
  }

  lemma PrefixAtNul(id: string, key: string, cleared: string)
    requires NUL[0] !in cleared
    ensures var full := Composite(id, key);
            && full[..|id| + 1] == id + NUL
            && (HasPrefix(full, cleared + NUL) ==>
                 |cleared| <= |id| && full[|cleared|] == NUL[0] && full[..|cleared|] == cleared)
  {
    var full := Composite(id, key);
    assert full[|id|] == NUL[0];
    if HasPrefix(full, cleared + NUL) {
      assert forall i :: 0 <= i <= |cleared| ==> full[i] == (cleared + NUL)[i];
      assert forall i :: 0 <= i < |cleared| ==> full[i] == cleared[i] != NUL[0];
    }
  }

  lemma CompositePrefix(id: string, key: string, cleared: string)
    requires NUL[0] !in id && NUL[0] !in cleared
    ensures HasPrefix(Composite(id, key), cleared + NUL) <==> id == cleared
  {
    var full := Composite(id, key);
    PrefixAtNul(id, key, cleared);
    assert forall i :: 0 <= i < |id| ==> full[i] == id[i] != NUL[0];
    if HasPrefix(full, cleared + NUL) {
      assert |id| == |cleared|;
      assert id == full[..|id|];
    }
  }

  lemma CompositeInjective(id: string, key: string, id2: string, key2: string)
    requires NUL[0] !in id && NUL[0] !in id2
    ensures Composite(id, key) == Composite(id2, key2) <==> id == id2 && key == key2
  {
    if Composite(id, key) == Composite(id2, key2) {
      assert HasPrefix(Composite(id, key), id + NUL) by { assert Composite(id, key)[..|id| + 1] == id + NUL; }
      CompositePrefix(id2, key2, id);
      assert Composite(id, key)[|id| + 1..] == key && Composite(id2, key2)[|id2| + 1..] == key2;
    }
  }
}
