/** The order of IDs, and sorted lists of them. */
module StringOrder {
  import opened Common

  predicate Below(a: string, b: string) {
    b != "" && (a == "" || (if a[0] == b[0] then Below(a[1..], b[1..]) else a[0] < b[0]))
  }

  predicate AtMost(a: string, b: string) {
    a == b || Below(a, b)
  }

  ghost predicate DiffersAt(a: string, b: string, k: int) {
    0 <= k <= |a| && k < |b| && a[..k] == b[..k] && (k < |a| ==> a[k] < b[k])
  }

  lemma SameHead(a: string, b: string, k: nat)
    requires k <= |a| && k <= |b| && a[..k] == b[..k]
    ensures k > 0 ==> a[0] == b[0]
  {
    if k > 0 {
      assert a[0] == a[..k][0] && b[0] == b[..k][0];
    }
  }

  /** One ID is below another if it is cut short where the other goes on, or smaller at the first difference. */
  lemma {:induction false} BelowIff(a: string, b: string)
    ensures Below(a, b) <==> exists k :: DiffersAt(a, b, k)
  {
    if b == "" {
    } else if a == "" || a[0] != b[0] {
      if Below(a, b) {
        assert DiffersAt(a, b, 0);
      } else if k :| DiffersAt(a, b, k) {
        SameHead(a, b, k);
      }
    } else {
      BelowIff(a[1..], b[1..]);
      if k :| DiffersAt(a[1..], b[1..], k) {
        assert a[..k + 1] == [a[0]] + a[1..][..k] && b[..k + 1] == [b[0]] + b[1..][..k];
        assert DiffersAt(a, b, k + 1);
      }
      if k :| DiffersAt(a, b, k) {
        assert a[1..][..k - 1] == a[..k][1..] && b[1..][..k - 1] == b[..k][1..];
        assert DiffersAt(a[1..], b[1..], k - 1);
      }
    }
  }

  lemma {:induction false} NotBelowItself(a: string)
    ensures !Below(a, a)
  {
    if a != "" {
      NotBelowItself(a[1..]);
    }
  }

  lemma {:induction false} BelowChains(a: string, b: string, c: string)
    requires Below(a, b) && Below(b, c)
    ensures Below(a, c)
  {
    if a != "" && a[0] == b[0] && b[0] == c[0] {
      BelowChains(a[1..], b[1..], c[1..]);
    }
  }

  lemma {:induction false} BelowTotal(a: string, b: string)
    ensures a == b || Below(a, b) || Below(b, a)
  {
    if a != "" && b != "" && a[0] == b[0] {
      BelowTotal(a[1..], b[1..]);
      if a[1..] == b[1..] {
        TakeDrop(a, 1);
        TakeDrop(b, 1);
        assert a[..1] == b[..1];
      }
    }
  }

  ghost predicate Increasing(s: seq<string>) {
    forall i, j :: 0 <= i < j < |s| ==> Below(s[i], s[j])
  }

  ghost predicate Lists(s: seq<string>, ids: set<string>) {
    Increasing(s) && forall id :: id in s <==> id in ids
  }

  ghost predicate IsLeast(least: string, ids: set<string>) {
    least in ids && forall id :: id in ids ==> AtMost(least, id)
  }

  lemma LeastExists(ids: set<string>)
    requires ids != {}
    ensures exists least :: IsLeast(least, ids)
  {
    hide Below;
    var x :| x in ids;
    if ids == {x} {
      assert IsLeast(x, ids);
    } else {
      LeastExists(ids - {x});
      var rest :| IsLeast(rest, ids - {x});
      BelowTotal(x, rest);
      var least := if Below(x, rest) then x else rest;
      forall id | id in ids ensures AtMost(least, id) {
        if id != x && least == x && rest != id {
          assert id in ids - {x} && AtMost(rest, id);
          BelowChains(x, rest, id);
        }
      }
      assert IsLeast(least, ids);
    }
  }

  /** A set of IDs in increasing order. */
  ghost function InOrder(ids: set<string>): (s: seq<string>)
    ensures Lists(s, ids)
  {
    if ids == {} then []
    else
      LeastExists(ids);
      var least :| IsLeast(least, ids);
      var rest := InOrder(ids - {least});
      ListsCons(least, rest, ids);
      [least] + rest
  }

  lemma ListsCons(least: string, rest: seq<string>, ids: set<string>)
    requires IsLeast(least, ids) && Lists(rest, ids - {least})
    ensures Lists([least] + rest, ids)
  {
    hide Below;
    forall j | 0 <= j < |rest| ensures Below(least, rest[j]) {
      assert rest[j] in ids - {least} && AtMost(least, rest[j]);
    }
  }

  lemma ListsEmpty(s: seq<string>, ids: set<string>)
    requires Lists(s, ids)
    ensures s == [] <==> ids == {}
  {
    HeadAndTail(s);
  }

  lemma {:induction false} ListsUnique(s: seq<string>, t: seq<string>, ids: set<string>)
    requires Lists(s, ids) && Lists(t, ids)
    ensures s == t
  {
    ListsEmpty(s, ids);
    ListsEmpty(t, ids);
    if s != [] {
      assert s[0] in t && t[0] in s;
      if s[0] != t[0] {
        var i :| 0 <= i < |t| && t[i] == s[0];
        var j :| 0 <= j < |s| && s[j] == t[0];
        BelowChains(s[0], t[0], s[0]);
        NotBelowItself(s[0]);
      }
      ListsTail(s, ids);
      ListsTail(t, ids);
      ListsUnique(s[1..], t[1..], ids - {s[0]});
      TakeDrop(s, 1);
      TakeDrop(t, 1);
    }
  }

  lemma ListsTail(s: seq<string>, ids: set<string>)
    requires s != [] && Lists(s, ids)
    ensures Lists(s[1..], ids - {s[0]})
  {
    NotBelowItself(s[0]);
    forall id ensures id in s[1..] <==> id in ids - {s[0]} {
      if id in ids && id != s[0] {
        var i :| 0 <= i < |s| && s[i] == id;
        assert s[1..][i - 1] == id;
      }
    }
  }

  method SortIds(ids: set<string>) returns (s: seq<string>)
    ensures s == InOrder(ids)
  {
    hide Below;
    s := [];
    var left := ids;
    while left != {}
      invariant left <= ids && Lists(s, ids - left)
      decreases left
    {
      var x :| x in left;
      var k := 0;
      while k < |s| && Below(s[k], x)
        invariant k <= |s| && forall i :: 0 <= i < k ==> Below(s[i], x)
      {
        k := k + 1;
      }
      Inserted(s, ids - left, k, x);
      left := left - {x};
      assert ids - left == ids - (left + {x}) + {x};
      s := s[..k] + [x] + s[k..];
    }
    assert ids - left == ids;
    ListsUnique(s, InOrder(ids), ids);
  }

  lemma Inserted(s: seq<string>, ids: set<string>, k: nat, x: string)
    requires Lists(s, ids) && k <= |s| && x !in ids
    requires (forall i :: 0 <= i < k ==> Below(s[i], x)) && (k < |s| ==> !Below(s[k], x))
    ensures Lists(s[..k] + [x] + s[k..], ids + {x})
  {
    hide Below;
    var t := s[..k] + [x] + s[k..];
    forall j | k <= j < |s| ensures Below(x, s[j]) {
      assert s[k] in ids;
      BelowTotal(x, s[k]);
      if k < j {
        BelowChains(x, s[k], s[j]);
      }
    }
    TakeDrop(s, k);
    forall i, j | 0 <= i < j < |t| ensures Below(t[i], t[j]) {
      var a := if i <= k then i else i - 1;
      var b := if j <= k then j else j - 1;
    }
  }
}
