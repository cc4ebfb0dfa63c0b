/** Shared vocabulary: failure-compatible results and 64-bit saturating arithmetic. */
module Common {
  datatype Option<+T> = None | Some(value: T)

  datatype Result<+T, +E> = Ok(value: T) | Err(error: E)

  const U64_MAX: nat := 0xFFFF_FFFF_FFFF_FFFF

  function SaturatingAdd(x: nat, y: nat): nat {
    if x + y <= U64_MAX then x + y else U64_MAX
  }

  function Max(x: real, y: real): real {
    if x < y then y else x
  }

  /** All parts in order, joined; recursion on the last part follows a growing run. */
  function Joined<T>(parts: seq<seq<T>>): seq<T> {
    if parts == [] then [] else Joined(parts[..|parts| - 1]) + parts[|parts| - 1]
  }

  lemma Assoc<T>(a: seq<T>, b: seq<T>, c: seq<T>)
    ensures (a + b) + c == a + (b + c)
  {
  }

  lemma NilUnit<T>(a: seq<T>)
    ensures [] + a == a && a + [] == a
  {
  }

  /** All but the last of a prepended sequence. */
  lemma ConsInit<T>(x: T, s: seq<T>)
    requires s != []
    ensures ([x] + s)[..|s|] == [x] + s[..|s| - 1] && ([x] + s)[|s|] == s[|s| - 1]
  {
  }

  lemma AppendInit<T>(a: seq<T>, s: seq<T>)
    requires s != []
    ensures (a + s)[..|a| + |s| - 1] == a + s[..|s| - 1] && (a + s)[|a| + |s| - 1] == s[|s| - 1]
  {
  }

  lemma SnocInit<T>(s: seq<T>, x: T)
    ensures (s + [x])[..|s|] == s
  {
  }

  lemma TakeDrop<T>(s: seq<T>, n: nat)
    requires n <= |s|
    ensures s[..n] + s[n..] == s
  {
  }

  lemma DropPrefix<T>(a: seq<T>, b: seq<T>)
    ensures (a + b)[..|a|] == a && (a + b)[|a|..] == b
  {
  }

  lemma HeadAndTail<T>(s: seq<T>)
    ensures s != [] ==> s[0] in s && s == [s[0]] + s[1..] && forall x :: x in s[1..] ==> x in s
  {
    if s != [] {
      assert s == [s[0]] + s[1..];
    }
  }

  lemma InitAndLast<T>(s: seq<T>)
    ensures s != [] ==> s[|s| - 1] in s && forall x :: x in s <==> x in s[..|s| - 1] || x == s[|s| - 1]
  {
    if s != [] {
      assert s == s[..|s| - 1] + [s[|s| - 1]];
    }
  }

  lemma DropDrop<T>(s: seq<T>, m: nat, n: nat)
    requires m + n <= |s|
    ensures s[m..][n..] == s[m + n..]
  {
  }

  lemma HeadsDiffer<T>(x: T, s: seq<T>, y: T, t: seq<T>)
    requires x != y
    ensures [x] + s != [y] + t
  {
    assert ([x] + s)[0] == x && ([y] + t)[0] == y;
  }

  lemma JoinedOne<T>(part: seq<T>)
    ensures Joined([part]) == part
  {
    assert [part][..0] == [];
  }

  lemma {:induction false} JoinedPrepend<T>(first: seq<T>, rest: seq<seq<T>>)
    ensures Joined([first] + rest) == first + Joined(rest)
  {
    if rest == [] {
      NilUnit([first]);
      JoinedOne(first);
    } else {
      ConsInit(first, rest);
      JoinedPrepend(first, rest[..|rest| - 1]);
      Assoc(first, Joined(rest[..|rest| - 1]), rest[|rest| - 1]);
    }
  }

  lemma {:induction false} JoinedAppend<T>(left: seq<seq<T>>, right: seq<seq<T>>)
    ensures Joined(left + right) == Joined(left) + Joined(right)
  {
    if right == [] {
      NilUnit(left);
    } else {
      AppendInit(left, right);
      JoinedAppend(left, right[..|right| - 1]);
      Assoc(Joined(left), Joined(right[..|right| - 1]), right[|right| - 1]);
    }
  }

  // ---- multiples and remainders ----

  lemma TimesGrows(a: int, b: int, n: nat)
    ensures a >= b ==> a * n >= b * n
  {
  }

  lemma DivModUnique(x: int, q: int, r: int, n: nat)
    requires n > 0 && x == q * n + r && 0 <= r < n
    ensures x / n == q && x % n == r
  {
    var d := x / n - q;
    assert x == (x / n) * n + x % n;
    assert d * n == r - x % n;
    TimesGrows(d, 1, n);
    TimesGrows(-1, d, n);
  }
}
