/**
 The backend registry: health marks, and candidate lists by weighted round
 robin over one shared cursor.
 */
module BackendRegistry {
  import opened Common
  import opened StringOrder

  datatype Backend = Backend(id: string, weight: nat, models: set<string>, attributes: map<string, string>)

  datatype Entry = Entry(backend: Backend, enabled: bool, healthy: bool)

  type Entries = map<string, Entry>

  const CURSOR_WRAP: nat := 0x1_0000_0000_0000_0000

  predicate Serves(backend: Backend, model: string) {
    backend.models == {} || model in backend.models
  }

  predicate Eligible(entry: Entry, model: string) {
    entry.enabled && entry.healthy && Serves(entry.backend, model)
  }

  /** Enabled, healthy, and no models listed or this one among them. */
  lemma EligibleIs(entry: Entry, model: string)
    ensures Eligible(entry, model) <==>
            entry.enabled && entry.healthy && (entry.backend.models != {} ==> model in entry.backend.models)
  {
  }

  /** Every backend is filed under its own ID with a positive weight. */
  ghost predicate Filed(entries: Entries) {
    forall id :: id in entries ==> entries[id].backend.id == id && entries[id].backend.weight > 0
  }

  // ---- candidates as a value ----

  function EligibleAmong(entries: Entries, model: string, ids: seq<string>): seq<Backend> {
    if ids == [] then []
    else
      var init := EligibleAmong(entries, model, ids[..|ids| - 1]);
      var id := ids[|ids| - 1];
      if id in entries && Eligible(entries[id], model) then init + [entries[id].backend] else init
  }

  function Copies(backend: Backend, n: nat): seq<Backend> {
    seq(n, _ => backend)
  }

  function Weighted(backends: seq<Backend>): seq<Backend> {
    if backends == [] then []
    else Weighted(backends[..|backends| - 1]) + Copies(backends[|backends| - 1], backends[|backends| - 1].weight)
  }

  function Rotated(ring: seq<Backend>, start: nat): seq<Backend>
    requires start <= |ring|
  {
    ring[start..] + ring[..start]
  }

  /** Every element once, at its first occurrence. */
  function Firsts(s: seq<Backend>): seq<Backend> {
    if s == [] then []
    else
      var init := Firsts(s[..|s| - 1]);
      if s[|s| - 1] in init then init else init + [s[|s| - 1]]
  }

  ghost function Ring(entries: Entries, model: string): seq<Backend> {
    Weighted(EligibleAmong(entries, model, InOrder(entries.Keys)))
  }

  function Slot(cursor: nat, size: nat): (r: nat)
    requires size > 0
    ensures r < size
  {
    cursor % size
  }

  ghost function CandidateList(entries: Entries, model: string, cursor: nat): seq<Backend> {
    var ring := Ring(entries, model);
    if ring == [] then [] else Firsts(Rotated(ring, Slot(cursor, |ring|)))
  }

  /** The 64-bit cursor; a call without candidates does not move it. */
  ghost function NextCursor(entries: Entries, model: string, cursor: nat, wrap: nat): nat {
    if Ring(entries, model) == [] then cursor else if cursor + 1 == wrap then 0 else cursor + 1
  }

  // ---- the distinct elements of the ring ----

  ghost predicate AllDiffer(s: seq<Backend>) {
    forall i, j :: 0 <= i < j < |s| ==> s[i] != s[j]
  }

  lemma {:induction false} FirstsAre(s: seq<Backend>)
    ensures AllDiffer(Firsts(s)) && forall x :: x in Firsts(s) <==> x in s
  {
    if s != [] {
      FirstsAre(s[..|s| - 1]);
      TakeDrop(s, |s| - 1);
    }
  }

  lemma {:induction false} FirstsGrow(s: seq<Backend>, k: nat)
    requires k <= |s|
    ensures Firsts(s[..k]) <= Firsts(s)
  {
    if k == |s| {
      assert s[..k] == s;
    } else {
      FirstsGrow(s[..|s| - 1], k);
      assert s[..|s| - 1][..k] == s[..k];
    }
  }

  lemma {:induction false} OnceEach(s: seq<Backend>, x: Backend)
    requires AllDiffer(s)
    ensures multiset(s)[x] == if x in s then 1 else 0
  {
    if s != [] {
      OnceEach(s[..|s| - 1], x);
      TakeDrop(s, |s| - 1);
    }
  }

  lemma SameLength(s: seq<Backend>, t: seq<Backend>)
    requires AllDiffer(s) && AllDiffer(t) && forall x :: x in s <==> x in t
    ensures |s| == |t| && multiset(s) == multiset(t)
  {
    hide AllDiffer;
    forall x: Backend ensures multiset(s)[x] == multiset(t)[x] {
      OnceEach(s, x);
      OnceEach(t, x);
    }
    assert multiset(s) == multiset(t);
    assert |s| == |multiset(s)| && |t| == |multiset(t)|;
  }

  lemma {:induction false} WeightedMembers(backends: seq<Backend>)
    requires forall b :: b in backends ==> b.weight > 0
    ensures forall x :: x in Weighted(backends) <==> x in backends
  {
    if backends != [] {
      var init, last := backends[..|backends| - 1], backends[|backends| - 1];
      assert forall b :: b in init ==> b in backends;
      WeightedMembers(init);
      assert last in backends;
      assert Copies(last, last.weight)[0] == last;
    }
  }

  lemma {:induction false} EligibleMembers(entries: Entries, model: string, ids: seq<string>)
    requires Filed(entries) && Increasing(ids)
    ensures forall b :: b in EligibleAmong(entries, model, ids) <==>
              b.id in ids && b.id in entries && entries[b.id].backend == b && Eligible(entries[b.id], model)
    ensures AllDiffer(EligibleAmong(entries, model, ids))
  {
    if ids != [] {
      var init, id := ids[..|ids| - 1], ids[|ids| - 1];
      EligibleMembers(entries, model, init);
      TakeDrop(ids, |ids| - 1);
      NotBelowItself(id);
      assert id !in init;
    }
  }

  lemma RotatedMembers(ring: seq<Backend>, start: nat)
    requires start <= |ring|
    ensures multiset(Rotated(ring, start)) == multiset(ring) && |Rotated(ring, start)| == |ring|
    ensures forall x :: x in Rotated(ring, start) <==> x in ring
  {
    TakeDrop(ring, start);
    assert multiset(ring[..start] + ring[start..]) == multiset(ring);
    assert forall x :: x in ring <==> x in multiset(ring);
    assert forall x :: x in Rotated(ring, start) <==> x in multiset(Rotated(ring, start));
  }

  /** Every call returns each eligible backend exactly once, and nothing else. */
  lemma CandidatesAreEligible(entries: Entries, model: string, cursor: nat)
    requires Filed(entries)
    ensures var backends := EligibleAmong(entries, model, InOrder(entries.Keys));
            multiset(CandidateList(entries, model, cursor)) == multiset(backends) && AllDiffer(backends)
    ensures forall b :: b in CandidateList(entries, model, cursor) <==>
              b.id in entries && entries[b.id].backend == b && Eligible(entries[b.id], model)
  {
    hide AllDiffer;
    hide Firsts;
    hide Weighted;
    hide EligibleAmong;
    hide Rotated;
    var ids := InOrder(entries.Keys);
    var backends := EligibleAmong(entries, model, ids);
    var ring := Ring(entries, model);
    EligibleMembers(entries, model, ids);
    WeightedMembers(backends);
    if ring != [] {
      var turned := Rotated(ring, Slot(cursor, |ring|));
      RotatedMembers(ring, Slot(cursor, |ring|));
      FirstsAre(turned);
      SameLength(Firsts(turned), backends);
    } else {
      NoCandidates(backends, ring);
    }
  }

  lemma NoCandidates(backends: seq<Backend>, ring: seq<Backend>)
    requires ring == [] && forall x :: x in ring <==> x in backends
    ensures backends == []
  {
    HeadAndTail(backends);
  }

  // ---- fairness ----

  lemma FirstIsRingAtCursor(entries: Entries, model: string, cursor: nat)
    requires Ring(entries, model) != []
    ensures var ring := Ring(entries, model);
            CandidateList(entries, model, cursor) != [] && CandidateList(entries, model, cursor)[0] == ring[Slot(cursor, |ring|)]
  {
    var ring := Ring(entries, model);
    var turned := Rotated(ring, Slot(cursor, |ring|));
    FirstsGrow(turned, 1);
    assert turned[..1] == [turned[0]];
    assert [turned[0]][..0] == [];
    assert Firsts([turned[0]]) == [turned[0]];
  }

  ghost function CursorAfter(entries: Entries, model: string, cursor: nat, wrap: nat, n: nat): nat {
    if n == 0 then cursor else NextCursor(entries, model, CursorAfter(entries, model, cursor, wrap, n - 1), wrap)
  }

  /** The backends that come first in `n` consecutive calls for one model. */
  ghost function FirstChoices(entries: Entries, model: string, cursor: nat, wrap: nat, n: nat): seq<Backend>
    requires Ring(entries, model) != []
  {
    if n == 0 then []
    else
      var at := CursorAfter(entries, model, cursor, wrap, n - 1);
      FirstIsRingAtCursor(entries, model, at);
      FirstChoices(entries, model, cursor, wrap, n - 1) + [CandidateList(entries, model, at)[0]]
  }

  lemma {:induction false} CursorIs(entries: Entries, model: string, cursor: nat, wrap: nat, n: nat)
    requires Ring(entries, model) != [] && cursor < wrap && n <= wrap
    ensures CursorAfter(entries, model, cursor, wrap, n) == if cursor + n < wrap then cursor + n else cursor + n - wrap
  {
    hide Ring;
    if n > 0 {
      CursorIs(entries, model, cursor, wrap, n - 1);
    }
  }

  lemma {:induction false} ChoicesTurn(entries: Entries, model: string, cursor: nat, wrap: nat, n: nat)
    requires Ring(entries, model) != [] && cursor < wrap && n <= |Ring(entries, model)|
    requires var size := |Ring(entries, model)|; cursor + size <= wrap || wrap % size == 0
    ensures var ring := Ring(entries, model);
            FirstChoices(entries, model, cursor, wrap, n) == Rotated(ring, Slot(cursor, |ring|))[..n]
  {
    hide Ring;
    hide CandidateList;
    hide Rotated;
    if n > 0 {
      var ring := Ring(entries, model);
      var at := CursorAfter(entries, model, cursor, wrap, n - 1);
      ChoicesTurn(entries, model, cursor, wrap, n - 1);
      FirstIsRingAtCursor(entries, model, at);
      WithinWrap(cursor, wrap, |ring|);
      CursorIs(entries, model, cursor, wrap, n - 1);
      Advances(cursor, wrap, |ring|, n - 1);
      TurnedAt(ring, Slot(cursor, |ring|), n - 1);
      RotatedMembers(ring, Slot(cursor, |ring|));
      var turned := Rotated(ring, Slot(cursor, |ring|));
      assert turned[..n] == turned[..n - 1] + [turned[n - 1]];
    }
  }

  lemma WithinWrap(cursor: nat, wrap: nat, size: nat)
    requires size > 0 && cursor < wrap && (cursor + size <= wrap || wrap % size == 0)
    ensures size <= wrap
  {
    if wrap % size == 0 {
      FullTurns(wrap, size);
    }
  }

  /** `i` places on from `s` in a ring of size `n`. */
  function TurnIndex(s: nat, i: nat, n: nat): (r: nat)
    requires s < n && i < n
    ensures r < n && r == (s + i) % n
  {
    if s + i < n then
      SmallMod(s + i, n);
      s + i
    else
      ModDown(s + i, n);
      s + i - n
  }

  lemma TurnedAt(ring: seq<Backend>, start: nat, i: nat)
    requires start < |ring| && i < |ring|
    ensures Rotated(ring, start)[i] == ring[TurnIndex(start, i, |ring|)]
  {
    var n := |ring|;
    if start + i < n {
      assert Rotated(ring, start)[i] == ring[start..][i];
    } else {
      assert Rotated(ring, start)[i] == ring[..start][i - (n - start)];
    }
  }

  lemma ModDown(x: nat, n: nat)
    requires 0 < n <= x < 2 * n
    ensures x % n == x - n
  {
  }

  lemma ModAdd(a: int, i: int, n: nat)
    requires n > 0
    ensures (a + i) % n == (a % n + i) % n
  {
    SameMod(a + i, a % n + i, a / n, n);
  }

  lemma SameMod(x: int, y: int, k: int, n: nat)
    requires n > 0 && x == y + k * n
    ensures x % n == y % n
  {
    var q, r := y / n, y % n;
    assert y == q * n + r;
    assert x == (q + k) * n + r;
    DivModUnique(x, q + k, r, n);
  }

  /** Positions advance by one per call, also over the cursor's wrap when the ring's size divides it. */
  lemma Advances(cursor: nat, wrap: nat, size: nat, i: nat)
    requires size > 0 && cursor < wrap && i < size
    requires cursor + size <= wrap || wrap % size == 0
    ensures Slot(if cursor + i < wrap then cursor + i else cursor + i - wrap, size) ==
            TurnIndex(Slot(cursor, size), i, size)
  {
    ModAdd(cursor, i, size);
    if cursor + i >= wrap {
      FullTurns(wrap, size);
      SameMod(cursor + i, cursor + i - wrap, wrap / size, size);
    }
  }

  lemma SmallMod(x: nat, n: nat)
    requires x < n
    ensures x % n == x
  {
  }

  lemma FullTurns(wrap: nat, size: nat)
    requires size > 0 && wrap > 0 && wrap % size == 0
    ensures wrap == wrap / size * size && size <= wrap
  {
    if wrap < size {
      SmallMod(wrap, size);
    }
  }

  /**
   Fairness: over as many consecutive calls for one model as the weights add up
   to, each eligible backend comes first exactly as often as its weight says,
   unless the cursor wraps in between and the sum does not divide the wrap.
   */
  lemma WeightedFairness(entries: Entries, model: string, cursor: nat, wrap: nat, b: Backend)
    requires Filed(entries) && Ring(entries, model) != [] && cursor < wrap
    requires var n := |Ring(entries, model)|; cursor + n <= wrap || wrap % n == 0
    ensures multiset(FirstChoices(entries, model, cursor, wrap, |Ring(entries, model)|))[b] == Due(entries, model, b)
  {
    hide EligibleAmong;
    hide Weighted;
    hide FirstChoices;
    hide Rotated;
    hide AllDiffer;
    var ids := InOrder(entries.Keys);
    var ring := Ring(entries, model);
    var n := |ring|;
    ChoicesTurn(entries, model, cursor, wrap, n);
    RotatedMembers(ring, Slot(cursor, n));
    var turned := Rotated(ring, Slot(cursor, n));
    assert turned[..n] == turned;
    EligibleMembers(entries, model, ids);
    WeightedCount(EligibleAmong(entries, model, ids), b);
  }

  lemma {:induction false} ChoiceAt(entries: Entries, model: string, cursor: nat, wrap: nat, n: nat, i: nat)
    requires Ring(entries, model) != [] && i < n
    ensures var choices := FirstChoices(entries, model, cursor, wrap, n);
            var ring := Ring(entries, model);
            |choices| == n && choices[i] == ring[Slot(CursorAfter(entries, model, cursor, wrap, i), |ring|)]
  {
    hide Ring;
    hide CandidateList;
    hide CursorAfter;
    FirstIsRingAtCursor(entries, model, CursorAfter(entries, model, cursor, wrap, n - 1));
    if i < n - 1 {
      ChoiceAt(entries, model, cursor, wrap, n - 1, i);
    } else if i > 0 {
      ChoiceAt(entries, model, cursor, wrap, n - 1, i - 1);
    }
  }

  /** How often a backend ought to come first in a turn. */
  ghost function Due(entries: Entries, model: string, b: Backend): nat {
    if b.id in entries && entries[b.id].backend == b && Eligible(entries[b.id], model) then b.weight else 0
  }

  /** A turn is as many calls as the weights add up to. */
  ghost predicate FairTurn(entries: Entries, model: string, cursor: nat, wrap: nat)
    requires Ring(entries, model) != []
  {
    forall b: Backend ::
      multiset(FirstChoices(entries, model, cursor, wrap, |Ring(entries, model)|))[b] == Due(entries, model, b)
  }

  lemma RingCount(entries: Entries, model: string, b: Backend)
    requires Filed(entries)
    ensures multiset(Ring(entries, model))[b] == Due(entries, model, b)
  {
    hide AllDiffer;
    hide EligibleAmong;
    hide Weighted;
    EligibleMembers(entries, model, InOrder(entries.Keys));
    WeightedCount(EligibleAmong(entries, model, InOrder(entries.Keys)), b);
  }

  lemma FairTurnIsRing(entries: Entries, model: string, cursor: nat, wrap: nat)
    requires Filed(entries) && Ring(entries, model) != []
    ensures FairTurn(entries, model, cursor, wrap) <==>
            multiset(FirstChoices(entries, model, cursor, wrap, |Ring(entries, model)|)) == multiset(Ring(entries, model))
  {
    hide Ring;
    hide FirstChoices;
    hide Due;
    var ring := Ring(entries, model);
    var choices := FirstChoices(entries, model, cursor, wrap, |ring|);
    forall b: Backend ensures multiset(ring)[b] == Due(entries, model, b) {
      RingCount(entries, model, b);
    }
    if FairTurn(entries, model, cursor, wrap) {
      assert forall b: Backend :: multiset(choices)[b] == multiset(ring)[b];
    }
  }

  /** A turn over the wrap: the places up to the wrap, then the ring from its start. */
  lemma ChoicesOverWrap(entries: Entries, model: string, cursor: nat, wrap: nat)
    requires Ring(entries, model) != [] && cursor < wrap && |Ring(entries, model)| <= wrap
    requires cursor + |Ring(entries, model)| > wrap
    ensures var ring := Ring(entries, model);
            var n, k := |ring|, wrap - cursor;
            0 < k < n && FirstChoices(entries, model, cursor, wrap, n) == Rotated(ring, Slot(cursor, n))[..k] + ring[..n - k]
  {
    hide Ring;
    hide FirstChoices;
    hide CursorAfter;
    hide Slot;
    hide TurnIndex;
    hide Rotated;
    var ring := Ring(entries, model);
    var n, k := |ring|, wrap - cursor;
    var s := Slot(cursor, n);
    var choices := FirstChoices(entries, model, cursor, wrap, n);
    ChoiceAt(entries, model, cursor, wrap, n, 0);
    RotatedMembers(ring, s);
    forall i | 0 <= i < n ensures choices[i] == if i < k then Rotated(ring, s)[i] else ring[i - k] {
      ChoiceAt(entries, model, cursor, wrap, n, i);
      CursorIs(entries, model, cursor, wrap, i);
      SlotSteps(cursor, i, n);
      TurnedAt(ring, s, i);
      if i >= k {
        SlotIsSmall(i - k, n);
      }
    }
  }

  /** The exact condition for one turn: what the wrap puts in place of the end of the ring is that end in another order. */
  lemma FairTurnIff(entries: Entries, model: string, cursor: nat, wrap: nat)
    requires Filed(entries) && Ring(entries, model) != [] && cursor < wrap && |Ring(entries, model)| <= wrap
    ensures var ring := Ring(entries, model);
            FairTurn(entries, model, cursor, wrap) <==>
            cursor + |ring| <= wrap ||
            multiset(Rotated(ring, Slot(cursor, |ring|))[..wrap - cursor]) == multiset(ring[|ring| - (wrap - cursor)..])
  {
    hide Ring;
    hide FirstChoices;
    hide Rotated;
    var ring := Ring(entries, model);
    var n := |ring|;
    FairTurnIsRing(entries, model, cursor, wrap);
    RotatedMembers(ring, Slot(cursor, n));
    if cursor + n <= wrap {
      ChoicesTurn(entries, model, cursor, wrap, n);
      assert Rotated(ring, Slot(cursor, n))[..n] == Rotated(ring, Slot(cursor, n));
    } else {
      var k := wrap - cursor;
      ChoicesOverWrap(entries, model, cursor, wrap);
      TakeDrop(ring, n - k);
      SameRest(multiset(Rotated(ring, Slot(cursor, n))[..k]), multiset(ring[n - k..]), multiset(ring[..n - k]));
      assert multiset(ring) == multiset(ring[..n - k] + ring[n - k..]);
    }
  }

  lemma SameRest(a: multiset<Backend>, b: multiset<Backend>, c: multiset<Backend>)
    ensures a + c == c + b <==> a == b
  {
    if a + c == c + b {
      forall x: Backend ensures a[x] == b[x] {
        assert (a + c)[x] == (c + b)[x];
      }
    }
  }

  /** The last backend of the ring: its copies are the end of the ring, and nowhere else. */
  lemma LastBlock(entries: Entries, model: string) returns (p: nat)
    requires Filed(entries) && Ring(entries, model) != []
    ensures var ring := Ring(entries, model);
            && p < |ring|
            && (forall i :: 0 <= i < |ring| ==> (ring[i] == ring[|ring| - 1] <==> p <= i))
            && (p == 0 <==> |EligibleAmong(entries, model, InOrder(entries.Keys))| == 1)
  {
    hide EligibleAmong;
    hide AllDiffer;
    hide Weighted;
    var backends := EligibleAmong(entries, model, InOrder(entries.Keys));
    EligibleMembers(entries, model, InOrder(entries.Keys));
    BlockSplit(backends);
    p := |Weighted(backends[..|backends| - 1])|;
  }

  lemma BlockSplit(backends: seq<Backend>)
    requires AllDiffer(backends) && Weighted(backends) != [] && forall b :: b in backends ==> b.weight > 0
    ensures backends != []
    ensures var ring, p := Weighted(backends), |Weighted(backends[..|backends| - 1])|;
            && p < |ring| && (forall i :: 0 <= i < |ring| ==> (ring[i] == ring[|ring| - 1] <==> p <= i))
            && (p == 0 <==> |backends| == 1)
  {
    var n := |backends| - 1;
    var init, last := backends[..n], backends[n];
    InitAndLast(backends);
    WeightedMembers(init);
    var head := Weighted(init);
    forall i | 0 <= i < |head| ensures head[i] != last {
      assert head[i] in init;
      var j :| 0 <= j < n && init[j] == head[i];
      assert backends[j] == head[i];
    }
    if n > 0 {
      assert init[0] in init && init[0] in head;
    }
  }

  /** Counting one backend in a list that holds it exactly from place `p` on. */
  lemma {:induction false} CountFrom(s: seq<Backend>, b: Backend, p: nat)
    requires forall i :: 0 <= i < |s| ==> (s[i] == b <==> p <= i)
    ensures multiset(s)[b] == if p <= |s| then |s| - p else 0
  {
    if s != [] {
      var n := |s| - 1;
      CountFrom(s[..n], b, p);
      assert s == s[..n] + [s[n]];
    }
  }

  /** A turn that wraps where the ring does not close and more than one backend takes part: the last one comes short. */
  lemma SomeTurnIsUnfair(entries: Entries, model: string, wrap: nat) returns (cursor: nat)
    requires Filed(entries) && Ring(entries, model) != [] && |Ring(entries, model)| <= wrap
    requires wrap % |Ring(entries, model)| != 0
    requires |EligibleAmong(entries, model, InOrder(entries.Keys))| != 1
    ensures cursor < wrap && !FairTurn(entries, model, cursor, wrap)
  {
    hide Ring;
    hide EligibleAmong;
    hide FirstChoices;
    hide Rotated;
    hide Slot;
    hide FairTurn;
    hide TurnIndex;
    hide Filed;
    hide InOrder;
    var ring := Ring(entries, model);
    var n := |ring|;
    var p := LastBlock(entries, model);
    var r := Slot(wrap, n);
    SlotIsRemainder(wrap, n);
    var k := if r <= p then 1 else r - p + 1;
    cursor := wrap - k;
    var s := Slot(cursor, n);
    SlotSteps(cursor, k, n);
    ChoicesOverWrap(entries, model, cursor, wrap);
    RotatedMembers(ring, s);
    ShortOfLast(ring, p, r, s, k);
    FairTurnIsRing(entries, model, cursor, wrap);
  }

  /** `s` is where a window of `k` places starts that ends before place `r`. */
  lemma ShortOfLast(ring: seq<Backend>, p: nat, r: nat, s: nat, k: nat)
    requires 0 < p < |ring| && 0 < r < |ring| && s < |ring| && k == (if r <= p then 1 else r - p + 1)
    requires TurnIndex(s, k, |ring|) == r && |Rotated(ring, s)| == |ring|
    requires forall i :: 0 <= i < |ring| ==> (ring[i] == ring[|ring| - 1] <==> p <= i)
    ensures multiset(Rotated(ring, s)[..k] + ring[..|ring| - k]) != multiset(ring)
  {
    hide Rotated;
    var n := |ring|;
    var b := ring[n - 1];
    var window, head := Rotated(ring, s)[..k], ring[..n - k];
    assert s == if k <= r then r - k else r - k + n;
    forall i | 0 <= i < k ensures window[i] == b <==> i > 0 {
      TurnedAt(ring, s, i);
    }
    CountFrom(window, b, 1);
    CountFrom(head, b, p);
    CountFrom(ring, b, p);
    assert multiset(window + head)[b] == multiset(window)[b] + multiset(head)[b];
  }

  /** With weights of one that condition is the same for every turn over the wrap. */
  lemma DistinctFairTurnIff(entries: Entries, model: string, cursor: nat, wrap: nat)
    requires Filed(entries) && Ring(entries, model) != [] && cursor < wrap && |Ring(entries, model)| <= wrap
    requires AllDiffer(Ring(entries, model))
    ensures var n := |Ring(entries, model)|;
            FairTurn(entries, model, cursor, wrap) <==> cursor + n <= wrap || wrap % n == 0
  {
    hide Ring;
    hide FairTurn;
    hide Rotated;
    hide Slot;
    var ring := Ring(entries, model);
    var n := |ring|;
    if wrap % n == 0 {
      ClosedTurnIsFair(entries, model, cursor, wrap);
    } else {
      FairTurnIff(entries, model, cursor, wrap);
      if cursor + n > wrap {
        var k := wrap - cursor;
        RotatedMembers(ring, Slot(cursor, n));
        SlotSteps(cursor, k, n);
        SlotIsRemainder(wrap, n);
        OtherWindow(ring, Slot(cursor, n), k);
      }
    }
  }

  lemma OtherWindow(ring: seq<Backend>, s: nat, k: nat)
    requires AllDiffer(ring) && s < |ring| && 0 < k < |ring| && TurnIndex(s, k, |ring|) != 0
    requires |Rotated(ring, s)| == |ring|
    ensures multiset(Rotated(ring, s)[..k]) != multiset(ring[|ring| - k..])
  {
    hide Rotated;
    var n := |ring|;
    var window, tail := Rotated(ring, s)[..k], ring[n - k..];
    forall i | 0 <= i < k ensures window[i] == ring[TurnIndex(s, i, n)] {
      TurnedAt(ring, s, i);
    }
    if s + k < n {
      assert tail[k - 1] == ring[n - 1] && ring[n - 1] in multiset(tail);
      assert ring[n - 1] !in window;
    } else {
      assert window[n - s] == ring[0] && ring[0] in multiset(window);
      assert ring[0] !in tail;
    }
  }

  lemma SlotIsRemainder(x: nat, n: nat)
    requires n > 0
    ensures Slot(x, n) == x % n
  {
  }

  lemma {:induction false} OnlyOne(s: seq<Backend>, t: seq<Backend>, b: Backend)
    requires |s| == |t| && (forall x :: x in s ==> x == b) && (forall x :: x in t ==> x == b)
    ensures multiset(s) == multiset(t)
  {
    assert forall i :: 0 <= i < |s| ==> s[i] in s && t[i] in t;
    assert s == t;
  }

  /**
   The exact condition for all turns, whatever the weights: from every cursor a
   turn is fair if and only if the wrap is a multiple of the sum of the weights
   or there is only one backend to choose.
   */
  lemma FairFromEveryCursorIff(entries: Entries, model: string, wrap: nat)
    requires Filed(entries) && Ring(entries, model) != [] && |Ring(entries, model)| <= wrap
    ensures (forall cursor: nat :: cursor < wrap ==> FairTurn(entries, model, cursor, wrap)) <==>
            wrap % |Ring(entries, model)| == 0 || |EligibleAmong(entries, model, InOrder(entries.Keys))| == 1
  {
    hide Ring;
    hide EligibleAmong;
    hide FirstChoices;
    hide FairTurn;
    var ring := Ring(entries, model);
    if wrap % |ring| == 0 {
      forall cursor: nat | cursor < wrap ensures FairTurn(entries, model, cursor, wrap) {
        ClosedTurnIsFair(entries, model, cursor, wrap);
      }
    } else if |EligibleAmong(entries, model, InOrder(entries.Keys))| == 1 {
      var p := LastBlock(entries, model);
      forall cursor: nat | cursor < wrap ensures FairTurn(entries, model, cursor, wrap) {
        LoneTurnIsFair(entries, model, cursor, wrap);
      }
    } else {
      var cursor := SomeTurnIsUnfair(entries, model, wrap);
    }
  }

  lemma ClosedTurnIsFair(entries: Entries, model: string, cursor: nat, wrap: nat)
    requires Filed(entries) && Ring(entries, model) != [] && cursor < wrap && wrap % |Ring(entries, model)| == 0
    ensures FairTurn(entries, model, cursor, wrap)
  {
    hide Ring;
    hide FirstChoices;
    forall b: Backend
      ensures multiset(FirstChoices(entries, model, cursor, wrap, |Ring(entries, model)|))[b] == Due(entries, model, b)
    {
      WeightedFairness(entries, model, cursor, wrap, b);
    }
  }

  lemma LoneTurnIsFair(entries: Entries, model: string, cursor: nat, wrap: nat)
    requires Filed(entries) && Ring(entries, model) != [] && cursor < wrap && |Ring(entries, model)| <= wrap
    requires |EligibleAmong(entries, model, InOrder(entries.Keys))| == 1
    ensures FairTurn(entries, model, cursor, wrap)
  {
    hide Ring;
    hide EligibleAmong;
    hide Slot;
    hide Rotated;
    var ring := Ring(entries, model);
    var n := |ring|;
    var p := LastBlock(entries, model);
    FairTurnIff(entries, model, cursor, wrap);
    if cursor + n > wrap {
      var k := wrap - cursor;
      RotatedMembers(ring, Slot(cursor, n));
      var turned := Rotated(ring, Slot(cursor, n));
      assert forall x :: x in turned[..k] ==> x in turned;
      assert forall x :: x in ring[n - k..] ==> x in ring;
      OnlyOne(turned[..k], ring[n - k..], ring[n - 1]);
    }
  }

  lemma SlotSteps(cursor: nat, i: nat, n: nat)
    requires i < n
    ensures Slot(cursor + i, n) == TurnIndex(Slot(cursor, n), i, n)
  {
    ModAdd(cursor, i, n);
  }

  lemma SlotIsSmall(x: nat, n: nat)
    requires x < n
    ensures Slot(x, n) == x
  {
    SmallMod(x, n);
  }

  lemma {:induction false} WeightedCount(backends: seq<Backend>, b: Backend)
    requires AllDiffer(backends)
    ensures multiset(Weighted(backends))[b] == if b in backends then b.weight else 0
  {
    if backends != [] {
      var init, last := backends[..|backends| - 1], backends[|backends| - 1];
      WeightedCount(init, b);
      CopiesCount(last, last.weight, b);
      TakeDrop(backends, |backends| - 1);
      assert last !in init;
    }
  }

  lemma {:induction false} CopiesCount(backend: Backend, n: nat, b: Backend)
    ensures multiset(Copies(backend, n))[b] == if b == backend then n else 0
  {
    if n > 0 {
      CopiesCount(backend, n - 1, b);
      assert Copies(backend, n) == Copies(backend, n - 1) + [backend];
    }
  }

  // ---- the registry ----

  /** A configured backend; `address` says whether its URL is an absolute HTTP URL. */
  datatype Config = Config(
    id: string, address: bool, weight: int, models: seq<string>, attributes: map<string, string>, enabled: Option<bool>)

  datatype ConfigError = NoBackends | MissingId | BadUrl | NegativeWeight | EmptyModel | EmptyAttribute | DuplicateId

  function Normalize(config: Config): Result<Backend, ConfigError> {
    if config.id == "" then Err(MissingId)
    else if !config.address then Err(BadUrl)
    else if config.weight < 0 then Err(NegativeWeight)
    else if "" in config.models then Err(EmptyModel)
    else if "" in config.attributes.Keys + config.attributes.Values then Err(EmptyAttribute)
    else Ok(Backend(config.id, if config.weight == 0 then 1 else config.weight, (set m | m in config.models), config.attributes))
  }

  /** What makes a configuration bad, the first of it being reported, and what a good one comes to. */
  lemma NormalizeIs(config: Config)
    ensures var namesMissing := exists m :: m in config.models && m == "";
            var attributesMissing := exists key :: key in config.attributes && (key == "" || config.attributes[key] == "");
            match Normalize(config)
            case Err(error) =>
              if config.id == "" then error == MissingId
              else if !config.address then error == BadUrl
              else if config.weight < 0 then error == NegativeWeight
              else if namesMissing then error == EmptyModel
              else attributesMissing && error == EmptyAttribute
            case Ok(b) =>
              && config.id != "" && config.address && config.weight >= 0 && !namesMissing && !attributesMissing
              && b.id == config.id && b.attributes == config.attributes
              && b.weight >= 1 && (config.weight >= 1 ==> b.weight == config.weight) && (config.weight == 0 ==> b.weight == 1)
              && forall m :: m in b.models <==> m in config.models
  {
    assert "" in config.attributes.Values <==> exists key :: key in config.attributes && config.attributes[key] == "";
  }

  ghost predicate IdsDiffer(configs: seq<Config>) {
    forall i, j :: 0 <= i < j < |configs| ==> configs[i].id != configs[j].id
  }

  predicate IsEntryOf(entry: Entry, config: Config) {
    match Normalize(config)
    case Ok(backend) => entry == Entry(backend, config.enabled != Some(false), true)
    case Err(_) => false
  }

  /** The entries are those of the list: one each, enabled unless configured otherwise, healthy. */
  ghost predicate Loaded(entries: Entries, configs: seq<Config>) {
    && (forall c :: c in configs ==> c.id in entries && IsEntryOf(entries[c.id], c))
    && (forall id :: id in entries ==> exists c :: c in configs && c.id == id)
  }

  lemma NothingLoaded(configs: seq<Config>)
    ensures Loaded(map[], configs[..0])
  {
  }

  lemma LoadedStep(entries: Entries, configs: seq<Config>, k: nat)
    requires k < |configs| && Filed(entries) && Loaded(entries, configs[..k]) && IdsDiffer(configs[..k])
    ensures configs[k].id in entries ==> !IdsDiffer(configs)
    ensures configs[k].id !in entries && Normalize(configs[k]).Ok? ==>
              var more := entries[configs[k].id := Entry(Normalize(configs[k]).value, configs[k].enabled != Some(false), true)];
              Filed(more) && Loaded(more, configs[..k + 1]) && IdsDiffer(configs[..k + 1])
    ensures forall c :: c in configs[..k + 1] ==> c in configs[..k] || c == configs[k]
  {
    var c := configs[k];
    assert configs[..k + 1] == configs[..k] + [c];
    if c.id in entries {
      var d :| d in configs[..k] && d.id == c.id;
      var i :| 0 <= i < k && configs[i] == d;
    } else {
      forall d | d in configs[..k] ensures d.id != c.id {
        assert d.id in entries;
      }
      forall i | 0 <= i < k ensures configs[i].id != c.id {
        assert configs[i] in configs[..k];
      }
    }
  }

  class Registry {
    var entries: Entries
    var cursor: nat

    ghost predicate Valid()
      reads this
    {
      Filed(entries) && cursor < CURSOR_WRAP
    }

    constructor (entries: Entries)
      requires Filed(entries)
      ensures Valid() && this.entries == entries && cursor == 0
    {
      this.entries, cursor := entries, 0;
    }

    /** All backends enter healthy; a fault or a repeated ID refuses the whole list. */
    static method New(configs: seq<Config>) returns (r: Result<Registry, ConfigError>)
      ensures r.Ok? ==> fresh(r.value) && r.value.Valid() && r.value.cursor == 0 && Loaded(r.value.entries, configs)
      ensures r.Ok? <==> configs != [] && (forall c :: c in configs ==> Normalize(c).Ok?) && IdsDiffer(configs)
    {
      hide Normalize;
      hide Loaded;
      if configs == [] {
        return Err(NoBackends);
      }
      var entries: Entries := map[];
      NothingLoaded(configs);
      for k := 0 to |configs|
        invariant Filed(entries) && Loaded(entries, configs[..k]) && IdsDiffer(configs[..k])
        invariant forall c :: c in configs[..k] ==> Normalize(c).Ok?
      {
        var config := configs[k];
        var backend := Normalize(config);
        LoadedStep(entries, configs, k);
        if backend.Err? {
          assert config in configs;
          return Err(backend.error);
        }
        if config.id in entries {
          return Err(DuplicateId);
        }
        entries := entries[config.id := Entry(backend.value, config.enabled != Some(false), true)];
      }
      assert configs[..|configs|] == configs;
      var registry := new Registry(entries);
      r := Ok(registry);
    }

    method Candidates(model: string) returns (ordered: seq<Backend>)
      requires Valid()
      modifies `cursor
      ensures Valid()
      ensures ordered == CandidateList(entries, model, old(cursor))
      ensures cursor == NextCursor(entries, model, old(cursor), CURSOR_WRAP)
    {
      hide Firsts;
      hide Rotated;
      hide Slot;
      hide Ring;
      hide Filed;
      var weighted, target := CollectWeighted(model);
      if weighted == [] {
        return [];
      }
      var start := Slot(cursor, |weighted|);
      cursor := if cursor + 1 == CURSOR_WRAP then 0 else cursor + 1;
      RingFacts(entries, model, start);
      ordered := TakeDistinct(weighted, start, target);
    }

    method CollectWeighted(model: string) returns (weighted: seq<Backend>, target: nat)
      requires Valid()
      ensures weighted == Ring(entries, model)
      ensures target == |EligibleAmong(entries, model, InOrder(entries.Keys))|
    {
      hide InOrder;
      hide Weighted;
      hide EligibleAmong;
      hide Copies;
      weighted, target := [], 0;
      var ids := SortIds(entries.Keys);
      NoneWeighted(entries, model, ids);
      for k := 0 to |ids|
        invariant weighted == Weighted(EligibleAmong(entries, model, ids[..k]))
        invariant target == |EligibleAmong(entries, model, ids[..k])|
      {
        WeightedStep(entries, model, ids, k);
        assert ids[k] in entries;
        var current := entries[ids[k]];
        if current.enabled && current.healthy && Serves(current.backend, model) {
          target := target + 1;
          weighted := AddCopies(weighted, current.backend);
        }
      }
      assert ids[..|ids|] == ids;
    }

    method MarkFailure(id: string)
      requires Valid()
      modifies `entries
      ensures Valid()
      ensures entries == if id in old(entries) then old(entries)[id := old(entries)[id].(healthy := false)] else old(entries)
    {
      if id in entries {
        entries := entries[id := entries[id].(healthy := false)];
      }
    }

    method MarkSuccess(id: string)
      requires Valid()
      modifies `entries
      ensures Valid()
      ensures entries == if id in old(entries) then old(entries)[id := old(entries)[id].(healthy := true)] else old(entries)
    {
      if id in entries {
        entries := entries[id := entries[id].(healthy := true)];
      }
    }
  }

  lemma NoneWeighted(entries: Entries, model: string, ids: seq<string>)
    ensures EligibleAmong(entries, model, ids[..0]) == [] && Weighted([]) == []
  {
  }

  lemma WeightedStep(entries: Entries, model: string, ids: seq<string>, k: nat)
    requires k < |ids|
    ensures var before, after := EligibleAmong(entries, model, ids[..k]), EligibleAmong(entries, model, ids[..k + 1]);
            if ids[k] in entries && Eligible(entries[ids[k]], model) then
              var b := entries[ids[k]].backend;
              after == before + [b] && Weighted(after) == Weighted(before) + Copies(b, b.weight)
            else after == before
  {
    assert ids[..k + 1][..k] == ids[..k];
    if ids[k] in entries {
      SnocInit(EligibleAmong(entries, model, ids[..k]), entries[ids[k]].backend);
    }
  }

  method AddCopies(weighted: seq<Backend>, backend: Backend) returns (r: seq<Backend>)
    ensures r == weighted + Copies(backend, backend.weight)
  {
    r := weighted;
    for i := 0 to backend.weight
      invariant r == weighted + Copies(backend, i)
    {
      r := r + [backend];
    }
  }

  /** The loop that walks the ring from `start` ends within one turn. */
  method TakeDistinct(ring: seq<Backend>, start: nat, target: nat) returns (ordered: seq<Backend>)
    requires start < |ring| && target == |Firsts(Rotated(ring, start))|
    requires forall x, y :: x in ring && y in ring && x.id == y.id ==> x == y
    ensures ordered == Firsts(Rotated(ring, start))
  {
    hide Rotated;
    hide Firsts;
    ghost var turned := Rotated(ring, start);
    RotatedMembers(ring, start);
    NoFirsts();
    ordered := [];
    var seen: set<string> := {};
    var index := 0;
    assert turned[..0] == [];
    while |ordered| < target
      invariant index <= |ring| && ordered == Firsts(turned[..index]) && ordered <= Firsts(turned)
      invariant forall x :: x in ring ==> (x.id in seen <==> x in ordered)
      decreases |ring| - index
    {
      assert turned[..|ring|] == turned;
      TurnedAt(ring, start, index);
      FirstsStep(turned, index);
      FirstsGrow(turned, index + 1);
      assert TurnIndex(start, index, |ring|) == (start + index) % |ring|;
      var candidate := ring[(start + index) % |ring|];
      index := index + 1;
      if candidate.id in seen {
        continue;
      }
      seen := seen + {candidate.id};
      ordered := ordered + [candidate];
    }
  }

  lemma NoFirsts()
    ensures Firsts([]) == []
  {
  }

  lemma FirstsStep(s: seq<Backend>, k: nat)
    requires k < |s|
    ensures Firsts(s[..k + 1]) == if s[k] in Firsts(s[..k]) then Firsts(s[..k]) else Firsts(s[..k]) + [s[k]]
  {
    assert s[..k + 1][..k] == s[..k];
  }

  lemma RingFacts(entries: Entries, model: string, start: nat)
    requires Filed(entries) && start < |Ring(entries, model)|
    ensures var ring := Ring(entries, model);
            && |Firsts(Rotated(ring, start))| == |EligibleAmong(entries, model, InOrder(entries.Keys))|
            && forall x, y :: x in ring && y in ring && x.id == y.id ==> x == y
  {
    hide Firsts;
    hide Weighted;
    hide EligibleAmong;
    hide Rotated;
    hide AllDiffer;
    var ring := Ring(entries, model);
    var backends := EligibleAmong(entries, model, InOrder(entries.Keys));
    EligibleMembers(entries, model, InOrder(entries.Keys));
    WeightedMembers(backends);
    RotatedMembers(ring, start);
    FirstsAre(Rotated(ring, start));
    SameLength(Firsts(Rotated(ring, start)), backends);
  }
}
