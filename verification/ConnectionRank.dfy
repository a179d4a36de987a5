/** Which candidate pair is better: the pair priority, the comparison, and the stable sort that uses it. */
module ConnectionRank {
  import opened Base
  import opened ConnectionState

  // ---- Priorities, section 5.7.2 of RFC 5245 ----

  /** `2 * max(g, d)` is computed in 32 bits before it is widened. */
  function PairPriority(g: u32, d: u32): u64 {
    Min(g, d) * 0x1_0000_0000 + (2 * Max(g, d)) % 0x1_0000_0000 + if g > d then 1 else 0
  }

  function RfcPairPriority(g: u32, d: u32): int {
    Min(g, d) * 0x1_0000_0000 + 2 * Max(g, d) + if g > d then 1 else 0
  }

  /** The program's value is the standard's exactly if both candidate priorities are below 2^31. */
  lemma PriorityMatchesStandard(g: u32, d: u32)
    ensures PairPriority(g, d) == RfcPairPriority(g, d) <==> g < 0x8000_0000 && d < 0x8000_0000
  {
  }

  /** Below 2^31 the value orders pairs by their smaller priority, then the larger one, then the side that
      has the larger one, and no two pairs share a value. */
  lemma PriorityIsLexicographic(g: u32, d: u32, g': u32, d': u32)
    requires g < 0x8000_0000 && d < 0x8000_0000 && g' < 0x8000_0000 && d' < 0x8000_0000
    ensures PairPriority(g, d) < PairPriority(g', d') <==>
      || Min(g, d) < Min(g', d')
      || (Min(g, d) == Min(g', d') && Max(g, d) < Max(g', d'))
      || (Min(g, d) == Min(g', d') && Max(g, d) == Max(g', d') && g <= d && g' > d')
    ensures PairPriority(g, d) == PairPriority(g', d') <==> g == g' && d == d'
  {
    PriorityMatchesStandard(g, d);
    PriorityMatchesStandard(g', d');
  }

  /** From 2^31 on, different pairs collide, and a larger candidate priority can rank lower. */
  lemma PriorityWraps()
    ensures PairPriority(0x8000_0001, 0) == PairPriority(1, 0)
    ensures PairPriority(0, 0x8000_0000) < PairPriority(0, 1)
  {
  }

  /** `get_priority`: the three parts occupy separate bits for a two-byte preference and a component of 1 or 2. */
  function CandidatePriority(typePreference: int, localPreference: u16, component: int): int {
    typePreference * 0x100_0000 + localPreference * 0x100 + (256 - component)
  }

  lemma HostAndPrflxStayInRange(localPreference: u16, component: int)
    requires 1 <= component <= 2
    ensures 0 <= CandidatePriority(110, localPreference, component)
              < CandidatePriority(126, localPreference, component) < 0x8000_0000
  {
  }

  // ---- Comparing connections ----

  function Priority(c: Conn): u64 {
    PairPriority(c.localPriority, c.remotePriority)
  }

  /** Positive if `a` is better, negative if `b` is, zero if only the round trip can tell. */
  function Compare(a: Conn, b: Conn): int {
    if Writable(a) && !Writable(b) then 1
    else if !Writable(a) && Writable(b) then -1
    else if Rank(a.writeState) < Rank(b.writeState) then 1
    else if Rank(a.writeState) > Rank(b.writeState) then -1
    else if a.receiving && !b.receiving then 1
    else if !a.receiving && b.receiving then -1
    else if Priority(a) > Priority(b) then 1
    else if Priority(a) < Priority(b) then -1
    else 0
  }

  predicate Better(a: Conn, b: Conn) {
    if Compare(a, b) != 0 then Compare(a, b) > 0 else a.rtt < b.rtt
  }

  /** The order in words: write state, then receiving, then the higher priority, then the shorter trip. */
  lemma BetterIsLexicographic(a: Conn, b: Conn)
    ensures Better(a, b) <==>
      || Rank(a.writeState) < Rank(b.writeState)
      || (a.writeState == b.writeState && a.receiving && !b.receiving)
      || (a.writeState == b.writeState && a.receiving == b.receiving && Priority(a) > Priority(b))
      || (a.writeState == b.writeState && a.receiving == b.receiving && Priority(a) == Priority(b) && a.rtt < b.rtt)
  {
  }

  /** What a sort needs: a strict weak order. */
  lemma BetterIsStrictWeakOrder(a: Conn, b: Conn, c: Conn)
    ensures !Better(a, a)
    ensures Better(a, b) && Better(b, c) ==> Better(a, c)
    ensures !Better(a, b) && !Better(b, a) && !Better(b, c) && !Better(c, b) ==> !Better(a, c) && !Better(c, a)
    ensures Better(a, c) ==> Better(a, b) || Better(b, c)
  {
    hide PairPriority;
    BetterIsLexicographic(a, b);
    BetterIsLexicographic(b, a);
    BetterIsLexicographic(b, c);
    BetterIsLexicographic(c, b);
    BetterIsLexicographic(a, c);
    BetterIsLexicographic(c, a);
  }

  // ---- Sorting ----

  /** A connection's identity: its address, which is also its place in an address-ordered set. */
  type Id = nat

  type Table = map<Id, Conn>

  predicate AllIn(table: Table, ids: seq<Id>) {
    forall i :: 0 <= i < |ids| ==> ids[i] in table
  }

  ghost predicate NoDuplicates(ids: seq<Id>) {
    forall i, j :: 0 <= i < j < |ids| ==> ids[i] != ids[j]
  }

  function Insert(table: Table, x: Id, ids: seq<Id>): (r: seq<Id>)
    requires x in table && AllIn(table, ids)
    ensures multiset(r) == multiset{x} + multiset(ids)
  {
    if ids == [] then [x]
    else if !Better(table[ids[0]], table[x]) then [x] + ids
    else
      assert ids == [ids[0]] + ids[1..];
      [ids[0]] + Insert(table, x, ids[1..])
  }

  /** The library's stable sort under `Better`. `StableSortUnique` shows that any other would do. */
  function StableSort(table: Table, ids: seq<Id>): (r: seq<Id>)
    requires AllIn(table, ids)
    ensures multiset(r) == multiset(ids)
    ensures AllIn(table, r) && |r| == |ids|
  {
    if ids == [] then []
    else
      assert ids == [ids[0]] + ids[1..];
      var rest := StableSort(table, ids[1..]);
      var r := Insert(table, ids[0], rest);
      SameMembers(r, ids);
      r
  }

  lemma SameMembers(xs: seq<Id>, ys: seq<Id>)
    requires multiset(xs) == multiset(ys)
    ensures |xs| == |ys| && forall i :: 0 <= i < |xs| ==> xs[i] in ys
  {
    assert |multiset(xs)| == |multiset(ys)|;
    forall i | 0 <= i < |xs|
      ensures xs[i] in ys
    {
      assert xs[i] in multiset(xs);
    }
  }

  ghost predicate Earlier(ids: seq<Id>, x: Id, y: Id) {
    exists i, j :: 0 <= i < j < |ids| && ids[i] == x && ids[j] == y
  }

  /** `x` belongs in front of `y`: it is better, or neither is and it came first. */
  ghost predicate Ahead(table: Table, ids: seq<Id>, x: Id, y: Id)
    requires x in table && y in table
  {
    Better(table[x], table[y]) || (!Better(table[y], table[x]) && Earlier(ids, x, y))
  }

  /** `r` is a stable sort of `ids`. */
  ghost predicate IsStableSort(table: Table, ids: seq<Id>, r: seq<Id>)
    requires AllIn(table, ids)
  {
    && multiset(r) == multiset(ids)
    && AllIn(table, r)
    && forall p, q :: 0 <= p < q < |r| ==> Ahead(table, ids, r[p], r[q])
  }

  lemma EarlierInTail(ids: seq<Id>, x: Id, y: Id)
    requires ids != [] && Earlier(ids[1..], x, y)
    ensures Earlier(ids, x, y)
  {
    var i, j :| 0 <= i < j < |ids[1..]| && ids[1..][i] == x && ids[1..][j] == y;
    assert ids[i + 1] == x && ids[j + 1] == y;
  }

  lemma HeadIsEarlier(ids: seq<Id>, y: Id)
    requires ids != [] && y in ids[1..]
    ensures Earlier(ids, ids[0], y)
  {
    var j :| 0 <= j < |ids[1..]| && ids[1..][j] == y;
    assert ids[j + 1] == y;
  }

  /** `r` is in order, for stability measured against `ids`. */
  ghost predicate InOrder(table: Table, ids: seq<Id>, r: seq<Id>)
    requires AllIn(table, r)
  {
    forall p, q :: 0 <= p < q < |r| ==> Ahead(table, ids, r[p], r[q])
  }

  /** What is not behind the first of an ordered vector is ahead of all of it, if it came earlier. */
  lemma AheadOfAll(table: Table, ids: seq<Id>, x: Id, r: seq<Id>, q: nat)
    requires x in table && AllIn(table, r) && InOrder(table, ids, r) && q < |r|
    requires !Better(table[r[0]], table[x]) && Earlier(ids, x, r[q])
    ensures Ahead(table, ids, x, r[q])
  {
    hide Better, Earlier;
    BetterIsStrictWeakOrder(table[r[q]], table[r[0]], table[x]);
    BetterIsStrictWeakOrder(table[r[0]], table[r[q]], table[x]);
    BetterIsStrictWeakOrder(table[x], table[r[0]], table[r[q]]);
    assert q > 0 ==> Ahead(table, ids, r[0], r[q]);
  }

  lemma {:induction false} InsertKeepsOrder(table: Table, ids: seq<Id>, x: Id, r: seq<Id>)
    requires x in table && AllIn(table, r) && InOrder(table, ids, r)
    requires forall i :: 0 <= i < |r| ==> Earlier(ids, x, r[i])
    ensures AllIn(table, Insert(table, x, r)) && InOrder(table, ids, Insert(table, x, r))
  {
    hide Better, Earlier;
    if r == [] {
    } else {
      var out := Insert(table, x, r);
      if !Better(table[r[0]], table[x]) {
        forall q | 0 <= q < |r|
          ensures Ahead(table, ids, x, r[q])
        {
          AheadOfAll(table, ids, x, r, q);
        }
      } else {
        var tail := Insert(table, x, r[1..]);
        InsertKeepsOrder(table, ids, x, r[1..]);
        assert r == [r[0]] + r[1..];
        forall q | 0 <= q < |tail|
          ensures Ahead(table, ids, r[0], tail[q])
        {
          assert tail[q] in multiset(tail);
          assert tail[q] == x || tail[q] in r[1..];
        }
      }
    }
  }

  lemma OrderIsLocal(table: Table, ids: seq<Id>, r: seq<Id>)
    requires ids != [] && AllIn(table, r) && InOrder(table, ids[1..], r)
    ensures InOrder(table, ids, r)
  {
    hide Better;
    forall p, q | 0 <= p < q < |r|
      ensures Ahead(table, ids, r[p], r[q])
    {
      if Earlier(ids[1..], r[p], r[q]) {
        EarlierInTail(ids, r[p], r[q]);
      }
    }
  }

  lemma {:induction false} StableSortIsStable(table: Table, ids: seq<Id>)
    requires AllIn(table, ids)
    ensures IsStableSort(table, ids, StableSort(table, ids))
  {
    if ids == [] {
    } else {
      var rest := StableSort(table, ids[1..]);
      StableSortIsStable(table, ids[1..]);
      OrderIsLocal(table, ids, rest);
      SameMembers(rest, ids[1..]);
      forall i | 0 <= i < |rest|
        ensures Earlier(ids, ids[0], rest[i])
      {
        HeadIsEarlier(ids, rest[i]);
      }
      InsertKeepsOrder(table, ids, ids[0], rest);
    }
  }

  lemma NotBothAhead(table: Table, ids: seq<Id>, x: Id, y: Id)
    requires x in table && y in table && NoDuplicates(ids)
    ensures !(Ahead(table, ids, x, y) && Ahead(table, ids, y, x))
  {
    hide Better;
    BetterIsStrictWeakOrder(table[x], table[y], table[x]);
  }

  lemma TailsMatch(r: seq<Id>, s: seq<Id>)
    requires r != [] && s != [] && r[0] == s[0] && multiset(r) == multiset(s)
    ensures multiset(r[1..]) == multiset(s[1..])
  {
    assert r == [r[0]] + r[1..] && s == [s[0]] + s[1..];
    assert multiset(r[1..]) == multiset(r) - multiset{r[0]};
    assert multiset(s[1..]) == multiset(s) - multiset{s[0]};
  }

  /** Two orders of the same members begin alike. */
  lemma HeadsMatch(table: Table, ids: seq<Id>, r: seq<Id>, s: seq<Id>)
    requires NoDuplicates(ids) && AllIn(table, r) && AllIn(table, s) && r != [] && s != []
    requires multiset(r) == multiset(s) && InOrder(table, ids, r) && InOrder(table, ids, s)
    ensures r[0] == s[0]
  {
    hide Ahead;
    SameMembers(r, s);
    SameMembers(s, r);
    NotBothAhead(table, ids, r[0], s[0]);
    assert r[0] in s && s[0] in r;
  }

  lemma {:induction false} OneOrder(table: Table, ids: seq<Id>, r: seq<Id>, s: seq<Id>)
    requires AllIn(table, ids) && NoDuplicates(ids) && AllIn(table, r) && AllIn(table, s)
    requires multiset(r) == multiset(s) && InOrder(table, ids, r) && InOrder(table, ids, s)
    ensures r == s
    decreases |r|
  {
    hide Ahead, NoDuplicates;
    SameMembers(r, s);
    if r == [] {
    } else {
      HeadsMatch(table, ids, r, s);
      TailsMatch(r, s);
      OneOrder(table, ids, r[1..], s[1..]);
      assert r == [r[0]] + r[1..] && s == [s[0]] + s[1..];
    }
  }

  /** There is one stable sort only, so whatever the library returns is what is computed here. */
  lemma StableSortUnique(table: Table, ids: seq<Id>, r: seq<Id>)
    requires AllIn(table, ids) && NoDuplicates(ids)
    ensures IsStableSort(table, ids, r) <==> r == StableSort(table, ids)
  {
    hide Ahead, StableSort;
    StableSortIsStable(table, ids);
    if IsStableSort(table, ids, r) {
      OneOrder(table, ids, r, StableSort(table, ids));
    }
  }

  /** Sorting what is sorted changes nothing. */
  lemma SortIsIdempotent(table: Table, ids: seq<Id>)
    requires AllIn(table, ids)
    ensures StableSort(table, StableSort(table, ids)) == StableSort(table, ids)
  {
    hide StableSort;
    StableSortIsStable(table, ids);
    SortOfOrdered(table, StableSort(table, ids));
  }

  lemma {:induction false} SortOfOrdered(table: Table, r: seq<Id>)
    requires AllIn(table, r)
    requires forall p, q :: 0 <= p < q < |r| ==> !Better(table[r[q]], table[r[p]])
    ensures StableSort(table, r) == r
  {
    hide Better;
    if r == [] {
    } else {
      SortOfOrdered(table, r[1..]);
      assert r == [r[0]] + r[1..];
    }
  }
}
