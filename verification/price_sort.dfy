/** Ordering fares by price, as the alternatives list of the results panel
    does with `sort((a, b) => (a.price?.value || 0) - (b.price?.value || 0))`.
    `Array.prototype.sort` is stable, so fares of equal price keep their
    order; the model sorts by stable insertion. */
module PriceSort {
  import opened Optional
  import opened Types
  import opened Seqs

  /** The comparison key: the price value, or 0 for a fare without price. */
  function PriceKey(f: DayFare): int {
    if f.price.Some? then f.price.value.value else 0
  }

  /** Ascending by key, stated on neighbours. */
  predicate SortedByPrice(s: seq<DayFare>)
    decreases |s|
  {
    |s| < 2 || (PriceKey(s[0]) <= PriceKey(s[1]) && SortedByPrice(s[1..]))
  }

  /** Neighbour order is order between any two positions. */
  lemma {:induction false} SortedIndices(s: seq<DayFare>)
    ensures SortedByPrice(s) <==> forall i, j :: 0 <= i < j < |s| ==> PriceKey(s[i]) <= PriceKey(s[j])
    decreases |s|
  {
    if |s| >= 2 {
      SortedIndices(s[1..]);
      if SortedByPrice(s) {
        forall i, j | 0 <= i < j < |s| ensures PriceKey(s[i]) <= PriceKey(s[j]) {
          if i > 0 {
            assert s[i] == s[1..][i - 1] && s[j] == s[1..][j - 1];
          } else if j > 1 {
            assert s[1] == s[1..][0] && s[j] == s[1..][j - 1];
          }
        }
      } else {
        if PriceKey(s[0]) <= PriceKey(s[1]) {
          var i, j :| 0 <= i < j < |s[1..]| && PriceKey(s[1..][i]) > PriceKey(s[1..][j]);
          assert PriceKey(s[i + 1]) > PriceKey(s[j + 1]);
        }
      }
    }
  }

  /** Inserts `x` after every element whose key does not exceed its own. */
  function Insert(x: DayFare, s: seq<DayFare>): (r: seq<DayFare>)
    requires SortedByPrice(s)
    ensures SortedByPrice(r)
    ensures |r| == |s| + 1
    ensures r[0] == x || (|s| > 0 && r[0] == s[0])
  {
    if |s| == 0 then [x]
    else if PriceKey(x) < PriceKey(s[0]) then
      SortedCons(x, s);
      [x] + s
    else
      var rest := Insert(x, s[1..]);
      assert s == [s[0]] + s[1..];
      SortedCons(s[0], rest);
      [s[0]] + rest
  }

  /** Insertion adds `x` and loses nothing. */
  lemma {:induction false} InsertMultiset(x: DayFare, s: seq<DayFare>)
    requires SortedByPrice(s)
    ensures multiset(Insert(x, s)) == multiset(s) + multiset{x}
  {
    if |s| > 0 && PriceKey(s[0]) <= PriceKey(x) {
      assert SortedByPrice(s[1..]);
      InsertMultiset(x, s[1..]);
      assert s == [s[0]] + s[1..];
      assert Insert(x, s) == [s[0]] + Insert(x, s[1..]);
    }
  }

  /** A key no larger than the head's extends a sorted sequence in front. */
  lemma SortedCons(h: DayFare, t: seq<DayFare>)
    requires SortedByPrice(t)
    requires |t| > 0 ==> PriceKey(h) <= PriceKey(t[0])
    ensures SortedByPrice([h] + t)
  {
    assert ([h] + t)[1..] == t;
  }

  /** The stable ascending sort by price key. */
  function SortByPrice(s: seq<DayFare>): (r: seq<DayFare>)
    ensures SortedByPrice(r)
    ensures multiset(r) == multiset(s)
    ensures |r| == |s|
  {
    if |s| == 0 then []
    else
      var init := s[..|s| - 1];
      assert s == init + [s[|s| - 1]];
      InsertMultiset(s[|s| - 1], SortByPrice(init));
      Insert(s[|s| - 1], SortByPrice(init))
  }

  /** Selects the fares whose key is `k`. */
  function HasKey(k: int): DayFare -> bool {
    f => PriceKey(f) == k
  }

  /** The fares of key `k`, in order. */
  function WithKey(s: seq<DayFare>, k: int): seq<DayFare> {
    Filter(s, HasKey(k))
  }

  /** A sorted sequence whose head exceeds `k` has no element of key `k`. */
  lemma AboveKeyNone(s: seq<DayFare>, k: int)
    requires SortedByPrice(s) && |s| > 0 && k < PriceKey(s[0])
    ensures WithKey(s, k) == []
  {
    SortedIndices(s);
    forall y | y in s ensures !HasKey(k)(y) {
      var j :| 0 <= j < |s| && s[j] == y;
      assert j == 0 || PriceKey(s[0]) <= PriceKey(s[j]);
    }
    FilterNone(s, HasKey(k));
  }

  /** Inserting `x` appends it to the fares of its own key. */
  lemma {:induction false} InsertWithKey(x: DayFare, s: seq<DayFare>, k: int)
    requires SortedByPrice(s)
    ensures WithKey(Insert(x, s), k) == WithKey(s, k) + (if PriceKey(x) == k then [x] else [])
  {
    if |s| == 0 {
      assert Insert(x, s) == [x] + [];
      FilterCons(x, [], HasKey(k));
    } else if PriceKey(x) < PriceKey(s[0]) {
      InsertInFront(x, s, k);
    } else {
      assert SortedByPrice(s[1..]);
      InsertWithKey(x, s[1..], k);
      InsertBehindHead(x, s, k);
    }
  }

  /** The case of `InsertWithKey` where `x` goes in front. */
  lemma InsertInFront(x: DayFare, s: seq<DayFare>, k: int)
    requires SortedByPrice(s) && |s| > 0 && PriceKey(x) < PriceKey(s[0])
    ensures WithKey(Insert(x, s), k) == WithKey(s, k) + (if PriceKey(x) == k then [x] else [])
  {
    assert Insert(x, s) == [x] + s;
    FilterCons(x, s, HasKey(k));
    if PriceKey(x) == k {
      AboveKeyNone(s, k);
    }
  }

  /** The case of `InsertWithKey` where `x` goes behind the head, given the
      property for the tail. */
  lemma InsertBehindHead(x: DayFare, s: seq<DayFare>, k: int)
    requires SortedByPrice(s) && |s| > 0 && PriceKey(s[0]) <= PriceKey(x)
    requires WithKey(Insert(x, s[1..]), k) == WithKey(s[1..], k) + (if PriceKey(x) == k then [x] else [])
    ensures WithKey(Insert(x, s), k) == WithKey(s, k) + (if PriceKey(x) == k then [x] else [])
  {
    var h, t := s[0], s[1..];
    var head: seq<DayFare> := if PriceKey(h) == k then [h] else [];
    var tail: seq<DayFare> := if PriceKey(x) == k then [x] else [];
    var a, b := WithKey(Insert(x, t), k), WithKey(t, k);
    assert Insert(x, s) == [h] + Insert(x, t);
    FilterCons(h, Insert(x, t), HasKey(k));
    assert WithKey(Insert(x, s), k) == head + a;
    assert WithKey(s, k) == head + b;
    assert a == b + tail;
    ConcatAssoc(head, b, tail);
  }

  /** Stability: among fares of one price the sorted order is the input
      order. */
  lemma {:induction false} SortIsStable(s: seq<DayFare>, k: int)
    ensures WithKey(SortByPrice(s), k) == WithKey(s, k)
  {
    if |s| > 0 {
      var init, x := s[..|s| - 1], s[|s| - 1];
      assert s == init + [x];
      SortIsStable(init, k);
      InsertWithKey(x, SortByPrice(init), k);
      FilterSnoc(init, x, HasKey(k));
    }
  }

  /** A sequence already in order is left as it is. */
  lemma {:induction false} SortSorted(s: seq<DayFare>)
    requires SortedByPrice(s)
    ensures SortByPrice(s) == s
  {
    if |s| > 0 {
      var init, x := s[..|s| - 1], s[|s| - 1];
      SortedIndices(s);
      SortedIndices(init);
      assert forall i :: 0 <= i < |init| ==> PriceKey(init[i]) <= PriceKey(x) by {
        forall i | 0 <= i < |init| ensures PriceKey(init[i]) <= PriceKey(x) {
          assert init[i] == s[i];
        }
      }
      SortSorted(init);
      InsertLast(x, init);
      assert SortByPrice(s) == Insert(x, SortByPrice(init));
    }
  }

  /** An element no cheaper than the last goes at the end. */
  lemma {:induction false} InsertLast(x: DayFare, s: seq<DayFare>)
    requires SortedByPrice(s)
    requires forall i :: 0 <= i < |s| ==> PriceKey(s[i]) <= PriceKey(x)
    ensures Insert(x, s) == s + [x]
  {
    if |s| > 0 {
      assert SortedByPrice(s[1..]);
      InsertLast(x, s[1..]);
      assert s == [s[0]] + s[1..];
    }
  }
  /** The head of a sorted sequence has the least key. */
  lemma HeadIsLeast(s: seq<DayFare>, x: DayFare)
    requires SortedByPrice(s) && |s| > 0 && x in s
    ensures PriceKey(s[0]) <= PriceKey(x)
  {
    SortedIndices(s);
  }

  /** A non-empty sequence has fares of its head's key. */
  lemma HeadKeyListed(s: seq<DayFare>)
    requires |s| > 0
    ensures WithKey(s, PriceKey(s[0])) != []
  {
    FilterMembers(s, HasKey(PriceKey(s[0])), s[0]);
  }

  /** Removing the same head from two sequences keeps their fares of every
      key equal. */
  lemma SameKeysOfTails(a: seq<DayFare>, b: seq<DayFare>)
    requires |a| > 0 && |b| > 0 && a[0] == b[0]
    requires forall k :: WithKey(a, k) == WithKey(b, k)
    ensures forall k :: WithKey(a[1..], k) == WithKey(b[1..], k)
  {
    assert a == [a[0]] + a[1..] && b == [b[0]] + b[1..];
    forall k ensures WithKey(a[1..], k) == WithKey(b[1..], k) {
      FilterCons(a[0], a[1..], HasKey(k));
      FilterCons(b[0], b[1..], HasKey(k));
      var h: seq<DayFare> := if HasKey(k)(a[0]) then [a[0]] else [];
      assert WithKey(a, k) == h + WithKey(a[1..], k);
      assert WithKey(b, k) == h + WithKey(b[1..], k);
      assert WithKey(a[1..], k) == (h + WithKey(a[1..], k))[|h|..];
    }
  }

  /** A sorted order that keeps the input order among fares of one price is
      unique: two such orders of the same fares are equal. */
  lemma {:induction false} StableSortUnique(a: seq<DayFare>, b: seq<DayFare>)
    requires SortedByPrice(a) && SortedByPrice(b)
    requires forall k :: WithKey(a, k) == WithKey(b, k)
    ensures a == b
    decreases |a|
  {
    if |a| == 0 || |b| == 0 {
      if |a| > 0 {
        HeadKeyListed(a);
        assert false;
      } else if |b| > 0 {
        HeadKeyListed(b);
        assert false;
      }
    } else {
      var ka, kb := PriceKey(a[0]), PriceKey(b[0]);
      FilterMembers(a, HasKey(ka), a[0]);
      FilterMembers(b, HasKey(ka), a[0]);
      FilterMembers(b, HasKey(kb), b[0]);
      FilterMembers(a, HasKey(kb), b[0]);
      assert HasKey(ka)(a[0]) && HasKey(kb)(b[0]);
      assert a[0] in WithKey(b, ka) by {
        assert a[0] in WithKey(a, ka);
        assert WithKey(a, ka) == WithKey(b, ka);
      }
      assert b[0] in WithKey(a, kb) by {
        assert b[0] in WithKey(b, kb);
        assert WithKey(a, kb) == WithKey(b, kb);
      }
      HeadIsLeast(b, a[0]);
      HeadIsLeast(a, b[0]);
      assert a == [a[0]] + a[1..] && b == [b[0]] + b[1..];
      FilterCons(a[0], a[1..], HasKey(ka));
      FilterCons(b[0], b[1..], HasKey(ka));
      assert WithKey(a, ka)[0] == a[0] && WithKey(b, ka)[0] == b[0];
      SameKeysOfTails(a, b);
      StableSortUnique(a[1..], b[1..]);
    }
  }
}
