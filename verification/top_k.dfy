/** `ScreenerUtils.get_top_k`: a stable sort on one field (descending when
    `reverse`), with records whose field is missing or None placed last, cut to
    the first `k`. Python's `sorted` is stable also with `reverse=True`. */
module TopK {
  import opened Values

  /** A sort value: a number, or the -inf/+inf that stands in for a missing one. */
  datatype Key = NegInf | Finite(x: real) | PosInf

  predicate KeyLess(a: Key, b: Key) {
    match (a, b)
    case (NegInf, NegInf) => false
    case (NegInf, _) => true
    case (Finite(x), Finite(y)) => x < y
    case (Finite(_), PosInf) => true
    case (_, _) => false
  }

  /** The `sort_by` / `reverse` arguments. */
  datatype Order = Order(sortBy: string, reverse: bool) {

    /** `get_sort_value`: the field's value, or -inf (descending) / +inf
        (ascending) when it is missing or None. */
    function KeyOf(stock: Record): Key {
      var v := Get(stock, sortBy);
      if v.VNum? then Finite(v.n) else if reverse then NegInf else PosInf
    }

    /** `a` must precede `b` in the sorted output. */
    predicate Before(a: Record, b: Record) {
      if reverse then KeyLess(KeyOf(b), KeyOf(a)) else KeyLess(KeyOf(a), KeyOf(b))
    }

    predicate Sorted(s: seq<Record>) {
      forall i, j :: 0 <= i < j < |s| ==> !Before(s[j], s[i])
    }

    /** The records of `s` whose sort value is `e`, in order. */
    function WithKey(s: seq<Record>, e: Key): seq<Record> {
      if s == [] then []
      else (if KeyOf(s[0]) == e then [s[0]] else []) + WithKey(s[1..], e)
    }

    /** Inserts `x` after every element it does not strictly precede. */
    function Insert(s: seq<Record>, x: Record): seq<Record> {
      if s == [] then [x]
      else if Before(x, s[0]) then [x] + s
      else [s[0]] + Insert(s[1..], x)
    }

    /** Python's stable `sorted` by sort value, as an insertion sort that takes
        the elements left to right. */
    function Sort(s: seq<Record>): seq<Record> {
      if s == [] then [] else Insert(Sort(s[..|s| - 1]), s[|s| - 1])
    }
  }

  /** Every present, non-None sort field holds a number (mixed types would make
      the comparison raise). */
  predicate NumericSortField(stocks: seq<Record>, sortBy: string) {
    forall i :: 0 <= i < |stocks| ==> Get(stocks[i], sortBy) == VNone || Get(stocks[i], sortBy).VNum?
  }

  /** A record whose sort field is missing or None. */
  predicate Missing(stock: Record, sortBy: string) {
    Get(stock, sortBy) == VNone
  }

  // ---------------------------------------------------------------------------
  // Facts about the ordering

  lemma KeyLessTransitive(a: Key, b: Key, c: Key)
    requires KeyLess(a, b) && KeyLess(b, c)
    ensures KeyLess(a, c)
  {
  }

  lemma KeyLessTotal(a: Key, b: Key)
    ensures a == b || KeyLess(a, b) || KeyLess(b, a)
    ensures !(KeyLess(a, b) && KeyLess(b, a))
    ensures !KeyLess(a, a)
  {
  }

  // ---------------------------------------------------------------------------
  // Insertion

  lemma {:induction false} InsertMultiset(o: Order, s: seq<Record>, x: Record)
    ensures multiset(o.Insert(s, x)) == multiset(s) + multiset{x}
  {
    if s != [] && !o.Before(x, s[0]) {
      InsertMultiset(o, s[1..], x);
      assert o.Insert(s, x) == [s[0]] + o.Insert(s[1..], x);
      assert multiset(o.Insert(s, x)) == multiset{s[0]} + multiset(o.Insert(s[1..], x));
      assert s == [s[0]] + s[1..];
    }
  }

  lemma BeforeTransitive(o: Order, a: Record, b: Record, c: Record)
    requires o.Before(a, b) && o.Before(b, c)
    ensures o.Before(a, c)
  {
    if o.reverse {
      KeyLessTransitive(o.KeyOf(c), o.KeyOf(b), o.KeyOf(a));
    } else {
      KeyLessTransitive(o.KeyOf(a), o.KeyOf(b), o.KeyOf(c));
    }
  }

  lemma BeforeAsymmetric(o: Order, a: Record, b: Record)
    ensures !(o.Before(a, b) && o.Before(b, a))
  {
    KeyLessTotal(o.KeyOf(a), o.KeyOf(b));
  }

  /** A sequence with a head is sorted when its tail is and no tail element
      strictly precedes the head. */
  lemma SortedCons(o: Order, h: Record, t: seq<Record>)
    requires o.Sorted(t)
    requires forall y :: y in t ==> !o.Before(y, h)
    ensures o.Sorted([h] + t)
  {
    var r := [h] + t;
    forall i, j | 0 <= i < j < |r| ensures !o.Before(r[j], r[i]) {
      assert r[j] == t[j - 1];
      if i > 0 {
        assert r[i] == t[i - 1];
      }
    }
  }

  lemma SortedTail(o: Order, s: seq<Record>)
    requires o.Sorted(s) && s != []
    ensures o.Sorted(s[1..])
    ensures forall y :: y in s[1..] ==> !o.Before(y, s[0])
  {
    forall i, j | 0 <= i < j < |s[1..]| ensures !o.Before(s[1..][j], s[1..][i]) {
      assert s[1..][i] == s[i + 1] && s[1..][j] == s[j + 1];
    }
    forall y | y in s[1..] ensures !o.Before(y, s[0]) {
      var m :| 0 <= m < |s[1..]| && s[1..][m] == y;
      assert s[m + 1] == y;
    }
  }

  lemma {:induction false} InsertSorted(o: Order, s: seq<Record>, x: Record)
    requires o.Sorted(s)
    ensures o.Sorted(o.Insert(s, x))
  {
    if s == [] {
    } else {
      SortedTail(o, s);
      if o.Before(x, s[0]) {
        forall y | y in s ensures !o.Before(y, x) {
          BeforeAsymmetric(o, x, s[0]);
          if y != s[0] {
            assert y in s[1..] by {
              var m :| 0 <= m < |s| && s[m] == y;
              assert s[1..][m - 1] == y;
            }
            if o.Before(y, x) {
              BeforeTransitive(o, y, x, s[0]);
            }
          }
        }
        SortedCons(o, x, s);
      } else {
        var t := o.Insert(s[1..], x);
        InsertSorted(o, s[1..], x);
        InsertMultiset(o, s[1..], x);
        forall y | y in t ensures !o.Before(y, s[0]) {
          assert y in multiset(t);
          assert y in multiset(s[1..]) || y == x;
        }
        SortedCons(o, s[0], t);
      }
    }
  }

  /** Inserting `x` appends it to the records with its own sort value: every
      element after the insertion point strictly follows `x`. */
  lemma {:induction false} InsertWithKey(o: Order, s: seq<Record>, x: Record, e: Key)
    requires o.Sorted(s)
    ensures o.WithKey(o.Insert(s, x), e) == o.WithKey(s, e) + (if o.KeyOf(x) == e then [x] else [])
  {
    if s == [] {
    } else if o.Before(x, s[0]) {
      if o.KeyOf(x) == e {
        NoneFollowingWithKey(o, s, x, e);
      }
    } else {
      SortedTail(o, s);
      InsertWithKey(o, s[1..], x, e);
      InsertWithKeyStep(o, s, x, e);
    }
  }

  /** The step of `InsertWithKey` past a head that `x` does not precede. */
  lemma InsertWithKeyStep(o: Order, s: seq<Record>, x: Record, e: Key)
    requires s != [] && !o.Before(x, s[0])
    requires o.WithKey(o.Insert(s[1..], x), e) == o.WithKey(s[1..], e) + (if o.KeyOf(x) == e then [x] else [])
    ensures o.WithKey(o.Insert(s, x), e) == o.WithKey(s, e) + (if o.KeyOf(x) == e then [x] else [])
  {
    var h := if o.KeyOf(s[0]) == e then [s[0]] else [];
    var tail := if o.KeyOf(x) == e then [x] else [];
    assert o.Insert(s, x) == [s[0]] + o.Insert(s[1..], x);
    WithKeyCons(o, s[0], o.Insert(s[1..], x), e);
    calc {
      o.WithKey(o.Insert(s, x), e);
      h + o.WithKey(o.Insert(s[1..], x), e);
      h + (o.WithKey(s[1..], e) + tail);
      (h + o.WithKey(s[1..], e)) + tail;
      o.WithKey(s, e) + tail;
    }
  }

  lemma WithKeyCons(o: Order, h: Record, t: seq<Record>, e: Key)
    ensures o.WithKey([h] + t, e) == (if o.KeyOf(h) == e then [h] else []) + o.WithKey(t, e)
  {
    assert ([h] + t)[1..] == t;
  }

  /** When `x` strictly precedes the head of a sorted `s`, no element of `s`
      shares `x`'s sort value. */
  lemma {:induction false} NoneFollowingWithKey(o: Order, s: seq<Record>, x: Record, e: Key)
    requires o.Sorted(s) && s != []
    requires o.Before(x, s[0]) && o.KeyOf(x) == e
    ensures o.WithKey(s, e) == []
  {
    forall t | t in s ensures o.KeyOf(t) != e {
      var m :| 0 <= m < |s| && s[m] == t;
      KeyLessTotal(o.KeyOf(x), o.KeyOf(s[0]));
      KeyLessTotal(o.KeyOf(t), o.KeyOf(s[0]));
      if m > 0 {
        assert !o.Before(t, s[0]);
      }
    }
    WithKeyEmpty(o, s, e);
  }

  lemma {:induction false} WithKeyEmpty(o: Order, s: seq<Record>, e: Key)
    requires forall t :: t in s ==> o.KeyOf(t) != e
    ensures o.WithKey(s, e) == []
  {
    if s != [] {
      WithKeyEmpty(o, s[1..], e);
    }
  }

  lemma {:induction false} WithKeyAppend(o: Order, a: seq<Record>, b: seq<Record>, e: Key)
    ensures o.WithKey(a + b, e) == o.WithKey(a, e) + o.WithKey(b, e)
  {
    if a == [] {
      assert a + b == b;
    } else {
      var h := if o.KeyOf(a[0]) == e then [a[0]] else [];
      WithKeyAppend(o, a[1..], b, e);
      assert a + b == [a[0]] + (a[1..] + b);
      WithKeyCons(o, a[0], a[1..] + b, e);
      assert o.WithKey(a, e) == h + o.WithKey(a[1..], e);
      AppendAssoc(h, o.WithKey(a[1..], e), o.WithKey(b, e));
    }
  }

  lemma AppendAssoc(x: seq<Record>, y: seq<Record>, z: seq<Record>)
    ensures x + (y + z) == (x + y) + z
  {
  }

  /** A prefix keeps a prefix of each sort value's records. */
  lemma {:induction false} WithKeyPrefix(o: Order, s: seq<Record>, m: nat, e: Key)
    requires m <= |s|
    ensures o.WithKey(s, e) == o.WithKey(s[..m], e) + o.WithKey(s[m..], e)
  {
    assert s == s[..m] + s[m..];
    WithKeyAppend(o, s[..m], s[m..], e);
  }

  // ---------------------------------------------------------------------------
  // Sorting

  /** The insertion sort permutes its input into key order. */
  lemma {:induction false} SortPermutes(o: Order, s: seq<Record>)
    ensures multiset(o.Sort(s)) == multiset(s)
    ensures o.Sorted(o.Sort(s))
  {
    if s != [] {
      var init, x := s[..|s| - 1], s[|s| - 1];
      assert s == init + [x];
      SortPermutes(o, init);
      InsertMultiset(o, o.Sort(init), x);
      InsertSorted(o, o.Sort(init), x);
    }
  }

  /** The records of each key value come out in input order. */
  lemma {:induction false} SortStable(o: Order, s: seq<Record>, e: Key)
    ensures o.WithKey(o.Sort(s), e) == o.WithKey(s, e)
  {
    if s != [] {
      var init, x := s[..|s| - 1], s[|s| - 1];
      assert s == init + [x];
      SortStable(o, init, e);
      SortPermutes(o, init);
      InsertWithKey(o, o.Sort(init), x, e);
      WithKeyAppend(o, init, [x], e);
      assert o.WithKey([x], e) == (if o.KeyOf(x) == e then [x] else []) + o.WithKey([], e);
    }
  }

  /** The insertion sort is a stable sort: a permutation of its input, ordered
      by sort value, keeping records with equal sort values in input order. */
  lemma SortCorrect(o: Order, s: seq<Record>)
    ensures multiset(o.Sort(s)) == multiset(s)
    ensures o.Sorted(o.Sort(s))
    ensures forall e :: o.WithKey(o.Sort(s), e) == o.WithKey(s, e)
  {
    SortPermutes(o, s);
    forall e ensures o.WithKey(o.Sort(s), e) == o.WithKey(s, e) {
      SortStable(o, s, e);
    }
  }

  /** `get_top_k(stocks, k, sort_by, reverse)` for `k >= 0`. */
  function GetTopK(stocks: seq<Record>, k: nat, sortBy: string, reverse: bool): (r: seq<Record>)
    requires NumericSortField(stocks, sortBy)
    ensures |r| == if k < |stocks| then k else |stocks|
    ensures multiset(r) <= multiset(stocks)
    ensures Order(sortBy, reverse).Sorted(r)
    ensures forall x, y :: x in r && y in multiset(stocks) - multiset(r) ==> !Order(sortBy, reverse).Before(y, x)
  {
    var o := Order(sortBy, reverse);
    var sorted := o.Sort(stocks);
    SortCorrect(o, stocks);
    assert |sorted| == |stocks| by {
      assert |multiset(sorted)| == |multiset(stocks)|;
    }
    var n := if k < |stocks| then k else |stocks|;
    assert sorted == sorted[..n] + sorted[n..];
    assert multiset(sorted) == multiset(sorted[..n]) + multiset(sorted[n..]);
    SortedSplit(o, sorted, n);
    sorted[..n]
  }

  /** In a sorted sequence nothing after position `n` strictly precedes
      anything before it. */
  lemma SortedSplit(o: Order, s: seq<Record>, n: nat)
    requires o.Sorted(s) && n <= |s|
    ensures forall x, y :: x in s[..n] && y in multiset(s[n..]) ==> !o.Before(y, x)
  {
    forall x, y | x in s[..n] && y in multiset(s[n..]) ensures !o.Before(y, x) {
      var i :| 0 <= i < n && s[..n][i] == x;
      assert y in s[n..];
      var j :| 0 <= j < |s| - n && s[n..][j] == y;
      assert s[i] == x && s[n + j] == y;
    }
  }

  /** The numbers come out ordered: non-increasing when `reverse`, otherwise
      non-decreasing. */
  lemma TopKOrdered(stocks: seq<Record>, k: nat, sortBy: string, reverse: bool, i: nat, j: nat)
    requires NumericSortField(stocks, sortBy)
    requires i < j < |GetTopK(stocks, k, sortBy, reverse)|
    requires !Missing(GetTopK(stocks, k, sortBy, reverse)[i], sortBy)
    requires !Missing(GetTopK(stocks, k, sortBy, reverse)[j], sortBy)
    ensures var r := GetTopK(stocks, k, sortBy, reverse);
            NumericSortField(r, sortBy) &&
            if reverse then Get(r[i], sortBy).n >= Get(r[j], sortBy).n
            else Get(r[i], sortBy).n <= Get(r[j], sortBy).n
  {
    var r := GetTopK(stocks, k, sortBy, reverse);
    TopKNumeric(stocks, k, sortBy, reverse);
    var o := Order(sortBy, reverse);
    assert !o.Before(r[j], r[i]);
  }

  lemma TopKNumeric(stocks: seq<Record>, k: nat, sortBy: string, reverse: bool)
    requires NumericSortField(stocks, sortBy)
    ensures NumericSortField(GetTopK(stocks, k, sortBy, reverse), sortBy)
  {
    var r := GetTopK(stocks, k, sortBy, reverse);
    forall i | 0 <= i < |r| ensures Get(r[i], sortBy) == VNone || Get(r[i], sortBy).VNum? {
      assert r[i] in multiset(r);
      assert r[i] in multiset(stocks);
      var m :| 0 <= m < |stocks| && stocks[m] == r[i];
    }
  }

  /** Records with a missing or None sort field come after all others, in both
      directions. */
  lemma TopKMissingLast(stocks: seq<Record>, k: nat, sortBy: string, reverse: bool, i: nat, j: nat)
    requires NumericSortField(stocks, sortBy)
    requires i < j < |GetTopK(stocks, k, sortBy, reverse)|
    requires Missing(GetTopK(stocks, k, sortBy, reverse)[i], sortBy)
    ensures Missing(GetTopK(stocks, k, sortBy, reverse)[j], sortBy)
  {
    var r := GetTopK(stocks, k, sortBy, reverse);
    TopKNumeric(stocks, k, sortBy, reverse);
    var o := Order(sortBy, reverse);
    assert !o.Before(r[j], r[i]);
  }

  /** Stability: for every sort value, the records carrying it in the output are
      the first ones carrying it in the input, in input order. */
  lemma TopKStable(stocks: seq<Record>, k: nat, sortBy: string, reverse: bool, e: Key)
    requires NumericSortField(stocks, sortBy)
    ensures var o := Order(sortBy, reverse);
            var w := o.WithKey(GetTopK(stocks, k, sortBy, reverse), e);
            w <= o.WithKey(stocks, e)
  {
    var o := Order(sortBy, reverse);
    var sorted := o.Sort(stocks);
    SortCorrect(o, stocks);
    assert |sorted| == |stocks| by {
      assert |multiset(sorted)| == |multiset(stocks)|;
    }
    var n := if k < |stocks| then k else |stocks|;
    assert GetTopK(stocks, k, sortBy, reverse) == sorted[..n];
    WithKeyPrefix(o, sorted, n, e);
  }
}
