/** JSON-like values and string-keyed records, as the screeners pass them around,
    together with the few Python behaviours the screeners rely on: truthiness,
    `dict.get`, `str.lower`, filling absent/None keys, and dropping None entries. */
module Values {

  datatype Option<+T> = None | Some(value: T)

  /** A decoded JSON value or a Python scalar held in a record. */
  datatype Value =
    | VNone
    | VBool(b: bool)
    | VNum(n: real)
    | VStr(s: string)
    | VList(items: seq<Value>)
    | VMap(fields: map<string, Value>)

  /** A stock record or any other `Dict[str, Any]`. */
  type Record = map<string, Value>

  /** Python's truth value of `v` (what `if v:` and `v or d` test). */
  predicate Truthy(v: Value) {
    match v
    case VNone => false
    case VBool(b) => b
    case VNum(n) => n != 0.0
    case VStr(s) => s != ""
    case VList(xs) => xs != []
    case VMap(m) => m != map[]
  }

  /** `r.get(k)` */
  function Get(r: Record, k: string): (v: Value)
    ensures k !in r ==> v == VNone
    ensures k in r ==> v == r[k]
  {
    if k in r then r[k] else VNone
  }

  /** `r.get(k, d)` */
  function GetOr(r: Record, k: string, d: Value): (v: Value)
    ensures k !in r ==> v == d
    ensures k in r ==> v == r[k]
  {
    if k in r then r[k] else d
  }

  /** The value a Python comparison with a number sees: numbers and booleans;
      anything else makes the comparison raise `TypeError`. */
  function AsNumber(v: Value): (r: Option<real>)
    ensures r.Some? <==> (v.VNum? || v.VBool?)
  {
    match v
    case VNum(n) => Some(n)
    case VBool(b) => Some(if b then 1.0 else 0.0)
    case _ => None
  }

  /** `{k: v for k, v in r.items() if v is not None}` */
  function StripNone(r: Record): (s: Record)
    ensures s.Keys <= r.Keys
    ensures forall k :: k in s ==> s[k] == r[k] && s[k] != VNone
    ensures forall k :: k in r && r[k] != VNone ==> k in s
  {
    map k | k in r && r[k] != VNone :: r[k]
  }

  /** True when no entry of `r` holds None. */
  predicate NoneFree(r: Record) {
    forall k :: k in r ==> r[k] != VNone
  }

  /** The merge rule shared by the multi-provider combiners: key `k` of `existing`
      is (re)set from `incoming` exactly when `k` is not the reserved key `skip`,
      `incoming` holds a non-None value for it, and `existing` lacks it or holds None. */
  predicate Fills(existing: Record, incoming: Record, skip: string, k: string) {
    && k != skip
    && k in incoming
    && incoming[k] != VNone
    && (k !in existing || existing[k] == VNone)
  }

  /** `existing` with every key that `incoming` fills (see `Fills`) taken from
      `incoming`; every other key, including `skip`, keeps its old value. */
  function Fill(existing: Record, incoming: Record, skip: string): (r: Record)
    ensures r.Keys == existing.Keys + set k | k in incoming && Fills(existing, incoming, skip, k)
    ensures forall k :: k in existing && existing[k] != VNone ==> r[k] == existing[k]
    ensures forall k :: k in r && Fills(existing, incoming, skip, k) ==> r[k] == incoming[k]
    ensures forall k :: k in existing && !Fills(existing, incoming, skip, k) ==> r[k] == existing[k]
    ensures skip in existing ==> r[skip] == existing[skip]
    ensures skip !in existing ==> skip !in r
    ensures forall k :: k in r && k != skip && k in incoming && incoming[k] != VNone ==> r[k] != VNone
  {
    map k | k in existing.Keys + incoming.Keys && (k in existing || Fills(existing, incoming, skip, k))
      :: if Fills(existing, incoming, skip, k) then incoming[k] else existing[k]
  }

  // ---------------------------------------------------------------------------
  // ASCII case folding (`str.lower()` restricted to A-Z)

  function LowerChar(c: char): (d: char)
    ensures 'A' <= c <= 'Z' ==> 'a' <= d <= 'z'
    ensures !('A' <= c <= 'Z') ==> d == c
  {
    if 'A' <= c <= 'Z' then (c as int - 'A' as int + 'a' as int) as char else c
  }

  function Lower(s: string): (t: string)
    ensures |t| == |s|
    ensures forall i :: 0 <= i < |s| ==> t[i] == LowerChar(s[i])
  {
    if s == [] then [] else [LowerChar(s[0])] + Lower(s[1..])
  }

  /** Lower-casing twice is lower-casing once. */
  lemma LowerIdempotent(s: string)
    ensures Lower(Lower(s)) == Lower(s)
  {
    var t := Lower(s);
    assert forall i :: 0 <= i < |t| ==> LowerChar(t[i]) == t[i];
  }

  /** A string without upper-case letters is its own lower-case form. */
  lemma LowerOfLowerCase(s: string)
    requires forall i :: 0 <= i < |s| ==> !('A' <= s[i] <= 'Z')
    ensures Lower(s) == s
  {
  }

  // ---------------------------------------------------------------------------
  // Order-preserving subsequences

  /** `xs` can be obtained from `ys` by deleting elements. */
  predicate IsSubsequence<T(==)>(xs: seq<T>, ys: seq<T>)
    decreases |ys|
  {
    if xs == [] then true
    else if ys == [] then false
    else if xs[0] == ys[0] then IsSubsequence(xs[1..], ys[1..])
    else IsSubsequence(xs, ys[1..])
  }

  /** Keeping a prefix of a subsequence keeps a subsequence. */
  lemma {:induction false} SubsequencePrefix<T>(xs: seq<T>, ys: seq<T>, m: nat)
    requires IsSubsequence(xs, ys)
    requires m <= |xs|
    ensures IsSubsequence(xs[..m], ys)
    decreases |ys|
  {
    if m == 0 {
    } else {
      assert ys != [];
      if xs[0] == ys[0] {
        SubsequencePrefix(xs[1..], ys[1..], m - 1);
        assert xs[..m][1..] == xs[1..][..m - 1];
      } else {
        SubsequencePrefix(xs, ys[1..], m);
      }
    }
  }

  /** Skipping an element of the longer sequence keeps a subsequence. */
  lemma {:induction false} SubsequenceCons<T>(xs: seq<T>, y: T, ys: seq<T>)
    requires IsSubsequence(xs, ys)
    ensures IsSubsequence(xs, [y] + ys)
    decreases |ys|, 1
  {
    assert ([y] + ys)[1..] == ys;
    if xs != [] && xs[0] == y {
      SubsequenceDropHead(xs, ys);
    }
  }

  lemma {:induction false} SubsequenceDropHead<T>(xs: seq<T>, ys: seq<T>)
    requires xs != [] && IsSubsequence(xs, ys)
    ensures IsSubsequence(xs[1..], ys)
    decreases |ys|, 0
  {
    assert ys == [ys[0]] + ys[1..];
    if xs[0] == ys[0] {
      SubsequenceCons(xs[1..], ys[0], ys[1..]);
    } else {
      SubsequenceDropHead(xs, ys[1..]);
      SubsequenceCons(xs[1..], ys[0], ys[1..]);
    }
  }

  /** Appending the same element to both keeps a subsequence, and so does
      appending to the longer one alone. */
  lemma {:induction false} SubsequenceSnoc<T>(xs: seq<T>, ys: seq<T>, y: T)
    requires IsSubsequence(xs, ys)
    ensures IsSubsequence(xs, ys + [y])
    ensures IsSubsequence(xs + [y], ys + [y])
    decreases |ys|
  {
    if ys == [] {
      assert xs + [y] == [y] && ys + [y] == [y];
      assert [y][1..] == [];
    } else {
      assert (ys + [y])[0] == ys[0];
      assert (ys + [y])[1..] == ys[1..] + [y];
      if xs == [] {
        SubsequenceSnoc(xs, ys[1..], y);
        assert xs + [y] == [y];
      } else if xs[0] == ys[0] {
        SubsequenceSnoc(xs[1..], ys[1..], y);
        assert (xs + [y])[0] == xs[0];
        assert (xs + [y])[1..] == xs[1..] + [y];
      } else {
        SubsequenceSnoc(xs, ys[1..], y);
        assert (xs + [y])[0] == xs[0];
      }
    }
  }

  /** `s` with only the elements satisfying `p`, in order. */
  function Filter<T>(s: seq<T>, p: T -> bool): (r: seq<T>)
    ensures |r| <= |s|
  {
    if s == [] then [] else (if p(s[0]) then [s[0]] else []) + Filter(s[1..], p)
  }

  lemma {:induction false} FilterSpec<T>(s: seq<T>, p: T -> bool)
    ensures IsSubsequence(Filter(s, p), s)
    ensures forall x :: x in Filter(s, p) <==> x in s && p(x)
  {
    if s != [] {
      FilterSpec(s[1..], p);
      assert s == [s[0]] + s[1..];
      if p(s[0]) {
        assert Filter(s, p)[1..] == Filter(s[1..], p);
      } else {
        assert Filter(s, p) == Filter(s[1..], p);
        SubsequenceCons(Filter(s[1..], p), s[0], s[1..]);
      }
    }
  }

  lemma {:induction false} FilterAppend<T>(a: seq<T>, b: seq<T>, p: T -> bool)
    ensures Filter(a + b, p) == Filter(a, p) + Filter(b, p)
  {
    if a == [] {
      assert a + b == b;
    } else {
      var h := if p(a[0]) then [a[0]] else [];
      FilterAppend(a[1..], b, p);
      assert (a + b)[0] == a[0];
      assert (a + b)[1..] == a[1..] + b;
      calc {
        Filter(a + b, p);
        h + Filter(a[1..] + b, p);
        h + (Filter(a[1..], p) + Filter(b, p));
        (h + Filter(a[1..], p)) + Filter(b, p);
        Filter(a, p) + Filter(b, p);
      }
    }
  }

  /** The concatenation of `f(x)` for the elements `x` of `s`, in order. */
  function FlatMap<T, U>(s: seq<T>, f: T -> seq<U>): seq<U> {
    if s == [] then [] else f(s[0]) + FlatMap(s[1..], f)
  }

  lemma {:induction false} FlatMapAppend<T, U>(a: seq<T>, b: seq<T>, f: T -> seq<U>)
    ensures FlatMap(a + b, f) == FlatMap(a, f) + FlatMap(b, f)
  {
    if a == [] {
      assert a + b == b;
    } else {
      FlatMapAppend(a[1..], b, f);
      assert (a + b)[0] == a[0];
      assert (a + b)[1..] == a[1..] + b;
      calc {
        FlatMap(a + b, f);
        f(a[0]) + FlatMap(a[1..] + b, f);
        f(a[0]) + (FlatMap(a[1..], f) + FlatMap(b, f));
        (f(a[0]) + FlatMap(a[1..], f)) + FlatMap(b, f);
      }
    }
  }

  /** `[f(x) for x in s]` */
  function MapSeq<T, U>(s: seq<T>, f: T -> U): (r: seq<U>)
    ensures |r| == |s|
    ensures forall i :: 0 <= i < |s| ==> r[i] == f(s[i])
  {
    seq(|s|, i requires 0 <= i < |s| => f(s[i]))
  }

  /** When each element yields at most one output, keyed by the element's own
      code, the output keys are a subsequence of the codes. */
  lemma {:induction false} FlatMapSubsequence<T, U, K>(s: seq<T>, f: T -> seq<U>, key: U -> K, code: T -> K)
    requires forall x :: x in s ==> |f(x)| <= 1 && (f(x) != [] ==> key(f(x)[0]) == code(x))
    ensures IsSubsequence(MapSeq(FlatMap(s, f), key), MapSeq(s, code))
  {
    if s != [] {
      FlatMapSubsequence(s[1..], f, key, code);
      var rest := FlatMap(s[1..], f);
      var all := FlatMap(s, f);
      assert all == f(s[0]) + rest;
      assert MapSeq(s, code)[0] == code(s[0]);
      assert MapSeq(s, code)[1..] == MapSeq(s[1..], code);
      if f(s[0]) != [] {
        assert MapSeq(all, key)[0] == code(s[0]);
        assert MapSeq(all, key)[1..] == MapSeq(rest, key);
      } else {
        assert all == rest;
        SubsequenceCons(MapSeq(rest, key), code(s[0]), MapSeq(s[1..], code));
        assert MapSeq(s, code) == [code(s[0])] + MapSeq(s[1..], code);
      }
    }
  }

  /** A prefix's image is a subsequence of whatever the whole image is. */
  lemma MapSeqPrefixSubsequence<T, U>(w: seq<T>, s: seq<T>, f: T -> U, ys: seq<U>)
    requires w <= s
    requires IsSubsequence(MapSeq(s, f), ys)
    ensures IsSubsequence(MapSeq(w, f), ys)
  {
    SubsequencePrefix(MapSeq(s, f), ys, |w|);
    assert MapSeq(s, f)[..|w|] == MapSeq(w, f);
  }
}
