/** The string and list helpers: `truncate_string`, `clamp`, `ensure_list`, `chunk_list`,
    `first_or_default` and `deduplicate`. */
module Lists {
  import opened Text
  import opened PyValues
  import opened Exceptions
  import Guards

  // ---------------------------------------------------------------------------
  // truncate_string

  /** `truncate_string(text, max_length, suffix)` as written: `text[:max_length - len(suffix)] + suffix`,
      where a negative slice bound counts from the end of `text`. */
  function TruncateString(text: string, maxLength: int, suffix: string): (r: string)
    ensures |text| <= maxLength ==> r == text
    ensures |text| > maxLength ==> r == PyPrefix(text, maxLength - |suffix|) + suffix
  {
    if |text| <= maxLength then text else PyPrefix(text, maxLength - |suffix|) + suffix
  }

  /** When the suffix fits, a truncated string is exactly `max_length` long: a prefix of the text, then the suffix. */
  lemma TruncateFits(text: string, maxLength: int, suffix: string)
    requires |text| > maxLength >= |suffix|
    ensures var r := TruncateString(text, maxLength, suffix);
      && |r| == maxLength
      && r[maxLength - |suffix|..] == suffix
      && r[..maxLength - |suffix|] == text[..maxLength - |suffix|]
  {
    var r := TruncateString(text, maxLength, suffix);
    assert r[..maxLength - |suffix|] == PyPrefix(text, maxLength - |suffix|);
  }

  /** When the suffix does not fit, the slice bound is negative and the result overshoots `max_length`:
      it keeps all but the last `len(suffix) - max_length` characters of the text. */
  lemma TruncateOvershoots(text: string, maxLength: int, suffix: string)
    requires |text| > maxLength && maxLength < |suffix|
    ensures var r := TruncateString(text, maxLength, suffix);
      && |r| == |suffix| + (if |suffix| - maxLength <= |text| then |text| - (|suffix| - maxLength) else 0)
      && |r| > maxLength
  {
  }

  /** `truncate_string("abcdef", 2)` is `"abcde..."`, eight characters where at most two were asked for. */
  lemma TruncateOvershootExample()
    ensures TruncateString("abcdef", 2, "...") == "abcde..."
    ensures |TruncateString("abcdef", 2, "...")| == 8
  {
    assert PyPrefix("abcdef", -1) == "abcde";
  }

  /** The truncation with the evident intent: never longer than `max_length`. When the suffix does
      not fit, the text is cut to `max_length` characters without a suffix. */
  function TruncateWithin(text: string, maxLength: int, suffix: string): (r: string)
    ensures |text| <= maxLength ==> r == text
    ensures |text| > maxLength ==> |r| == (if maxLength < 0 then 0 else maxLength)
    ensures |text| > maxLength && maxLength >= |suffix| ==>
      r == text[..maxLength - |suffix|] + suffix
    ensures |text| > maxLength && maxLength < |suffix| ==> r <= text
  {
    if |text| <= maxLength then text
    else if maxLength >= |suffix| then text[..maxLength - |suffix|] + suffix
    else if maxLength < 0 then []
    else text[..maxLength]
  }

  /** Both versions agree whenever the suffix fits. */
  lemma TruncateWithinAgrees(text: string, maxLength: int, suffix: string)
    requires maxLength >= |suffix|
    ensures TruncateWithin(text, maxLength, suffix) == TruncateString(text, maxLength, suffix)
  {
  }

  /** The documented examples: a 51-character sentence cut to 20 ends in `...`; a short string is kept. */
  lemma TruncateExamples()
    ensures var r := TruncateString("This is a very long string that should be truncated", 20, "...");
      |r| == 20 && r[17..] == "..."
    ensures TruncateString("short", 20, "...") == "short"
  {
    TruncateFits("This is a very long string that should be truncated", 20, "...");
  }

  // ---------------------------------------------------------------------------
  // clamp

  /** `clamp(value, min_val, max_val)` over integers: `max(min_val, min(value, max_val))`. */
  function Clamp(value: int, lo: int, hi: int): (r: int)
    ensures lo <= hi ==> lo <= r <= hi
    ensures lo <= value <= hi ==> r == value
    ensures lo <= hi && value < lo ==> r == lo
    ensures lo <= hi && value > hi ==> r == hi
    ensures lo > hi ==> r == lo
  {
    var m := if value < hi then value else hi;
    if lo > m then lo else m
  }

  /** Clamping twice is clamping once, and a clamped value passes `Validator.in_range` on the same bounds. */
  lemma ClampIdempotent(value: int, lo: int, hi: int, field: string)
    requires lo <= hi
    ensures Clamp(Clamp(value, lo, hi), lo, hi) == Clamp(value, lo, hi)
    ensures Guards.InRange(Clamp(value, lo, hi), lo, hi, field) == Returned(Clamp(value, lo, hi))
  {
  }

  // ---------------------------------------------------------------------------
  // ensure_list

  /** `ensure_list(value)`: `None` is the empty list, a list is itself, anything else is wrapped. */
  function EnsureList(v: Value): (r: seq<Value>)
    ensures v.VNone? <==> r == [] && !v.VList?
    ensures v.VList? ==> VList(r) == v
    ensures !v.VNone? && !v.VList? ==> r == [v]
  {
    match v
    case VNone => []
    case VList(xs) => xs
    case _ => [v]
  }

  /** Applying `ensure_list` to its own result changes nothing. */
  lemma EnsureListIdempotent(v: Value)
    ensures EnsureList(VList(EnsureList(v))) == EnsureList(v)
  {
  }

  // ---------------------------------------------------------------------------
  // chunk_list

  /** `[items[i:i + size] for i in range(start, len(items), size)]` for a positive `size`. */
  function ChunksFrom<T>(items: seq<T>, size: int, start: nat): (cs: seq<seq<T>>)
    requires size > 0
    decreases |items| - start
  {
    if start >= |items| then []
    else [items[start..if start + size <= |items| then start + size else |items|]] + ChunksFrom(items, size, start + size)
  }

  /** `chunk_list(items, chunk_size)`: a zero step makes `range` raise; a negative step gives no chunks. */
  function ChunkList<T>(items: seq<T>, size: int): (r: Outcome<seq<seq<T>>>)
    ensures size == 0 <==> r.Raised?
    ensures size == 0 ==> r.exception == ValueError("range() arg 3 must not be zero")
    ensures size < 0 ==> r == Returned([])
  {
    if size == 0 then Raised(ValueError("range() arg 3 must not be zero"))
    else if size < 0 then Returned([])
    else Returned(ChunksFrom(items, size, 0))
  }

  /** The concatenation of a list of chunks. */
  function Concat<T>(cs: seq<seq<T>>): seq<T>
  {
    if cs == [] then [] else cs[0] + Concat(cs[1..])
  }

  /** The chunks taken from `start` concatenate to the rest of the list. */
  lemma {:induction false} ChunksConcat<T>(items: seq<T>, size: int, start: nat)
    requires size > 0 && start <= |items|
    ensures Concat(ChunksFrom(items, size, start)) == items[start..]
    decreases |items| - start
  {
    if start < |items| {
      var cs := ChunksFrom(items, size, start);
      if start + size <= |items| {
        ChunksConcat(items, size, start + size);
        assert cs[1..] == ChunksFrom(items, size, start + size);
        assert items[start..] == items[start..start + size] + items[start + size..];
      } else {
        assert ChunksFrom(items, size, start + size) == [];
        assert items[start..|items|] == items[start..];
        assert cs == [items[start..]];
        assert cs[1..] == [];
      }
    }
  }

  /** Every chunk but the last is full, and the last is non-empty and no longer than `size`. */
  lemma {:induction false} ChunksSized<T>(items: seq<T>, size: int, start: nat)
    requires size > 0 && start <= |items|
    ensures var cs := ChunksFrom(items, size, start);
      && (forall i :: 0 <= i < |cs| - 1 ==> |cs[i]| == size)
      && (cs != [] ==> 0 < |cs[|cs| - 1]| <= size)
    decreases |items| - start
  {
    if start < |items| {
      var cs := ChunksFrom(items, size, start);
      if start + size <= |items| {
        ChunksSized(items, size, start + size);
        var rest := ChunksFrom(items, size, start + size);
        assert cs == [items[start..start + size]] + rest;
        assert forall i :: 1 <= i < |cs| ==> cs[i] == rest[i - 1];
      } else {
        assert ChunksFrom(items, size, start + size) == [];
        assert items[start..|items|] == items[start..];
        assert cs == [items[start..]];
      }
    }
  }

  /** There are ⌈(n - start) / size⌉ chunks from `start`. */
  lemma {:induction false} ChunksCount<T>(items: seq<T>, size: int, start: nat)
    requires size > 0 && start <= |items|
    ensures |ChunksFrom(items, size, start)| == (|items| - start + size - 1) / size
    decreases |items| - start
  {
    if start < |items| {
      if start + size <= |items| {
        ChunksCount(items, size, start + size);
        DivStep(|items| - (start + size) + size - 1, size);
      } else {
        DivIsOne(|items| - start + size - 1, size);
      }
    }
  }

  lemma DivStep(m: int, size: int)
    requires m >= 0 && size > 0
    ensures (m + size) / size == m / size + 1
  {
    var q := m / size;
    var r := m % size;
    assert m == size * q + r;
    assert (q + 1) * size == q * size + size;
    DivUnique(m + size, size, q + 1, r);
  }

  /** Euclidean division is determined by quotient and remainder. */
  lemma DivUnique(x: int, d: int, q: int, r: int)
    requires d > 0 && 0 <= r < d && x == q * d + r
    ensures x / d == q
  {
    var q', r' := x / d, x % d;
    assert x == q' * d + r';
    assert (q - q') * d == r' - r;
    if q - q' >= 1 {
      MulMono(q - q', d);
    } else if q - q' <= -1 {
      MulMono(q' - q, d);
    }
  }

  lemma MulMono(k: int, d: int)
    requires k >= 1 && d > 0
    ensures k * d >= d
  {
  }

  lemma DivIsOne(a: int, size: int)
    requires 0 < size <= a < 2 * size
    ensures a / size == 1
  {
    DivUnique(a, size, 1, a - size);
  }

  /** The chunking laws for `chunk_list` with a positive chunk size. */
  lemma ChunkListLaws<T>(items: seq<T>, size: int)
    requires size > 0
    ensures ChunkList(items, size).Returned?
    ensures var cs := ChunkList(items, size).value;
      && Concat(cs) == items
      && (forall i :: 0 <= i < |cs| - 1 ==> |cs[i]| == size)
      && (cs != [] ==> 0 < |cs[|cs| - 1]| <= size)
      && |cs| == (|items| + size - 1) / size
  {
    ChunksConcat(items, size, 0);
    ChunksSized(items, size, 0);
    ChunksCount(items, size, 0);
    assert items[0..] == items;
  }

  /** The documented examples: seven items in threes, and in twos. */
  lemma ChunkExamples()
    ensures ChunkList([1, 2, 3, 4, 5, 6, 7], 3) == Returned([[1, 2, 3], [4, 5, 6], [7]])
    ensures |ChunkList([1, 2, 3, 4, 5, 6, 7], 2).value| == 4
  {
    var xs := [1, 2, 3, 4, 5, 6, 7];
    assert ChunksFrom(xs, 3, 9) == [];
    assert xs[6..7] == [7];
    assert ChunksFrom(xs, 3, 6) == [[7]];
    assert xs[3..6] == [4, 5, 6];
    assert ChunksFrom(xs, 3, 3) == [[4, 5, 6], [7]];
    assert xs[0..3] == [1, 2, 3];
    assert ChunksFrom(xs, 3, 0) == [[1, 2, 3], [4, 5, 6], [7]];
    ChunkListLaws(xs, 2);
  }

  // ---------------------------------------------------------------------------
  // first_or_default

  /** `first_or_default(items, predicate, default)`: without a predicate the first item;
      with one, the first item satisfying it; `default` when there is none. */
  method FirstOrDefault(items: seq<Value>, test: Option<Value -> bool>, default: Value) returns (r: Value)
    ensures items == [] ==> r == default
    ensures test.None? && items != [] ==> r == items[0]
    ensures test.Some? ==>
      || (exists i :: 0 <= i < |items| && r == items[i] && test.value(items[i])
                      && forall j :: 0 <= j < i ==> !test.value(items[j]))
      || (r == default && forall i :: 0 <= i < |items| ==> !test.value(items[i]))
  {
    if items == [] {
      return default;
    }
    if test.None? {
      return items[0];
    }
    var p := test.value;
    var k := 0;
    while k < |items|
      invariant 0 <= k <= |items|
      invariant forall j :: 0 <= j < k ==> !p(items[j])
    {
      if p(items[k]) {
        return items[k];
      }
      k := k + 1;
    }
    return default;
  }

  /** The documented examples: over `[1, 2, 3, 4, 5]` and over `[]`, with and without a default. */
  method FirstOrDefaultExamples() returns (a: Value, b: Value, e: Value, c: Value, d: Value)
    ensures a == VInt(1) && b == VNone && e == VInt(0) && c == VInt(4) && d == VNone
  {
    var items := [VInt(1), VInt(2), VInt(3), VInt(4), VInt(5)];
    a := FirstOrDefault(items, None, VNone);
    b := FirstOrDefault([], None, VNone);
    e := FirstOrDefault([], None, VInt(0));
    var above3 := (x: Value) => x.VInt? && x.i > 3;
    c := FirstOrDefault(items, Some(above3), VNone);
    assert !above3(items[0]) && !above3(items[1]) && !above3(items[2]) && above3(items[3]);
    var above10 := (x: Value) => x.VInt? && x.i > 10;
    d := FirstOrDefault(items, Some(above10), VNone);
    assert above10(items[4]) == false;
  }

  // ---------------------------------------------------------------------------
  // deduplicate

  predicate NoDuplicates<T(==)>(xs: seq<T>)
  {
    forall i, j :: 0 <= i < j < |xs| ==> xs[i] != xs[j]
  }

  /** `deduplicate(items)`: a `seen` set and a result list, both grown in one pass. */
  method Deduplicate<T(==)>(items: seq<T>) returns (result: seq<T>)
    ensures result == Dedup(items)
  {
    var seen: set<T> := {};
    result := [];
    var k := 0;
    while k < |items|
      invariant 0 <= k <= |items|
      invariant result == Dedup(items[..k])
      invariant forall x :: x in seen <==> x in result
    {
      assert items[..k + 1][..k] == items[..k];
      if items[k] !in seen {
        seen := seen + {items[k]};
        result := result + [items[k]];
      }
      k := k + 1;
    }
    assert items[..|items|] == items;
  }

  /** `deduplicate` keeps each element once, drops no element, and keeps first-occurrence order:
      the result is a subsequence of the input whose elements appear there in this order. */
  lemma {:induction false} DedupLaws<T>(xs: seq<T>)
    ensures NoDuplicates(Dedup(xs))
    ensures forall x :: x in Dedup(xs) <==> x in xs
    ensures forall i, j :: 0 <= i < j < |Dedup(xs)| ==> FirstIndex(xs, Dedup(xs)[i]) < FirstIndex(xs, Dedup(xs)[j])
  {
    if xs != [] {
      var front := xs[..|xs| - 1];
      var last := xs[|xs| - 1];
      DedupLaws(front);
      assert xs == front + [last];
      DedupOrderStep(front, last);
    }
  }

  /** The order laws carry over from `front` to `front + [last]`. */
  lemma DedupOrderStep<T>(front: seq<T>, last: T)
    requires forall x :: x in Dedup(front) <==> x in front
    requires forall i, j :: 0 <= i < j < |Dedup(front)| ==> FirstIndex(front, Dedup(front)[i]) < FirstIndex(front, Dedup(front)[j])
    ensures forall i, j :: 0 <= i < j < |Dedup(front + [last])| ==>
      FirstIndex(front + [last], Dedup(front + [last])[i]) < FirstIndex(front + [last], Dedup(front + [last])[j])
  {
    var xs := front + [last];
    assert xs[..|xs| - 1] == front;
    var d := Dedup(front);
    var e := Dedup(xs);
    assert e == if last in d then d else d + [last];
    forall i | 0 <= i < |d| ensures e[i] == d[i] && FirstIndex(xs, d[i]) == FirstIndex(front, d[i]) < |front| {
      FirstIndexExtend(front, last, d[i]);
      FirstIndexBound(front, d[i]);
    }
    if last !in d {
      FirstIndexExtend(front, last, last);
      assert |d| <= |front| by { DedupShorter(front); }
      assert e[|d|] == last && FirstIndex(xs, last) == |front|;
    }
  }

  /** The position of the first occurrence of `x`. */
  function FirstIndex<T(==)>(xs: seq<T>, x: T): (i: nat)
    requires x in xs
    ensures i < |xs| && xs[i] == x && x !in xs[..i]
  {
    if xs[0] == x then 0 else FirstIndex(xs[1..], x) + 1
  }

  lemma FirstIndexBound<T>(xs: seq<T>, x: T)
    requires x in xs
    ensures FirstIndex(xs, x) < |xs|
  {
  }

  /** Appending an element does not move an earlier first occurrence, and a new element lands at the end. */
  lemma FirstIndexExtend<T>(xs: seq<T>, y: T, x: T)
    requires x in xs + [y]
    ensures x in xs ==> FirstIndex(xs + [y], x) == FirstIndex(xs, x)
    ensures x !in xs ==> FirstIndex(xs + [y], x) == |xs|
  {
    if x in xs {
      var j := FirstIndex(xs, x);
      assert (xs + [y])[..j] == xs[..j];
    } else {
      assert (xs + [y])[..|xs|] == xs;
    }
  }

  lemma {:induction false} DedupShorter<T>(xs: seq<T>)
    ensures |Dedup(xs)| <= |xs|
  {
    if xs != [] {
      DedupShorter(xs[..|xs| - 1]);
    }
  }

  /** Appending one element extends the first occurrences by it exactly when it is new. */
  lemma DedupSnoc<T>(xs: seq<T>, x: T)
    ensures Dedup(xs + [x]) == if x in Dedup(xs) then Dedup(xs) else Dedup(xs) + [x]
  {
    assert (xs + [x])[..|xs|] == xs;
  }

  /** The first half of the documented example. */
  lemma DedupExamplePrefix()
    ensures Dedup([1, 2, 2, 3]) == [1, 2, 3]
  {
    DedupSnoc([], 1);
    assert [] + [1] == [1];
    DedupSnoc([1], 2);
    assert [1] + [2] == [1, 2];
    DedupSnoc([1, 2], 2);
    assert [1, 2] + [2] == [1, 2, 2];
    DedupSnoc([1, 2, 2], 3);
    assert [1, 2, 2] + [3] == [1, 2, 2, 3];
  }

  /** The first three-quarters of the documented example. */
  lemma DedupExampleMiddle()
    ensures Dedup([1, 2, 2, 3, 1, 4]) == [1, 2, 3, 4]
  {
    DedupExamplePrefix();
    DedupSnoc([1, 2, 2, 3], 1);
    assert [1, 2, 2, 3] + [1] == [1, 2, 2, 3, 1];
    DedupSnoc([1, 2, 2, 3, 1], 4);
    assert [1, 2, 2, 3, 1] + [4] == [1, 2, 2, 3, 1, 4];
  }

  /** The documented example. */
  lemma DedupExample()
    ensures Dedup([1, 2, 2, 3, 1, 4, 3, 5]) == [1, 2, 3, 4, 5]
  {
    DedupExampleMiddle();
    DedupSnoc([1, 2, 2, 3, 1, 4], 3);
    assert [1, 2, 2, 3, 1, 4] + [3] == [1, 2, 2, 3, 1, 4, 3];
    DedupSnoc([1, 2, 2, 3, 1, 4, 3], 5);
    assert [1, 2, 2, 3, 1, 4, 3] + [5] == [1, 2, 2, 3, 1, 4, 3, 5];
  }

}
