/** Python values as the core sees them: `None`, booleans, integers, strings, lists and
    dictionaries. A dictionary is an insertion-ordered list of entries with distinct string
    keys, the way a Python `dict` iterates. */
module PyValues {
  import opened Text

  datatype Option<+T> = None | Some(value: T)

  datatype Value =
    | VNone
    | VBool(b: bool)
    | VInt(i: int)
    | VStr(s: string)
    | VList(items: seq<Value>)
    | VDict(entries: seq<Entry>)

  datatype Entry = Entry(key: string, val: Value)

  /** Python truthiness: `None`, `False`, `0` and empty containers are false. */
  predicate Truthy(v: Value)
  {
    match v
    case VNone => false
    case VBool(b) => b
    case VInt(i) => i != 0
    case VStr(s) => s != []
    case VList(xs) => xs != []
    case VDict(es) => es != []
  }

  /** `details or {}` */
  function OrEmptyDict(v: Value): (r: Value)
    ensures Truthy(v) ==> r == v
    ensures !Truthy(v) ==> r == VDict([])
  {
    if Truthy(v) then v else VDict([])
  }

  // ---------------------------------------------------------------------------
  // Dictionaries as ordered entry lists

  /** The keys of a dictionary, in iteration order. */
  function KeysOf(es: seq<Entry>): (ks: seq<string>)
    ensures |ks| == |es|
    ensures forall i :: 0 <= i < |es| ==> ks[i] == es[i].key
  {
    seq(|es|, i requires 0 <= i < |es| => es[i].key)
  }

  predicate HasKey(es: seq<Entry>, k: string)
  {
    k in KeysOf(es)
  }

  /** A well-formed dictionary holds each key at most once. */
  predicate UniqueKeys(es: seq<Entry>)
  {
    forall i, j :: 0 <= i < j < |es| ==> es[i].key != es[j].key
  }

  lemma KeysOfCons(e: Entry, es: seq<Entry>)
    ensures KeysOf([e] + es) == [e.key] + KeysOf(es)
  {
  }

  /** `d.get(k)`, with an absent key as `None` of the option type. */
  function Get(es: seq<Entry>, k: string): (r: Option<Value>)
    ensures r.None? <==> !HasKey(es, k)
  {
    if es == [] then None
    else if es[0].key == k then Some(es[0].val)
    else
      KeysOfCons(es[0], es[1..]);
      assert es == [es[0]] + es[1..];
      Get(es[1..], k)
  }

  /** In a well-formed dictionary the entry at `i` is what `Get` finds for its key. */
  lemma {:induction false} GetAt(es: seq<Entry>, i: int)
    requires UniqueKeys(es) && 0 <= i < |es|
    ensures Get(es, es[i].key) == Some(es[i].val)
  {
    if i > 0 {
      assert es[1..][i - 1] == es[i];
      GetAt(es[1..], i - 1);
    }
  }

  lemma GetCons(e: Entry, es: seq<Entry>, k: string)
    ensures Get([e] + es, k) == if e.key == k then Some(e.val) else Get(es, k)
  {
    assert ([e] + es)[0] == e;
    assert ([e] + es)[1..] == es;
  }

  /** `d[k] = v`: an existing key keeps its place and takes the new value; a new key goes last. */
  function Set(es: seq<Entry>, k: string, v: Value): (r: seq<Entry>)
    ensures Get(r, k) == Some(v)
    ensures forall k' :: k' != k ==> Get(r, k') == Get(es, k')
    ensures KeysOf(r) == if HasKey(es, k) then KeysOf(es) else KeysOf(es) + [k]
  {
    if es == [] then [Entry(k, v)]
    else
      var tail := if es[0].key == k then es[1..] else Set(es[1..], k, v);
      var head := if es[0].key == k then Entry(k, v) else es[0];
      SetStep(es, k, v, tail, head);
      [head] + tail
  }

  lemma SetStep(es: seq<Entry>, k: string, v: Value, tail: seq<Entry>, head: Entry)
    requires es != []
    requires es[0].key == k ==> tail == es[1..] && head == Entry(k, v)
    requires es[0].key != k ==> head == es[0]
    requires es[0].key != k ==> Get(tail, k) == Some(v)
    requires es[0].key != k ==> forall k' :: k' != k ==> Get(tail, k') == Get(es[1..], k')
    requires es[0].key != k ==>
      KeysOf(tail) == if HasKey(es[1..], k) then KeysOf(es[1..]) else KeysOf(es[1..]) + [k]
    ensures Get([head] + tail, k) == Some(v)
    ensures forall k' :: k' != k ==> Get([head] + tail, k') == Get(es, k')
    ensures KeysOf([head] + tail) == if HasKey(es, k) then KeysOf(es) else KeysOf(es) + [k]
  {
    SetStepKeys(es, k, v, tail, head);
    GetCons(head, tail, k);
    forall k' | k' != k ensures Get([head] + tail, k') == Get(es, k') {
      SetStepGet(es, k, v, tail, head, k');
    }
  }

  lemma SetStepKeys(es: seq<Entry>, k: string, v: Value, tail: seq<Entry>, head: Entry)
    requires es != []
    requires es[0].key == k ==> tail == es[1..] && head == Entry(k, v)
    requires es[0].key != k ==> head == es[0]
    requires es[0].key != k ==>
      KeysOf(tail) == if HasKey(es[1..], k) then KeysOf(es[1..]) else KeysOf(es[1..]) + [k]
    ensures KeysOf([head] + tail) == if HasKey(es, k) then KeysOf(es) else KeysOf(es) + [k]
  {
    assert es == [es[0]] + es[1..];
    KeysOfCons(es[0], es[1..]);
    KeysOfCons(head, tail);
  }

  lemma SetStepGet(es: seq<Entry>, k: string, v: Value, tail: seq<Entry>, head: Entry, k': string)
    requires es != [] && k' != k
    requires es[0].key == k ==> tail == es[1..] && head == Entry(k, v)
    requires es[0].key != k ==> head == es[0]
    requires es[0].key != k ==> Get(tail, k') == Get(es[1..], k')
    ensures Get([head] + tail, k') == Get(es, k')
  {
    assert es == [es[0]] + es[1..];
    GetCons(head, tail, k');
    GetCons(es[0], es[1..], k');
  }

  lemma SetKeepsUnique(es: seq<Entry>, k: string, v: Value)
    requires UniqueKeys(es)
    ensures UniqueKeys(Set(es, k, v))
  {
    var r := Set(es, k, v);
    forall i, j | 0 <= i < j < |r| ensures r[i].key != r[j].key {
      assert r[i].key == KeysOf(r)[i] && r[j].key == KeysOf(r)[j];
      if j == |es| {
        assert !HasKey(es, k);
        assert KeysOf(r)[i] == KeysOf(es)[i];
      } else {
        assert KeysOf(r)[i] == KeysOf(es)[i] && KeysOf(r)[j] == KeysOf(es)[j];
      }
    }
  }

  /** The first occurrences of `xs`, in order: the order in which a dictionary meets its keys,
      and the list `deduplicate` builds, one item at a time. */
  function Dedup<T(==)>(xs: seq<T>): (r: seq<T>)
  {
    if xs == [] then []
    else
      var d := Dedup(xs[..|xs| - 1]);
      if xs[|xs| - 1] in d then d else d + [xs[|xs| - 1]]
  }

  /** The value of the last item with key `k`, if any. */
  function LastValue(items: seq<Entry>, k: string): Option<Value>
  {
    if items == [] then None
    else if items[|items| - 1].key == k then Some(items[|items| - 1].val)
    else LastValue(items[..|items| - 1], k)
  }

  /** `dict(items)`: later items overwrite earlier ones with the same key, which keep their first place. */
  function FromItems(items: seq<Entry>): (r: seq<Entry>)
    ensures UniqueKeys(r)
    ensures forall k :: HasKey(r, k) <==> HasKey(items, k)
  {
    if items == [] then []
    else
      var last := items[|items| - 1];
      var front := FromItems(items[..|items| - 1]);
      FromItemsStep(items, front);
      Set(front, last.key, last.val)
  }

  /** In `dict(items)` each key holds the value of its last item, and the keys come in the order
      of their first items. */
  lemma {:induction false} FromItemsLaws(items: seq<Entry>)
    ensures forall k :: Get(FromItems(items), k) == LastValue(items, k)
    ensures KeysOf(FromItems(items)) == Dedup(KeysOf(items))
  {
    if items != [] {
      var front := items[..|items| - 1];
      FromItemsLaws(front);
      assert KeysOf(items)[..|items| - 1] == KeysOf(front);
    }
  }

  lemma FromItemsStep(items: seq<Entry>, front: seq<Entry>)
    requires items != []
    requires UniqueKeys(front)
    requires forall k :: HasKey(front, k) <==> HasKey(items[..|items| - 1], k)
    ensures UniqueKeys(Set(front, items[|items| - 1].key, items[|items| - 1].val))
    ensures forall k :: HasKey(Set(front, items[|items| - 1].key, items[|items| - 1].val), k) <==> HasKey(items, k)
  {
    var last := items[|items| - 1];
    var r := Set(front, last.key, last.val);
    SetKeepsUnique(front, last.key, last.val);
    assert KeysOf(items) == KeysOf(items[..|items| - 1]) + [last.key];
    forall k ensures HasKey(r, k) <==> HasKey(items, k) {
      assert HasKey(items, k) <==> HasKey(items[..|items| - 1], k) || k == last.key;
      assert HasKey(r, k) <==> HasKey(front, k) || k == last.key;
    }
  }

  /** After `d[k] = v` every entry was already in `d` or is the new pair. */
  lemma {:induction false} SetEntries(es: seq<Entry>, k: string, v: Value)
    ensures forall e :: e in Set(es, k, v) ==> e in es || e == Entry(k, v)
  {
    if es != [] && es[0].key != k {
      SetEntries(es[1..], k, v);
      assert Set(es, k, v) == [es[0]] + Set(es[1..], k, v);
    }
  }

  /** Every entry of `dict(items)` is one of the items. */
  lemma {:induction false} FromItemsEntries(items: seq<Entry>)
    ensures forall e :: e in FromItems(items) ==> e in items
  {
    if items != [] {
      var last := items[|items| - 1];
      FromItemsEntries(items[..|items| - 1]);
      SetEntries(FromItems(items[..|items| - 1]), last.key, last.val);
      assert forall e :: e in items[..|items| - 1] ==> e in items;
    }
  }

  /** Setting a new key appends exactly one entry. */
  lemma {:induction false} SetAppends(es: seq<Entry>, k: string, v: Value)
    requires !HasKey(es, k)
    ensures Set(es, k, v) == es + [Entry(k, v)]
  {
    if es != [] {
      KeysOfCons(es[0], es[1..]);
      assert es == [es[0]] + es[1..];
      SetAppends(es[1..], k, v);
    }
  }

  /** In a dictionary, the last key does not occur before it. */
  lemma LastKeyIsNew(es: seq<Entry>)
    requires UniqueKeys(es) && es != []
    ensures UniqueKeys(es[..|es| - 1]) && !HasKey(es[..|es| - 1], es[|es| - 1].key)
  {
    var front := es[..|es| - 1];
    forall i | 0 <= i < |front| ensures KeysOf(front)[i] != es[|es| - 1].key {
      assert es[i].key != es[|es| - 1].key;
    }
  }

  /** A dictionary rebuilt from its own entries is itself. */
  lemma {:induction false} FromItemsOfDict(es: seq<Entry>)
    requires UniqueKeys(es)
    ensures FromItems(es) == es
  {
    if es != [] {
      var front := es[..|es| - 1];
      var last := es[|es| - 1];
      LastKeyIsNew(es);
      FromItemsOfDict(front);
      SetAppends(front, last.key, last.val);
      assert FromItems(es) == Set(FromItems(front), last.key, last.val);
      assert es == front + [last];
    }
  }

  // ---------------------------------------------------------------------------
  // Equality and string conversion

  /** Python's `==` on these values: `True == 1`, and dictionaries compare without regard to order. */
  predicate PyEq(a: Value, b: Value)
    decreases a
  {
    match a
    case VNone => b.VNone?
    case VBool(x) => (b.VBool? && b.b == x) || (b.VInt? && b.i == (if x then 1 else 0))
    case VInt(x) => (b.VInt? && b.i == x) || (b.VBool? && x == (if b.b then 1 else 0))
    case VStr(s) => b.VStr? && b.s == s
    case VList(xs) =>
      && b.VList? && |xs| == |b.items|
      && forall i :: 0 <= i < |xs| ==> PyEq(xs[i], b.items[i])
    case VDict(es) =>
      && b.VDict? && |es| == |b.entries|
      && forall i :: 0 <= i < |es| ==>
           exists j :: 0 <= j < |b.entries| && b.entries[j].key == es[i].key && PyEq(es[i].val, b.entries[j].val)
  }

  /** `str(v)`: a string is itself, everything else is its `repr`. */
  function Str(v: Value): (r: string)
    ensures v.VStr? ==> r == v.s
  {
    if v.VStr? then v.s else Repr(v)
  }

  /** `repr(v)` */
  function Repr(v: Value): string
    decreases v
  {
    match v
    case VNone => "None"
    case VBool(b) => if b then "True" else "False"
    case VInt(i) => IntToString(i)
    case VStr(s) => ReprStr(s)
    case VList(xs) => "[" + ReprItems(xs) + "]"
    case VDict(es) => "{" + ReprEntries(es) + "}"
  }

  function ReprItems(xs: seq<Value>): string
    decreases xs
  {
    if xs == [] then ""
    else if |xs| == 1 then Repr(xs[0])
    else Repr(xs[0]) + ", " + ReprItems(xs[1..])
  }

  function ReprEntries(es: seq<Entry>): string
    decreases es
  {
    if es == [] then ""
    else
      var head := ReprStr(es[0].key) + ": " + Repr(es[0].val);
      if |es| == 1 then head else head + ", " + ReprEntries(es[1..])
  }

  /** `repr(s)` for a string: single quotes unless the text holds a single quote and no double quote. */
  function ReprStr(s: string): (r: string)
    ensures |r| >= 2 && r[0] == r[|r| - 1] && (r[0] == '\'' || r[0] == '"')
  {
    var q := if '\'' in s && '"' !in s then '"' else '\'';
    [q] + Escape(s, q) + [q]
  }

  function Escape(s: string, q: char): string
  {
    if s == [] then "" else EscapeChar(s[0], q) + Escape(s[1..], q)
  }

  function EscapeChar(c: char, q: char): string
  {
    if c == q || c == '\\' then ['\\', c]
    else if c == '\n' then "\\n"
    else if c == '\r' then "\\r"
    else if c == '\t' then "\\t"
    else if c < ' ' || '\U{7f}' <= c <= '\U{a0}' || c == '\U{ad}' then "\\x" + [HexDigit(c as int / 16), HexDigit(c as int % 16)]
    else [c]
  }

  function HexDigit(d: int): char
    requires 0 <= d < 16
  {
    if d < 10 then ('0' as int + d) as char else ('a' as int + d - 10) as char
  }
}
