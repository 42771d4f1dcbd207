/** The nested-dictionary helpers `deep_merge`, `safe_get` and `flatten_dict`. Each is a loop
    over a dictionary (recursive where a value is itself a dictionary), proved against a
    functional definition whose properties are stated as lemmas. */
module NestedDicts {
  import opened PyValues

  // ---------------------------------------------------------------------------
  // deep_merge

  /** Merging the override entries into `acc`, one key at a time. */
  function Merged(acc: seq<Entry>, ov: seq<Entry>): seq<Entry>
    decreases ov
  {
    if ov == [] then acc
    else
      var key, value := ov[0].key, ov[0].val;
      Merged(Set(acc, key, MergedValue(Get(acc, key), value)), ov[1..])
  }

  /** What `result[key]` becomes: both dictionaries merge, otherwise the override wins. */
  function MergedValue(current: Option<Value>, value: Value): Value
    decreases value
  {
    if current.Some? && current.value.VDict? && value.VDict? then VDict(Merged(current.value.entries, value.entries))
    else value
  }

  /** `deep_merge(base, override)`: a copy of `base`, then every override entry assigned into it. */
  method DeepMerge(base: seq<Entry>, override: seq<Entry>) returns (result: seq<Entry>)
    ensures result == Merged(base, override)
    decreases override
  {
    result := base;
    var k := 0;
    while k < |override|
      invariant 0 <= k <= |override|
      invariant Merged(result, override[k..]) == Merged(base, override)
    {
      assert override[k..][1..] == override[k + 1..];
      var key, value := override[k].key, override[k].val;
      var current := Get(result, key);
      if current.Some? && current.value.VDict? && value.VDict? {
        var merged := DeepMerge(current.value.entries, value.entries);
        result := Set(result, key, VDict(merged));
      } else {
        result := Set(result, key, value);
      }
      k := k + 1;
    }
  }

  /** The merged keys are the keys of both sides. */
  lemma {:induction false} MergedKeys(acc: seq<Entry>, ov: seq<Entry>, k: string)
    ensures HasKey(Merged(acc, ov), k) <==> HasKey(acc, k) || HasKey(ov, k)
    decreases ov
  {
    if ov != [] {
      var next := Set(acc, ov[0].key, MergedValue(Get(acc, ov[0].key), ov[0].val));
      MergedKeys(next, ov[1..], k);
      HasKeyFirstOrRest(ov, k);
    }
  }

  /** A key of a non-empty dictionary is its first key or a key of the rest. */
  lemma HasKeyFirstOrRest(ov: seq<Entry>, k: string)
    requires ov != []
    ensures HasKey(ov, k) <==> ov[0].key == k || HasKey(ov[1..], k)
  {
    KeysOfCons(ov[0], ov[1..]);
    assert ov == [ov[0]] + ov[1..];
  }

  /** A key the override does not mention keeps its base value. */
  lemma {:induction false} MergedKeepsBase(acc: seq<Entry>, ov: seq<Entry>, k: string)
    requires !HasKey(ov, k)
    ensures Get(Merged(acc, ov), k) == Get(acc, k)
    decreases ov
  {
    if ov != [] {
      var next := Set(acc, ov[0].key, MergedValue(Get(acc, ov[0].key), ov[0].val));
      KeysOfCons(ov[0], ov[1..]);
      assert ov == [ov[0]] + ov[1..];
      MergedKeepsBase(next, ov[1..], k);
    }
  }

  /** A key of a well-formed override ends up with the override's value, merged with the base
      value when both are dictionaries. */
  lemma {:induction false} MergedTakesOverride(acc: seq<Entry>, ov: seq<Entry>, k: string)
    requires UniqueKeys(ov) && HasKey(ov, k)
    ensures Get(Merged(acc, ov), k) == Some(MergedValue(Get(acc, k), Get(ov, k).value))
    decreases ov
  {
    if ov[0].key == k {
      MergedFirstKey(acc, ov);
    } else {
      var next := Set(acc, ov[0].key, MergedValue(Get(acc, ov[0].key), ov[0].val));
      TailTakesOverride(ov, k);
      MergedTakesOverride(next, ov[1..], k);
      assert Get(next, k) == Get(acc, k);
    }
  }

  /** A key other than the first of a well-formed override is a key of its rest, with the same value. */
  lemma TailTakesOverride(ov: seq<Entry>, k: string)
    requires UniqueKeys(ov) && HasKey(ov, k) && ov[0].key != k
    ensures UniqueKeys(ov[1..]) && HasKey(ov[1..], k) && Get(ov[1..], k) == Get(ov, k)
  {
    GetCons(ov[0], ov[1..], k);
    KeysOfCons(ov[0], ov[1..]);
    assert ov == [ov[0]] + ov[1..];
  }

  /** The first override key is not touched again by the rest of a well-formed override. */
  lemma MergedFirstKey(acc: seq<Entry>, ov: seq<Entry>)
    requires UniqueKeys(ov) && ov != []
    ensures Get(Merged(acc, ov), ov[0].key) == Some(MergedValue(Get(acc, ov[0].key), ov[0].val))
  {
    var k := ov[0].key;
    var next := Set(acc, k, MergedValue(Get(acc, k), ov[0].val));
    forall i | 0 <= i < |ov[1..]| ensures KeysOf(ov[1..])[i] != k {
      assert ov[1..][i] == ov[i + 1];
    }
    MergedKeepsBase(next, ov[1..], k);
  }

  /** The merge rule per key: a value the override replaces, or two dictionaries merged again. */
  lemma MergeRule(base: seq<Entry>, override: seq<Entry>, k: string)
    requires UniqueKeys(override) && HasKey(override, k)
    ensures var v := Get(override, k).value;
      && (!v.VDict? ==> Get(Merged(base, override), k) == Some(v))
      && (v.VDict? && Get(base, k).Some? && Get(base, k).value.VDict? ==>
            Get(Merged(base, override), k) == Some(VDict(Merged(Get(base, k).value.entries, v.entries))))
      && (v.VDict? && (Get(base, k).None? || !Get(base, k).value.VDict?) ==>
            Get(Merged(base, override), k) == Some(v))
  {
    MergedTakesOverride(base, override, k);
  }

  /** A well-formed base stays well-formed. */
  lemma {:induction false} MergedUnique(acc: seq<Entry>, ov: seq<Entry>)
    requires UniqueKeys(acc)
    ensures UniqueKeys(Merged(acc, ov))
    decreases ov
  {
    if ov != [] {
      var key, value := ov[0].key, ov[0].val;
      SetKeepsUnique(acc, key, MergedValue(Get(acc, key), value));
      MergedUnique(Set(acc, key, MergedValue(Get(acc, key), value)), ov[1..]);
    }
  }

  /** Merging an empty override returns the base; merging into an empty base returns the override. */
  lemma MergeIdentities(base: seq<Entry>, override: seq<Entry>)
    requires UniqueKeys(override)
    ensures Merged(base, []) == base
    ensures forall k :: Get(Merged([], override), k) == Get(override, k)
  {
    forall k ensures Get(Merged([], override), k) == Get(override, k) {
      if HasKey(override, k) {
        MergedTakesOverride([], override, k);
      } else {
        MergedKeepsBase([], override, k);
      }
    }
  }

  // ---------------------------------------------------------------------------
  // safe_get

  /** The walk `safe_get` performs: stop with `default` at a non-dictionary or a missing or `None` value. */
  function Walk(v: Value, keys: seq<string>, default: Value): Value
    decreases |keys|
  {
    if keys == [] then v
    else if !v.VDict? then default
    else
      match Get(v.entries, keys[0])
      case None => default
      case Some(x) => if x.VNone? then default else Walk(x, keys[1..], default)
  }

  /** `safe_get(data, *keys, default=default)` */
  method SafeGet(data: Value, keys: seq<string>, default: Value) returns (r: Value)
    ensures r == Walk(data, keys, default)
  {
    var current := data;
    var k := 0;
    while k < |keys|
      invariant 0 <= k <= |keys|
      invariant Walk(current, keys[k..], default) == Walk(data, keys, default)
    {
      assert keys[k..][1..] == keys[k + 1..];
      if !current.VDict? {
        return default;
      }
      var next := Get(current.entries, keys[k]);
      if next.None? || next.value.VNone? {
        return default;
      }
      current := next.value;
      k := k + 1;
    }
    assert keys[k..] == [];
    return current;
  }

  /** The value found by following `keys` from `v`, if every step reaches a dictionary holding a
      non-`None` value; defined from the last key backwards. */
  function Reach(v: Value, keys: seq<string>): Option<Value>
  {
    if keys == [] then Some(v)
    else
      match Reach(v, keys[..|keys| - 1])
      case None => None
      case Some(w) =>
        if !w.VDict? then None
        else
          match Get(w.entries, keys[|keys| - 1])
          case None => None
          case Some(x) => if x.VNone? then None else Some(x)
  }

  /** `safe_get` returns the reachable value, or `default` when the path breaks. */
  lemma {:induction false} WalkIsReach(v: Value, keys: seq<string>, default: Value)
    ensures Walk(v, keys, default) == if Reach(v, keys).Some? then Reach(v, keys).value else default
    decreases |keys|
  {
    if keys != [] {
      if v.VDict? && Get(v.entries, keys[0]).Some? && !Get(v.entries, keys[0]).value.VNone? {
        var x := Get(v.entries, keys[0]).value;
        WalkIsReach(x, keys[1..], default);
        ReachFirst(v, keys);
      } else {
        ReachFirst(v, keys);
      }
    }
  }

  /** `Reach` taken one key from the front. */
  lemma {:induction false} ReachFirst(v: Value, keys: seq<string>)
    requires keys != []
    ensures Reach(v, keys) ==
      if v.VDict? && Get(v.entries, keys[0]).Some? && !Get(v.entries, keys[0]).value.VNone?
      then Reach(Get(v.entries, keys[0]).value, keys[1..])
      else None
    decreases |keys|
  {
    if |keys| > 1 {
      var front := keys[..|keys| - 1];
      ReachFirst(v, front);
      assert front[0] == keys[0];
      assert front[1..] == keys[1..][..|keys[1..]| - 1];
    } else {
      assert keys[..0] == [];
      assert keys[1..] == [];
    }
  }

  /** Every step of a reachable path lands on a non-`None` value, and `safe_get` never returns
      `None` except as the default or the data itself. */
  lemma SafeGetNeverNoneMidway(v: Value, keys: seq<string>, default: Value)
    requires keys != [] && Reach(v, keys).Some?
    ensures !Walk(v, keys, default).VNone?
  {
    WalkIsReach(v, keys, default);
  }

  /** The documented examples over `{'level1': {'level2': {'value': 'found'}}}`. */
  lemma SafeGetExamples()
    ensures var inner := VDict([Entry("value", VStr("found"))]);
      var data := VDict([Entry("level1", VDict([Entry("level2", inner)]))]);
      && Walk(data, ["level1", "level2", "value"], VNone) == VStr("found")
      && Walk(data, ["level1", "level2"], VNone) == inner
      && Walk(data, ["missing"], VNone) == VNone
      && Walk(data, ["level1", "missing"], VStr("default")) == VStr("default")
  {
  }

  // ---------------------------------------------------------------------------
  // flatten_dict

  /** `f"{parent}{sep}{k}" if parent else k` */
  function JoinKey(parent: string, sep: string, key: string): (r: string)
    ensures parent != [] ==> r == parent + sep + key
    ensures parent == [] ==> r == key
  {
    if parent != [] then parent + sep + key else key
  }

  /** The items `flatten_dict` collects for one entry. */
  function EntryItems(e: Entry, parent: string, sep: string): seq<Entry>
    decreases e, 1
  {
    var newKey := JoinKey(parent, sep, e.key);
    if e.val.VDict? then Flatten(e.val.entries, newKey, sep) else [Entry(newKey, e.val)]
  }

  /** The items collected for the first `|es|` entries, in order. */
  function FlatItems(es: seq<Entry>, parent: string, sep: string): seq<Entry>
    decreases es, 0
  {
    if es == [] then []
    else FlatItems(es[..|es| - 1], parent, sep) + EntryItems(es[|es| - 1], parent, sep)
  }

  /** `dict(items)` of the collected items. */
  function Flatten(es: seq<Entry>, parent: string, sep: string): seq<Entry>
    decreases es, 1
  {
    FromItems(FlatItems(es, parent, sep))
  }

  /** `flatten_dict(nested, parent_key, sep)` */
  method FlattenDict(nested: seq<Entry>, parent: string, sep: string) returns (flat: seq<Entry>)
    ensures flat == Flatten(nested, parent, sep)
    decreases nested
  {
    var items: seq<Entry> := [];
    var k := 0;
    while k < |nested|
      invariant 0 <= k <= |nested|
      invariant items == FlatItems(nested[..k], parent, sep)
    {
      FlatItemsSnoc(nested, k, parent, sep);
      var key, value := nested[k].key, nested[k].val;
      var newKey := if parent != [] then parent + sep + key else key;
      assert newKey == JoinKey(parent, sep, key);
      if value.VDict? {
        var sub := FlattenDict(value.entries, newKey, sep);
        assert sub == EntryItems(nested[k], parent, sep);
        items := items + sub;
      } else {
        assert [Entry(newKey, value)] == EntryItems(nested[k], parent, sep);
        items := items + [Entry(newKey, value)];
      }
      k := k + 1;
    }
    assert nested[..|nested|] == nested;
    flat := FromItems(items);
  }

  /** The items of one more entry follow the items of those before it. */
  lemma FlatItemsSnoc(es: seq<Entry>, k: int, parent: string, sep: string)
    requires 0 <= k < |es|
    ensures FlatItems(es[..k + 1], parent, sep) == FlatItems(es[..k], parent, sep) + EntryItems(es[k], parent, sep)
  {
    assert es[..k + 1][..k] == es[..k];
  }

  /** Every collected item has a non-dictionary value, and a key that starts with `parent + sep`
      when `parent` is not empty. */
  lemma {:induction false} FlatItemsShape(es: seq<Entry>, parent: string, sep: string)
    ensures forall e :: e in FlatItems(es, parent, sep) ==> !e.val.VDict?
    ensures parent != [] ==> forall e :: e in FlatItems(es, parent, sep) ==> parent + sep <= e.key
    decreases es, 0
  {
    if es != [] {
      FlatItemsShape(es[..|es| - 1], parent, sep);
      EntryItemsShape(es[|es| - 1], parent, sep);
    }
  }

  lemma {:induction false} EntryItemsShape(e: Entry, parent: string, sep: string)
    ensures forall x :: x in EntryItems(e, parent, sep) ==> !x.val.VDict?
    ensures parent != [] ==> forall x :: x in EntryItems(e, parent, sep) ==> parent + sep <= x.key
    decreases e, 1
  {
    var newKey := JoinKey(parent, sep, e.key);
    if e.val.VDict? {
      FlattenShape(e.val.entries, newKey, sep);
      if parent != [] {
        forall x | x in EntryItems(e, parent, sep) ensures parent + sep <= x.key {
          assert newKey + sep <= x.key;
          assert parent + sep <= newKey;
        }
      }
    }
  }

  /** The flattened dictionary: well-formed, no dictionary values, and every key under `parent + sep`
      when a parent key is given. */
  lemma {:induction false} FlattenShape(es: seq<Entry>, parent: string, sep: string)
    ensures UniqueKeys(Flatten(es, parent, sep))
    ensures forall e :: e in Flatten(es, parent, sep) ==> !e.val.VDict?
    ensures parent != [] ==> forall e :: e in Flatten(es, parent, sep) ==> parent + sep <= e.key
    decreases es, 1
  {
    FlatItemsShape(es, parent, sep);
    FromItemsEntries(FlatItems(es, parent, sep));
  }

  /** A dictionary with no nested dictionaries is its own flattening when no parent key is given. */
  lemma {:induction false} FlattenFlatIsIdentity(es: seq<Entry>, sep: string)
    requires UniqueKeys(es)
    requires forall i :: 0 <= i < |es| ==> !es[i].val.VDict?
    ensures Flatten(es, [], sep) == es
  {
    FlatItemsOfFlat(es, sep);
    FromItemsOfDict(es);
  }

  lemma {:induction false} FlatItemsOfFlat(es: seq<Entry>, sep: string)
    requires forall i :: 0 <= i < |es| ==> !es[i].val.VDict?
    ensures FlatItems(es, [], sep) == es
  {
    if es != [] {
      FlatItemsOfFlat(es[..|es| - 1], sep);
      assert es == es[..|es| - 1] + [es[|es| - 1]];
    }
  }

  /** Following `path` from `es` through nested dictionaries ends at the non-dictionary value `v`. */
  predicate LeafAt(es: seq<Entry>, path: seq<string>, v: Value)
    decreases es
  {
    && path != []
    && exists i :: 0 <= i < |es| && es[i].key == path[0] && LeafBelow(es[i], path, v)
  }

  /** The entry `e`, whose key is `path[0]`, leads along the rest of `path` to `v`. */
  predicate LeafBelow(e: Entry, path: seq<string>, v: Value)
    requires path != []
    decreases e
  {
    if |path| == 1 then e.val == v && !v.VDict?
    else e.val.VDict? && LeafAt(e.val.entries, path[1..], v)
  }

  /** The flattened key of `path` under `parent`: the keys joined one level at a time. */
  function JoinPath(parent: string, path: seq<string>, sep: string): string
    decreases |path|
  {
    if path == [] then parent else JoinPath(JoinKey(parent, sep, path[0]), path[1..], sep)
  }

  /** The items of the entry at index `i` are among the items of `es`. */
  lemma {:induction false} EntryItemsWithin(es: seq<Entry>, i: int, parent: string, sep: string)
    requires 0 <= i < |es|
    ensures forall x :: x in EntryItems(es[i], parent, sep) ==> x in FlatItems(es, parent, sep)
  {
    if i < |es| - 1 {
      EntryItemsWithin(es[..|es| - 1], i, parent, sep);
    }
  }

  /** Every item of `es` comes from one of its entries. */
  lemma {:induction false} FlatItemsFrom(es: seq<Entry>, parent: string, sep: string, x: Entry)
    requires x in FlatItems(es, parent, sep)
    ensures exists i :: 0 <= i < |es| && x in EntryItems(es[i], parent, sep)
  {
    var front := es[..|es| - 1];
    if x !in EntryItems(es[|es| - 1], parent, sep) {
      FlatItemsFrom(front, parent, sep, x);
      var i :| 0 <= i < |front| && x in EntryItems(front[i], parent, sep);
      assert es[i] == front[i];
    }
  }

  /** Every leaf contributes an item under its joined key (whose value a later item may replace). */
  lemma {:induction false} LeafListed(es: seq<Entry>, parent: string, sep: string, path: seq<string>, v: Value)
    requires LeafAt(es, path, v)
    ensures HasKey(FlatItems(es, parent, sep), JoinPath(parent, path, sep))
    decreases es, 1
  {
    var i :| 0 <= i < |es| && es[i].key == path[0] && LeafBelow(es[i], path, v);
    var key := JoinPath(parent, path, sep);
    EntryListed(es[i], parent, sep, path, v);
    var items := EntryItems(es[i], parent, sep);
    var j :| 0 <= j < |items| && KeysOf(items)[j] == key;
    EntryItemsWithin(es, i, parent, sep);
    KeyOfMember(FlatItems(es, parent, sep), items[j]);
  }

  /** A leaf below one entry contributes an item to that entry's items. */
  lemma {:induction false} EntryListed(e: Entry, parent: string, sep: string, path: seq<string>, v: Value)
    requires path != [] && path[0] == e.key && LeafBelow(e, path, v)
    ensures HasKey(EntryItems(e, parent, sep), JoinPath(parent, path, sep))
    decreases e, 0
  {
    var newKey := JoinKey(parent, sep, e.key);
    var key := JoinPath(parent, path, sep);
    assert key == JoinPath(newKey, path[1..], sep);
    if |path| == 1 {
      assert EntryItems(e, parent, sep) == [Entry(key, v)];
      assert KeysOf(EntryItems(e, parent, sep))[0] == key;
    } else {
      var sub := e.val.entries;
      LeafListed(sub, newKey, sep, path[1..], v);
      assert EntryItems(e, parent, sep) == FromItems(FlatItems(sub, newKey, sep));
    }
  }

  /** The key of an entry of `xs` is a key of `xs`. */
  lemma KeyOfMember(xs: seq<Entry>, x: Entry)
    requires x in xs
    ensures HasKey(xs, x.key)
  {
    var i :| 0 <= i < |xs| && xs[i] == x;
    assert KeysOf(xs)[i] == x.key;
  }

  /** Every item is a leaf of `es`, under the joined key of the leaf's path. */
  lemma {:induction false} ListedIsLeaf(es: seq<Entry>, parent: string, sep: string, x: Entry)
    requires x in FlatItems(es, parent, sep)
    ensures exists path :: LeafAt(es, path, x.val) && JoinPath(parent, path, sep) == x.key
    decreases es, 1
  {
    FlatItemsFrom(es, parent, sep, x);
    var i :| 0 <= i < |es| && x in EntryItems(es[i], parent, sep);
    EntryLeaf(es[i], parent, sep, x);
    var path :| path != [] && path[0] == es[i].key && LeafBelow(es[i], path, x.val) && JoinPath(parent, path, sep) == x.key;
    assert LeafAt(es, path, x.val);
  }

  /** Every item of one entry is a leaf below that entry. */
  lemma {:induction false} EntryLeaf(e: Entry, parent: string, sep: string, x: Entry)
    requires x in EntryItems(e, parent, sep)
    ensures exists path :: path != [] && path[0] == e.key && LeafBelow(e, path, x.val) && JoinPath(parent, path, sep) == x.key
    decreases e, 1
  {
    var newKey := JoinKey(parent, sep, e.key);
    if e.val.VDict? {
      var items := FlatItems(e.val.entries, newKey, sep);
      assert x in FromItems(items);
      FromItemsEntries(items);
      EntryLeafDict(e, parent, sep, x);
    } else {
      assert x == Entry(newKey, e.val);
      LeafBelowOne(e, parent, sep);
      assert [e.key][0] == e.key;
    }
  }

  /** An item collected from a nested dictionary is a leaf below the entry holding it. */
  lemma {:induction false} EntryLeafDict(e: Entry, parent: string, sep: string, x: Entry)
    requires e.val.VDict? && x in FlatItems(e.val.entries, JoinKey(parent, sep, e.key), sep)
    ensures exists path :: path != [] && path[0] == e.key && LeafBelow(e, path, x.val) && JoinPath(parent, path, sep) == x.key
    decreases e, 0
  {
    var newKey := JoinKey(parent, sep, e.key);
    ListedIsLeaf(e.val.entries, newKey, sep, x);
    var rest :| LeafAt(e.val.entries, rest, x.val) && JoinPath(newKey, rest, sep) == x.key;
    LeafBelowStep(e, parent, sep, rest, x.val);
    assert ([e.key] + rest)[0] == e.key;
  }

  /** A leaf of a nested dictionary is a leaf below the entry holding it, one key further down. */
  lemma LeafBelowStep(e: Entry, parent: string, sep: string, rest: seq<string>, v: Value)
    requires e.val.VDict? && LeafAt(e.val.entries, rest, v)
    ensures LeafBelow(e, [e.key] + rest, v)
    ensures JoinPath(parent, [e.key] + rest, sep) == JoinPath(JoinKey(parent, sep, e.key), rest, sep)
  {
    var path := [e.key] + rest;
    assert path[1..] == rest;
  }

  /** A non-dictionary entry is itself a leaf, under its own joined key. */
  lemma LeafBelowOne(e: Entry, parent: string, sep: string)
    requires !e.val.VDict?
    ensures LeafBelow(e, [e.key], e.val)
    ensures JoinPath(parent, [e.key], sep) == JoinKey(parent, sep, e.key)
  {
    assert [e.key][1..] == [];
  }

  /** The value `dict(items)` keeps for a key is one of the items. */
  lemma {:induction false} LastValueListed(items: seq<Entry>, k: string)
    requires LastValue(items, k).Some?
    ensures Entry(k, LastValue(items, k).value) in items
  {
    if items[|items| - 1].key != k {
      LastValueListed(items[..|items| - 1], k);
    }
  }

  /** `flatten_dict` puts every leaf under the joined key of its path; the value there is the leaf's
      own whenever no other leaf shares that joined key. */
  lemma FlattenPlacesLeaf(es: seq<Entry>, parent: string, sep: string, path: seq<string>, v: Value)
    requires LeafAt(es, path, v)
    ensures HasKey(Flatten(es, parent, sep), JoinPath(parent, path, sep))
    ensures (forall p, w :: LeafAt(es, p, w) && JoinPath(parent, p, sep) == JoinPath(parent, path, sep) ==> w == v) ==>
      Get(Flatten(es, parent, sep), JoinPath(parent, path, sep)) == Some(v)
  {
    var items := FlatItems(es, parent, sep);
    var key := JoinPath(parent, path, sep);
    LeafListed(es, parent, sep, path, v);
    FromItemsLaws(items);
    assert HasKey(Flatten(es, parent, sep), key);
    var w := LastValue(items, key).value;
    LastValueListed(items, key);
    ListedIsLeaf(es, parent, sep, Entry(key, w));
  }

  /** Every key of the flattened dictionary is the joined path of some leaf. */
  lemma FlattenKeysAreLeafPaths(es: seq<Entry>, parent: string, sep: string, k: string)
    requires HasKey(Flatten(es, parent, sep), k)
    ensures exists path, v :: LeafAt(es, path, v) && JoinPath(parent, path, sep) == k
  {
    var items := FlatItems(es, parent, sep);
    FromItemsLaws(items);
    assert LastValue(items, k) == Get(Flatten(es, parent, sep), k);
    LastValueListed(items, k);
    ListedIsLeaf(es, parent, sep, Entry(k, LastValue(items, k).value));
  }

  /** Two leaves with the same joined key: `{'a.b': 1, 'a': {'b': 2}}` flattens to `{'a.b': 2}`,
      the later leaf replacing the earlier one. */
  lemma FlattenCollisionExample(top: seq<Entry>, a: seq<Entry>)
    requires a == [Entry("b", VInt(2))]
    requires top == [Entry("a.b", VInt(1)), Entry("a", VDict(a))]
    ensures Get(Flatten(top, [], "."), "a.b") == Some(VInt(2))
  {
    CollisionItems(top, a);
    FromItemsLaws(FlatItems(top, [], "."));
  }

  /** The items of the collision example, in order. */
  lemma CollisionItems(top: seq<Entry>, a: seq<Entry>)
    requires a == [Entry("b", VInt(2))]
    requires top == [Entry("a.b", VInt(1)), Entry("a", VDict(a))]
    ensures FlatItems(top, [], ".") == [Entry("a.b", VInt(1)), Entry("a.b", VInt(2))]
  {
    CollisionEntry(top[1], a);
    assert top[..1] == [Entry("a.b", VInt(1))];
    FlatItemsOfFlat(top[..1], ".");
    FlatItemsSnoc(top, 1, [], ".");
    assert top[..2] == top;
  }

  /** The entry `'a': {'b': 2}` with no parent key. */
  lemma CollisionEntry(e: Entry, a: seq<Entry>)
    requires a == [Entry("b", VInt(2))]
    requires e == Entry("a", VDict(a))
    ensures EntryItems(e, [], ".") == [Entry("a.b", VInt(2))]
  {
    assert a[..0] == [];
    assert JoinKey("a", ".", "b") == "a.b";
    assert FlatItems(a, "a", ".") == [Entry("a.b", VInt(2))];
    FromItemsOfDict([Entry("a.b", VInt(2))]);
  }

  /** `{'e': 3}` under the parent key `b.d`. */
  lemma FlattenExampleDeepest(d: seq<Entry>)
    requires d == [Entry("e", VInt(3))]
    ensures Flatten(d, "b.d", ".") == [Entry("b.d.e", VInt(3))]
  {
    assert d[..0] == [];
    assert JoinKey("b.d", ".", "e") == "b.d.e";
    assert FlatItems(d, "b.d", ".") == [Entry("b.d.e", VInt(3))];
    FromItemsOfDict([Entry("b.d.e", VInt(3))]);
  }

  /** `{'c': 2}` under the parent key `b`. */
  lemma FlattenExampleLeaf(c: seq<Entry>)
    requires c == [Entry("c", VInt(2))]
    ensures FlatItems(c, "b", ".") == [Entry("b.c", VInt(2))]
  {
    assert c[..0] == [];
    assert JoinKey("b", ".", "c") == "b.c";
  }

  /** The entry `'d': {'e': 3}` under the parent key `b`. */
  lemma FlattenExampleBranch(e: Entry, d: seq<Entry>)
    requires d == [Entry("e", VInt(3))]
    requires e == Entry("d", VDict(d))
    ensures EntryItems(e, "b", ".") == [Entry("b.d.e", VInt(3))]
  {
    assert JoinKey("b", ".", "d") == "b.d";
    FlattenExampleDeepest(d);
  }

  /** `{'c': 2, 'd': {'e': 3}}` under the parent key `b`. */
  lemma FlattenExampleMiddle(b: seq<Entry>, d: seq<Entry>)
    requires d == [Entry("e", VInt(3))]
    requires b == [Entry("c", VInt(2)), Entry("d", VDict(d))]
    ensures FlatItems(b, "b", ".") == [Entry("b.c", VInt(2)), Entry("b.d.e", VInt(3))]
  {
    assert b[..1] == [Entry("c", VInt(2))];
    FlattenExampleLeaf(b[..1]);
    FlattenExampleBranch(b[1], d);
  }

  /** The entry `'b': {...}` with no parent key. */
  lemma FlattenExampleNested(e: Entry, b: seq<Entry>, d: seq<Entry>)
    requires d == [Entry("e", VInt(3))]
    requires b == [Entry("c", VInt(2)), Entry("d", VDict(d))]
    requires e == Entry("b", VDict(b))
    ensures EntryItems(e, [], ".") == [Entry("b.c", VInt(2)), Entry("b.d.e", VInt(3))]
  {
    FlattenExampleMiddle(b, d);
    FromItemsOfDict([Entry("b.c", VInt(2)), Entry("b.d.e", VInt(3))]);
  }

  /** `{'a': 1}` with no parent key. */
  lemma FlattenExampleFlatPart(a: seq<Entry>)
    requires a == [Entry("a", VInt(1))]
    ensures FlatItems(a, [], ".") == [Entry("a", VInt(1))]
  {
    assert a[..0] == [];
  }

  /** The items of the documented example, in order. */
  lemma FlattenExampleItems(top: seq<Entry>, b: seq<Entry>, d: seq<Entry>)
    requires d == [Entry("e", VInt(3))]
    requires b == [Entry("c", VInt(2)), Entry("d", VDict(d))]
    requires top == [Entry("a", VInt(1)), Entry("b", VDict(b))]
    ensures FlatItems(top, [], ".") == [Entry("a", VInt(1)), Entry("b.c", VInt(2)), Entry("b.d.e", VInt(3))]
  {
    FlattenExampleNested(top[1], b, d);
    assert top[..1] == [Entry("a", VInt(1))];
    FlattenExampleFlatPart(top[..1]);
    FlatItemsSnoc(top, 1, [], ".");
    assert top[..2] == top;
  }

  /** The documented example: `{'a': 1, 'b': {'c': 2, 'd': {'e': 3}}}` flattens to
      `{'a': 1, 'b.c': 2, 'b.d.e': 3}`. */
  lemma FlattenExample(top: seq<Entry>, b: seq<Entry>, d: seq<Entry>)
    requires d == [Entry("e", VInt(3))]
    requires b == [Entry("c", VInt(2)), Entry("d", VDict(d))]
    requires top == [Entry("a", VInt(1)), Entry("b", VDict(b))]
    ensures Flatten(top, [], ".") == [Entry("a", VInt(1)), Entry("b.c", VInt(2)), Entry("b.d.e", VInt(3))]
  {
    FlattenExampleItems(top, b, d);
    FromItemsOfDict([Entry("a", VInt(1)), Entry("b.c", VInt(2)), Entry("b.d.e", VInt(3))]);
  }
}
