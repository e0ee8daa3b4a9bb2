/** A decoded JSON document as PHP holds it after `json_decode($text, true)`:
    scalars and ordered arrays whose keys are integers or strings. Fractional
    numbers are not part of this model. */
module PhpArray {
  import opened Wrappers
  import opened PhpText

  datatype Key = IntKey(i: int) | StrKey(s: string)

  datatype Value = Null | Bool(b: bool) | Int(n: int) | Str(s: string) | Arr(entries: seq<Entry>)

  datatype Entry = Entry(key: Key, value: Value)

  /** `$a[$k]`: the value stored under `k`, if any. */
  function Get(entries: seq<Entry>, k: Key): (r: Option<Value>)
    ensures r.Some? <==> exists i :: 0 <= i < |entries| && entries[i].key == k
    ensures r.Some? ==> exists i :: 0 <= i < |entries| && entries[i] == Entry(k, r.value)
  {
    if entries == [] then None
    else if entries[0].key == k then Some(entries[0].value)
    else
      var r := Get(entries[1..], k);
      assert forall i :: 0 <= i < |entries[1..]| ==> entries[1..][i] == entries[i + 1];
      assert forall i :: 1 <= i < |entries| ==> entries[i] == entries[1..][i - 1];
      r
  }

  /** `isset($a[$k])`: the key is present and its value is not null. */
  predicate IsSet(entries: seq<Entry>, k: Key) {
    Get(entries, k).Some? && !Get(entries, k).value.Null?
  }

  /** `$a[$k] ?? $default`. */
  function GetOr(entries: seq<Entry>, k: Key, default: Value): (r: Value)
    ensures IsSet(entries, k) ==> r == Get(entries, k).value
    ensures !IsSet(entries, k) ==> r == default
  {
    if IsSet(entries, k) then Get(entries, k).value else default
  }

  /** `$a[$k] = $v`: an existing key keeps its place, a new one goes last. */
  function Set(entries: seq<Entry>, k: Key, v: Value): (r: seq<Entry>)
    ensures Get(r, k) == Some(v)
    ensures forall k' :: k' != k ==> Get(r, k') == Get(entries, k')
    ensures Get(entries, k).Some? ==> |r| == |entries|
    ensures Get(entries, k).None? ==> r == entries + [Entry(k, v)]
  {
    if entries == [] then [Entry(k, v)]
    else if entries[0].key == k then [Entry(k, v)] + entries[1..]
    else
      var rest := Set(entries[1..], k, v);
      var r := [entries[0]] + rest;
      assert r[1..] == rest;
      assert entries == [entries[0]] + entries[1..];
      r
  }

  /** `unset($a[$k])`. */
  function Unset(entries: seq<Entry>, k: Key): (r: seq<Entry>)
    ensures Get(r, k).None?
    ensures forall k' :: k' != k ==> Get(r, k') == Get(entries, k')
  {
    if entries == [] then []
    else if entries[0].key == k then Unset(entries[1..], k)
    else
      var rest := Unset(entries[1..], k);
      var r := [entries[0]] + rest;
      assert r[1..] == rest;
      r
  }

  /** The keys in array order (`array_keys`). */
  function Keys(entries: seq<Entry>): (r: seq<Key>)
    ensures |r| == |entries|
    ensures forall i :: 0 <= i < |entries| ==> r[i] == entries[i].key
  {
    seq(|entries|, i requires 0 <= i < |entries| => entries[i].key)
  }

  /** A PHP array never holds one key twice. */
  predicate UniqueKeys(entries: seq<Entry>) {
    forall i, j :: 0 <= i < j < |entries| ==> entries[i].key != entries[j].key
  }

  /** A list: the keys 0, 1, … in order (`->values()->toArray()`). */
  function List(vs: seq<Value>): (r: Value)
    ensures r.Arr? && |r.entries| == |vs|
    ensures forall i :: 0 <= i < |vs| ==> r.entries[i] == Entry(IntKey(i), vs[i])
  {
    Arr(seq(|vs|, i requires 0 <= i < |vs| => Entry(IntKey(i), vs[i])))
  }

  /** PHP's `empty()`. */
  predicate Empty(v: Value) {
    match v
    case Null => true
    case Bool(b) => !b
    case Int(n) => n == 0
    case Str(s) => IsFalsy(s)
    case Arr(e) => e == []
  }

  /** A key as a string argument (`fn (string $column)`): integer keys in
      decimal. */
  function KeyString(k: Key): string {
    match k
    case IntKey(i) => IntToString(i)
    case StrKey(s) => s
  }

  /** A value in a string context (concatenation, interpolation): an array
      cannot be converted (PHP warns, and the framework turns the warning into
      an exception). */
  function StringOf(v: Value): (r: Result<string>)
    ensures r.Success? <==> !v.Arr?
    ensures v.Str? ==> r == Success(v.s)
  {
    match v
    case Null => Success("")
    case Bool(b) => Success(if b then "1" else "")
    case Int(n) => Success(IntToString(n))
    case Str(s) => Success(s)
    case Arr(_) => Failure("Array to string conversion")
  }

  /** The cast `(int) $v`. */
  function IntOf(v: Value): (r: int)
    ensures v.Int? ==> r == v.n
    ensures v.Str? ==> r == PhpIntCast(v.s)
    ensures v.Null? ==> r == 0
  {
    match v
    case Null => 0
    case Bool(b) => if b then 1 else 0
    case Int(n) => n
    case Str(s) => PhpIntCast(s)
    case Arr(e) => if e == [] then 0 else 1
  }

  /** The element `$a[0]`, with a missing key read as null (`?? null`). */
  function First(entries: seq<Entry>): Value {
    GetOr(entries, IntKey(0), Null)
  }

  // ---- `Arr::dot` ----

  /** A flattened key with its value. */
  datatype DotEntry = DotEntry(key: string, value: Value)

  function DotKeys(d: seq<DotEntry>): (r: seq<string>)
    ensures |r| == |d|
    ensures forall i :: 0 <= i < |d| ==> r[i] == d[i].key
  {
    seq(|d|, i requires 0 <= i < |d| => d[i].key)
  }

  /** The position of the first occurrence of `k`. */
  function FirstIndex(keys: seq<string>, k: string): (i: nat)
    requires k in keys
    ensures i < |keys| && keys[i] == k
    ensures forall j :: 0 <= j < i ==> keys[j] != k
  {
    if keys[0] == k then 0 else 1 + FirstIndex(keys[1..], k)
  }

  lemma {:induction false} FirstIndexAppend(keys: seq<string>, k: string, x: string)
    requires k in keys
    ensures FirstIndex(keys + [x], k) == FirstIndex(keys, k)
  {
    if keys[0] != k {
      assert (keys + [x])[1..] == keys[1..] + [x];
      FirstIndexAppend(keys[1..], k, x);
    }
  }

  /** `$results[$key] ?? null` on the flattened array. */
  function DotGet(d: seq<DotEntry>, k: string): (r: Option<Value>)
    ensures r.Some? <==> k in DotKeys(d)
    ensures r.Some? ==> exists i :: 0 <= i < |d| && d[i] == DotEntry(k, r.value)
  {
    if k in DotKeys(d) then Some(d[FirstIndex(DotKeys(d), k)].value) else None
  }

  /** `$results[$key] = $value` on the flattened array: an existing key keeps
      its place, a new key goes last. */
  function DotPut(d: seq<DotEntry>, k: string, v: Value): (r: seq<DotEntry>)
    ensures DotGet(r, k) == Some(v)
    ensures forall k' :: k' != k ==> DotGet(r, k') == DotGet(d, k')
    ensures k !in DotKeys(d) ==> r == d + [DotEntry(k, v)]
    ensures k in DotKeys(d) ==> DotKeys(r) == DotKeys(d)
    ensures forall x :: x in r ==> x in d || x == DotEntry(k, v)
  {
    if k in DotKeys(d) then
      var r := d[FirstIndex(DotKeys(d), k) := DotEntry(k, v)];
      assert DotKeys(r) == DotKeys(d);
      r
    else
      var r := d + [DotEntry(k, v)];
      assert DotKeys(r) == DotKeys(d) + [k];
      forall k' | k' in DotKeys(d) ensures FirstIndex(DotKeys(r), k') == FirstIndex(DotKeys(d), k') {
        FirstIndexAppend(DotKeys(d), k', k);
      }
      r
  }

  /** No key occurs twice. */
  predicate DistinctKeys(d: seq<DotEntry>) {
    forall i, j :: 0 <= i < j < |d| ==> d[i].key != d[j].key
  }

  /** A value that `Arr::dot` descends into. */
  predicate Nested(v: Value) {
    v.Arr? && v.entries != []
  }

  /** The flattening walk over the entries of `arr` from index `i` on: a
      non-empty array is entered with its key and a dot as the new prefix;
      anything else, the empty array included, is stored under the joined
      key, a later write to the same key overwriting the earlier one in
      place. */
  function DotInto(acc: seq<DotEntry>, arr: Value, i: nat, prefix: string): (r: seq<DotEntry>)
    requires arr.Arr? && i <= |arr.entries|
    requires DistinctKeys(acc)
    requires forall x :: x in acc ==> !Nested(x.value)
    ensures DistinctKeys(r)
    ensures forall x :: x in r ==> !Nested(x.value)
    decreases arr, |arr.entries| - i
  {
    if i == |arr.entries| then acc
    else
      var e := arr.entries[i];
      var newKey := prefix + KeyString(e.key);
      var next := if Nested(e.value) then DotInto(acc, e.value, 0, newKey + ".")
                  else DotPutDistinct(acc, newKey, e.value);
      DotInto(next, arr, i + 1, prefix)
  }

  /** `DotPut` on a sequence of distinct keys keeps them distinct. */
  function DotPutDistinct(d: seq<DotEntry>, k: string, v: Value): (r: seq<DotEntry>)
    requires DistinctKeys(d)
    ensures r == DotPut(d, k, v)
    ensures DistinctKeys(r)
  {
    var r := DotPut(d, k, v);
    assert forall i :: 0 <= i < |r| ==> r[i].key == DotKeys(r)[i];
    r
  }

  /** `Arr::dot($array)`. */
  function Dot(entries: seq<Entry>): (r: seq<DotEntry>)
    ensures DistinctKeys(r)
    ensures forall x :: x in r ==> !Nested(x.value)
  {
    DotInto([], Arr(entries), 0, "")
  }

  /** Each entry under its prefixed key, in order. */
  function FlatEntries(entries: seq<Entry>, prefix: string): (r: seq<DotEntry>)
    ensures |r| == |entries|
    ensures forall i :: 0 <= i < |entries| ==> r[i] == DotEntry(prefix + KeyString(entries[i].key), entries[i].value)
  {
    seq(|entries|, i requires 0 <= i < |entries| => DotEntry(prefix + KeyString(entries[i].key), entries[i].value))
  }

  /** A flat array: nothing to descend into, and no two keys with the same
      string form. */
  predicate Flat(entries: seq<Entry>) {
    (forall i :: 0 <= i < |entries| ==> !Nested(entries[i].value)) &&
    (forall i, j :: 0 <= i < j < |entries| ==> KeyString(entries[i].key) != KeyString(entries[j].key))
  }

  lemma {:induction false} DotOfFlat(acc: seq<DotEntry>, entries: seq<Entry>, i: nat)
    requires i <= |entries| && Flat(entries)
    requires DistinctKeys(acc)
    requires forall x :: x in acc ==> !Nested(x.value)
    requires forall j :: i <= j < |entries| ==> KeyString(entries[j].key) !in DotKeys(acc)
    ensures DotInto(acc, Arr(entries), i, "") == acc + FlatEntries(entries[i..], "")
    decreases |entries| - i
  {
    if i < |entries| {
      var next := DotFlatStep(acc, entries, i);
      DotOfFlat(next, entries, i + 1);
      FlatEntriesCons(entries, i, "");
      var x := DotEntry("" + KeyString(entries[i].key), entries[i].value);
      AppendAssoc(acc, [x], FlatEntries(entries[i + 1..], ""));
    }
  }

  lemma FlatEntriesCons(entries: seq<Entry>, i: nat, prefix: string)
    requires i < |entries|
    ensures FlatEntries(entries[i..], prefix) ==
      [DotEntry(prefix + KeyString(entries[i].key), entries[i].value)] + FlatEntries(entries[i + 1..], prefix)
  {
    var l := FlatEntries(entries[i..], prefix);
    var r := [DotEntry(prefix + KeyString(entries[i].key), entries[i].value)] + FlatEntries(entries[i + 1..], prefix);
    forall j | 0 <= j < |l| ensures l[j] == r[j] {
      assert entries[i..][j] == entries[i + j];
      if j > 0 {
        assert entries[i + 1..][j - 1] == entries[i + j];
      }
    }
  }

  lemma AppendAssoc<T>(a: seq<T>, b: seq<T>, c: seq<T>)
    ensures a + (b + c) == (a + b) + c
  {
  }

  /** One entry of a flat array is appended under its own key. */
  lemma DotFlatStep(acc: seq<DotEntry>, entries: seq<Entry>, i: nat) returns (next: seq<DotEntry>)
    requires i < |entries| && Flat(entries)
    requires DistinctKeys(acc)
    requires forall x :: x in acc ==> !Nested(x.value)
    requires forall j :: i <= j < |entries| ==> KeyString(entries[j].key) !in DotKeys(acc)
    ensures next == acc + [DotEntry("" + KeyString(entries[i].key), entries[i].value)]
    ensures DistinctKeys(next) && forall x :: x in next ==> !Nested(x.value)
    ensures forall j :: i + 1 <= j < |entries| ==> KeyString(entries[j].key) !in DotKeys(next)
    ensures DotInto(acc, Arr(entries), i, "") == DotInto(next, Arr(entries), i + 1, "")
  {
    var e := entries[i];
    var newKey := KeyString(e.key);
    assert "" + newKey == newKey;
    next := DotPutDistinct(acc, newKey, e.value);
    assert DotKeys(next) == DotKeys(acc) + [newKey];
    forall j | i + 1 <= j < |entries| ensures KeyString(entries[j].key) !in DotKeys(next) {
      assert KeyString(entries[j].key) != newKey;
    }
  }

  /** Flattening a flat array renames nothing and reorders nothing. */
  lemma DotFlat(entries: seq<Entry>)
    requires Flat(entries)
    ensures Dot(entries) == FlatEntries(entries, "")
  {
    DotOfFlat([], entries, 0);
    assert entries[0..] == entries;
  }
}
