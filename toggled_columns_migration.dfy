/** The migration that rewrites saved table filter sets from the old
    `orderedToggledTableColumns` / `toggledTableColumns` keys to the v4
    `tableColumns` list. Each saved set is a decoded JSON value; a PHP error
    (a wrong argument type, a missing array key) aborts the migration, which
    runs in one transaction, so the table is then left as it was. */
module ToggledColumnsMigration {
  import opened Wrappers
  import opened PhpText
  import opened PhpArray

  const OrderedKey: Key := StrKey("orderedToggledTableColumns")
  const ToggledKey: Key := StrKey("toggledTableColumns")
  const TableColumnsKey: Key := StrKey("tableColumns")

  /** A column of the v4 layout, as the ordered forms build it. */
  function Column(name: Value, isToggled: Value): Value {
    Arr([Entry(StrKey("type"), Str("column")), Entry(StrKey("name"), name), Entry(StrKey("label"), name),
         Entry(StrKey("isHidden"), Bool(false)), Entry(StrKey("isToggled"), isToggled),
         Entry(StrKey("isToggleable"), Bool(true)), Entry(StrKey("isToggledHiddenByDefault"), Bool(false))])
  }

  /** A column as `transformToggledTableColumns` builds it: without
      `isHidden` and `isToggledHiddenByDefault`. */
  function ToggledColumn(name: string, isToggled: bool): Value {
    Arr([Entry(StrKey("type"), Str("column")), Entry(StrKey("name"), Str(name)), Entry(StrKey("label"), Str(name)),
         Entry(StrKey("isToggled"), Bool(isToggled)), Entry(StrKey("isToggleable"), Bool(true))])
  }

  // ---- the stored shapes ----

  /** `isStoredAsArray`: element 0 is an array with `column` and `isVisible`
      set. */
  predicate IsStoredAsArray(data: seq<Entry>) {
    data != [] && First(data).Arr? &&
    IsSet(First(data).entries, StrKey("column")) && IsSet(First(data).entries, StrKey("isVisible"))
  }

  /** `isStoredAsOrder`: not empty, and no value is a boolean. */
  predicate IsStoredAsOrder(data: seq<Entry>) {
    data != [] && forall i :: 0 <= i < |data| ==> !data[i].value.Bool?
  }

  /** `isStoredAsBool`: not empty, and every value is a boolean. */
  predicate IsStoredAsBool(data: seq<Entry>) {
    data != [] && forall i :: 0 <= i < |data| ==> data[i].value.Bool?
  }

  /** The order and bool shapes exclude each other, and the array shape is
      never the bool shape. */
  lemma ShapesExclusive(data: seq<Entry>)
    ensures !(IsStoredAsOrder(data) && IsStoredAsBool(data))
    ensures IsStoredAsArray(data) ==> !IsStoredAsBool(data)
  {
    if IsStoredAsArray(data) {
      var i :| 0 <= i < |data| && data[i] == Entry(IntKey(0), First(data));
    }
    if data != [] {
      assert data[0] in data;
    }
  }

  // ---- the three forms of `orderedToggledTableColumns` ----

  /** The array form: each item `{column, isVisible}` becomes a column. An
      item that is not an array, or lacks either key, makes PHP throw. */
  function ArrayForm(items: seq<Entry>): (r: Result<seq<Value>>)
    ensures r.Success? <==> forall i :: 0 <= i < |items| ==> IsArrayItem(items[i].value)
    ensures r.Success? ==> |r.value| == |items| && forall i :: 0 <= i < |items| ==>
      r.value[i] == Column(Get(items[i].value.entries, StrKey("column")).value,
                           Get(items[i].value.entries, StrKey("isVisible")).value)
  {
    if items == [] then Success([])
    else
      var item := items[0].value;
      var rest := ArrayForm(items[1..]);
      assert forall i :: 1 <= i < |items| ==> items[i] == items[1..][i - 1];
      if !IsArrayItem(item) then Failure("array item without column or isVisible")
      else if rest.Failure? then rest
      else
        Success([Column(Get(item.entries, StrKey("column")).value, Get(item.entries, StrKey("isVisible")).value)]
                + rest.value)
  }

  /** An item the array form can read without an error. */
  predicate IsArrayItem(item: Value) {
    item.Arr? && Get(item.entries, StrKey("column")).Some? && Get(item.entries, StrKey("isVisible")).Some?
  }

  /** The keys of an array as column names. */
  function Names(entries: seq<Entry>): (r: seq<string>)
    ensures |r| == |entries|
    ensures forall i :: 0 <= i < |entries| ==> r[i] == KeyString(entries[i].key)
  {
    seq(|entries|, i requires 0 <= i < |entries| => KeyString(entries[i].key))
  }

  /** `$dotted[$column] ?? true`. */
  function ToggledOr(dotted: seq<DotEntry>, name: string): (v: Value)
    ensures DotGet(dotted, name).Some? && !DotGet(dotted, name).value.Null? ==> v == DotGet(dotted, name).value
    ensures DotGet(dotted, name).None? || DotGet(dotted, name).value.Null? ==> v == Bool(true)
  {
    match DotGet(dotted, name)
    case Some(v) => if v.Null? then Bool(true) else v
    case None => Bool(true)
  }

  /** The flattened toggled entries whose key is not an ordered column, in
      their own order. */
  function Missing(dotted: seq<DotEntry>, names: seq<string>): (r: seq<Value>)
    ensures |r| <= |dotted|
    ensures forall v :: v in r ==> exists d :: d in dotted && d.key !in names && v == Column(Str(d.key), d.value)
    ensures forall d :: d in dotted && d.key !in names ==> Column(Str(d.key), d.value) in r
  {
    if dotted == [] then []
    else
      var d := dotted[0];
      var rest := Missing(dotted[1..], names);
      assert forall x :: x in dotted[1..] ==> x in dotted;
      assert forall x :: x in dotted ==> x == d || x in dotted[1..];
      if d.key in names then rest else [Column(Str(d.key), d.value)] + rest
  }

  /** The order form: the ordered keys first, each toggled as the toggled
      columns say (default true), then the toggled columns not among them. */
  function OrderForm(ordered: seq<Entry>, toggled: seq<Entry>): (r: seq<Value>)
    ensures |r| >= |ordered|
    ensures forall i :: 0 <= i < |ordered| ==>
      r[i] == Column(Str(KeyString(ordered[i].key)), ToggledOr(Dot(toggled), KeyString(ordered[i].key)))
    ensures r[|ordered|..] == Missing(Dot(toggled), Names(ordered))
  {
    var dotted := if toggled == [] then [] else Dot(toggled);
    assert toggled == [] ==> Dot(toggled) == [];
    var names := Names(ordered);
    var first := seq(|ordered|, i requires 0 <= i < |ordered| => Column(Str(names[i]), ToggledOr(dotted, names[i])));
    var r := first + Missing(dotted, names);
    assert r[|ordered|..] == Missing(dotted, names);
    r
  }

  /** The bool form: each key with its boolean, in order. */
  function BoolForm(ordered: seq<Entry>): (r: seq<Value>)
    ensures |r| == |ordered|
    ensures forall i :: 0 <= i < |ordered| ==> r[i] == Column(Str(KeyString(ordered[i].key)), ordered[i].value)
  {
    seq(|ordered|, i requires 0 <= i < |ordered| => Column(Str(KeyString(ordered[i].key)), ordered[i].value))
  }

  /** `transformOrderedToggledColumns`: both arguments must be arrays;
      the shapes are tried in the order array, order, bool. */
  function TransformOrdered(ordered: Value, toggled: Value): (r: Result<seq<Value>>)
    ensures !ordered.Arr? || !toggled.Arr? ==> r.Failure?
    ensures ordered.Arr? && toggled.Arr? && !IsStoredAsArray(ordered.entries) && IsStoredAsOrder(ordered.entries) ==>
      r == Success(OrderForm(ordered.entries, toggled.entries))
    ensures ordered.Arr? && toggled.Arr? && IsStoredAsBool(ordered.entries) ==>
      r == Success(BoolForm(ordered.entries))
    ensures ordered.Arr? && toggled.Arr? && IsStoredAsArray(ordered.entries) ==> r == ArrayForm(ordered.entries)
    ensures ordered.Arr? && toggled.Arr? && !IsStoredAsArray(ordered.entries) &&
            !IsStoredAsOrder(ordered.entries) && !IsStoredAsBool(ordered.entries)
            ==> r == Success([])
  {
    if !ordered.Arr? || !toggled.Arr? then Failure("TypeError: array expected")
    else if IsStoredAsArray(ordered.entries) then
      ShapesExclusive(ordered.entries);
      ArrayForm(ordered.entries)
    else if IsStoredAsOrder(ordered.entries) then
      Success(OrderForm(ordered.entries, toggled.entries))
    else if IsStoredAsBool(ordered.entries) then
      ShapesExclusive(ordered.entries);
      Success(BoolForm(ordered.entries))
    else Success([])
  }

  /** A `bool` parameter in PHP's coercive mode: scalars convert, null and
      arrays are a type error. */
  function BoolArgument(v: Value): (r: Result<bool>)
    ensures r.Success? <==> !v.Null? && !v.Arr?
    ensures v.Bool? ==> r == Success(v.b)
  {
    match v
    case Bool(b) => Success(b)
    case Int(n) => Success(n != 0)
    case Str(s) => Success(!IsFalsy(s))
    case Null => Failure("TypeError: bool expected")
    case Arr(_) => Failure("TypeError: bool expected")
  }

  /** `transformToggledTableColumns`: one column per flattened key, in order. */
  function TransformToggled(toggled: Value): (r: Result<seq<Value>>)
    ensures !toggled.Arr? ==> r.Failure?
    ensures r.Success? ==>
      toggled.Arr? && |r.value| == |Dot(toggled.entries)| &&
      forall i :: 0 <= i < |r.value| ==>
        var d := Dot(toggled.entries)[i];
        BoolArgument(d.value).Success? && r.value[i] == ToggledColumn(d.key, BoolArgument(d.value).value)
    ensures toggled.Arr? && (forall d :: d in Dot(toggled.entries) ==> BoolArgument(d.value).Success?) ==> r.Success?
  {
    if !toggled.Arr? then Failure("TypeError: array expected")
    else ToggledColumns(Dot(toggled.entries))
  }

  function ToggledColumns(dotted: seq<DotEntry>): (r: Result<seq<Value>>)
    ensures r.Success? ==> |r.value| == |dotted| && forall i :: 0 <= i < |dotted| ==>
      BoolArgument(dotted[i].value).Success? && r.value[i] == ToggledColumn(dotted[i].key, BoolArgument(dotted[i].value).value)
    ensures (forall d :: d in dotted ==> BoolArgument(d.value).Success?) ==> r.Success?
  {
    if dotted == [] then Success([])
    else
      var b := BoolArgument(dotted[0].value);
      var rest := ToggledColumns(dotted[1..]);
      assert forall i :: 1 <= i < |dotted| ==> dotted[i] == dotted[1..][i - 1];
      assert forall d :: d in dotted[1..] ==> d in dotted;
      if b.Failure? then Failure(b.error)
      else if rest.Failure? then rest
      else Success([ToggledColumn(dotted[0].key, b.value)] + rest.value)
  }

  /** `transformTableColumns`: the ordered columns take priority over the
      toggled ones; with neither set there is nothing to migrate. */
  function TransformTableColumns(filters: seq<Entry>): (r: Result<seq<Value>>)
    ensures IsSet(filters, OrderedKey) ==>
      r == TransformOrdered(Get(filters, OrderedKey).value, GetOr(filters, ToggledKey, Arr([])))
    ensures !IsSet(filters, OrderedKey) && IsSet(filters, ToggledKey) ==>
      r == TransformToggled(Get(filters, ToggledKey).value)
    ensures !IsSet(filters, OrderedKey) && !IsSet(filters, ToggledKey) ==> r == Success([])
  {
    if IsSet(filters, OrderedKey) then
      TransformOrdered(Get(filters, OrderedKey).value, GetOr(filters, ToggledKey, Arr([])))
    else if IsSet(filters, ToggledKey) then
      TransformToggled(Get(filters, ToggledKey).value)
    else Success([])
  }

  /** One saved filter set, as `up` leaves it: a value that is not an array,
      or that yields no columns, stays as it is; otherwise both old keys go
      and `tableColumns` holds the list of columns. */
  function MigrateFilters(filters: Value): (r: Result<Value>)
    ensures !filters.Arr? ==> r == Success(filters)
    ensures filters.Arr? && TransformTableColumns(filters.entries) == Success([]) ==> r == Success(filters)
    ensures filters.Arr? && TransformTableColumns(filters.entries).Failure? ==> r.Failure?
    ensures filters.Arr? && TransformTableColumns(filters.entries).Success? && TransformTableColumns(filters.entries).value != [] ==>
      r.Success? && r.value.Arr? &&
      Get(r.value.entries, OrderedKey).None? && Get(r.value.entries, ToggledKey).None? &&
      Get(r.value.entries, TableColumnsKey) == Some(List(TransformTableColumns(filters.entries).value)) &&
      forall k :: k != OrderedKey && k != ToggledKey && k != TableColumnsKey ==>
        Get(r.value.entries, k) == Get(filters.entries, k)
  {
    if !filters.Arr? then Success(filters)
    else
      match TransformTableColumns(filters.entries)
      case Failure(e) => Failure(e)
      case Success(columns) =>
        if columns == [] then Success(filters)
        else Success(Arr(Set(Unset(Unset(filters.entries, OrderedKey), ToggledKey), TableColumnsKey, List(columns))))
  }

  /** A row of `filament_filter_sets`, its `filters` column decoded. */
  datatype FilterSet = FilterSet(id: int, filters: Value)

  /** `up`: every row migrated, or, when one row throws, an error and no row
      changed. */
  method Up(rows: seq<FilterSet>) returns (r: Result<seq<FilterSet>>)
    ensures r.Success? <==> forall i :: 0 <= i < |rows| ==> MigrateFilters(rows[i].filters).Success?
    ensures r.Success? ==>
      |r.value| == |rows| &&
      forall i :: 0 <= i < |rows| ==> r.value[i] == FilterSet(rows[i].id, MigrateFilters(rows[i].filters).value)
  {
    var updated: seq<FilterSet> := [];
    var k := 0;
    while k < |rows|
      invariant k <= |rows| && |updated| == k
      invariant forall i :: 0 <= i < k ==>
        MigrateFilters(rows[i].filters).Success? &&
        updated[i] == FilterSet(rows[i].id, MigrateFilters(rows[i].filters).value)
    {
      var m := MigrateFilters(rows[k].filters);
      if m.Failure? {
        return Failure(m.error);
      }
      updated := updated + [FilterSet(rows[k].id, m.value)];
      k := k + 1;
    }
    r := Success(updated);
  }

  /** A filter set with neither old key is left exactly as it was. */
  lemma WithoutOldKeysUntouched(filters: Value)
    requires filters.Arr? && !IsSet(filters.entries, OrderedKey) && !IsSet(filters.entries, ToggledKey)
    ensures MigrateFilters(filters) == Success(filters)
  {
  }

  /** The order form adds no toggled column twice: the flattened keys are
      distinct, so are the columns built from them. */
  lemma {:induction false} MissingDistinct(dotted: seq<DotEntry>, names: seq<string>)
    requires DistinctKeys(dotted)
    ensures forall i, j :: 0 <= i < j < |Missing(dotted, names)| ==> Missing(dotted, names)[i] != Missing(dotted, names)[j]
  {
    if dotted != [] {
      var d := dotted[0];
      var tail := dotted[1..];
      DistinctKeysTail(dotted);
      MissingDistinct(tail, names);
      if d.key !in names {
        var rest := Missing(tail, names);
        forall j | 0 <= j < |rest| ensures Column(Str(d.key), d.value) != rest[j] {
          NotMissingAgain(dotted, names, rest[j]);
        }
        assert Missing(dotted, names) == [Column(Str(d.key), d.value)] + rest;
      } else {
        assert Missing(dotted, names) == Missing(tail, names);
      }
    }
  }

  lemma DistinctKeysTail(dotted: seq<DotEntry>)
    requires dotted != [] && DistinctKeys(dotted)
    ensures DistinctKeys(dotted[1..])
  {
    var tail := dotted[1..];
    forall i, j | 0 <= i < j < |tail| ensures tail[i].key != tail[j].key {
      assert tail[i] == dotted[i + 1] && tail[j] == dotted[j + 1];
    }
  }

  /** The column of the first key is not among those of the later keys. */
  lemma NotMissingAgain(dotted: seq<DotEntry>, names: seq<string>, v: Value)
    requires dotted != [] && DistinctKeys(dotted) && v in Missing(dotted[1..], names)
    ensures Column(Str(dotted[0].key), dotted[0].value) != v
  {
    var tail := dotted[1..];
    var x :| x in tail && x.key !in names && v == Column(Str(x.key), x.value);
    var k :| 0 <= k < |tail| && tail[k] == x;
    assert dotted[k + 1] == x;
    ColumnNames(dotted[0].key, dotted[0].value, x.key, x.value);
  }

  lemma ColumnNames(a: string, va: Value, b: string, vb: Value)
    requires a != b
    ensures Column(Str(a), va) != Column(Str(b), vb)
  {
    assert Column(Str(a), va).entries[1].value == Str(a);
  }
}
