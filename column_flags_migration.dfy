/** The migration that gives every column of a saved v4 `tableColumns` list
    the flags `isHidden` and `isToggledHiddenByDefault`, both false. A set
    whose first column already has both flags is left alone, so running the
    migration again changes nothing. */
module ColumnFlagsMigration {
  import opened Wrappers
  import opened PhpArray

  const TableColumnsKey: Key := StrKey("tableColumns")
  const HiddenKey: Key := StrKey("isHidden")
  const HiddenByDefaultKey: Key := StrKey("isToggledHiddenByDefault")

  /** `$column['isHidden'] = false; $column['isToggledHiddenByDefault'] =
      false;` on one column taken by reference: an array gets both keys, null
      and false turn into a new array, any other scalar makes PHP throw. */
  function WithFlags(column: Value): (r: Result<Value>)
    ensures r.Success? <==> column.Arr? || column.Null? || column == Bool(false)
    ensures r.Success? ==>
      r.value.Arr? &&
      Get(r.value.entries, HiddenKey) == Some(Bool(false)) &&
      Get(r.value.entries, HiddenByDefaultKey) == Some(Bool(false))
    ensures column.Arr? ==>
      r.Success? &&
      forall k :: k != HiddenKey && k != HiddenByDefaultKey ==> Get(r.value.entries, k) == Get(column.entries, k)
    ensures !column.Arr? && r.Success? ==> r.value.entries == [Entry(HiddenKey, Bool(false)), Entry(HiddenByDefaultKey, Bool(false))]
  {
    match column
    case Arr(e) => Success(Arr(Set(Set(e, HiddenKey, Bool(false)), HiddenByDefaultKey, Bool(false))))
    case Null => Success(Arr([Entry(HiddenKey, Bool(false)), Entry(HiddenByDefaultKey, Bool(false))]))
    case Bool(b) =>
      if b then Failure("Cannot use a scalar value as an array")
      else Success(Arr([Entry(HiddenKey, Bool(false)), Entry(HiddenByDefaultKey, Bool(false))]))
    case Int(_) => Failure("Cannot use a scalar value as an array")
    case Str(_) => Failure("Illegal string offset")
  }

  /** Each column changed by `f`, keys and order kept; the first column `f`
      fails on aborts. */
  function MapColumns(columns: seq<Entry>, f: Value -> Result<Value>): (r: Result<seq<Entry>>)
    ensures r.Success? <==> forall i :: 0 <= i < |columns| ==> f(columns[i].value).Success?
    ensures r.Success? ==> |r.value| == |columns| && forall i :: 0 <= i < |columns| ==>
      r.value[i] == Entry(columns[i].key, f(columns[i].value).value)
  {
    if columns == [] then Success([])
    else
      var c := f(columns[0].value);
      var rest := MapColumns(columns[1..], f);
      assert forall i :: 1 <= i < |columns| ==> columns[i] == columns[1..][i - 1];
      if c.Failure? then Failure(c.error)
      else if rest.Failure? then rest
      else Success([Entry(columns[0].key, c.value)] + rest.value)
  }

  /** Looking a key up in the changed columns finds the changed column. */
  lemma {:induction false} GetMapped(columns: seq<Entry>, f: Value -> Result<Value>, k: Key)
    requires MapColumns(columns, f).Success?
    ensures Get(MapColumns(columns, f).value, k).Some? <==> Get(columns, k).Some?
    ensures Get(columns, k).Some? ==> Get(MapColumns(columns, f).value, k) == Some(f(Get(columns, k).value).value)
  {
    if columns != [] {
      GetMapped(columns[1..], f, k);
      assert MapColumns(columns, f).value[1..] == MapColumns(columns[1..], f).value;
    }
  }

  /** The columns after the `foreach`: each with its flags, keys and order
      kept; the first column that cannot take them aborts. */
  function Backfilled(columns: seq<Entry>): (r: Result<seq<Entry>>)
    ensures r.Success? <==> forall i :: 0 <= i < |columns| ==> WithFlags(columns[i].value).Success?
    ensures r.Success? ==> |r.value| == |columns| && forall i :: 0 <= i < |columns| ==>
      r.value[i] == Entry(columns[i].key, WithFlags(columns[i].value).value)
  {
    MapColumns(columns, WithFlags)
  }

  /** The first column already carries both flags. */
  predicate Flagged(first: Value) {
    first.Arr? && IsSet(first.entries, HiddenKey) && IsSet(first.entries, HiddenByDefaultKey)
  }

  /** The migration of one saved filter set: unchanged when `tableColumns` is
      missing or empty or its first column is flagged; an error when it is not
      an array or has no element 0; otherwise the list with every column
      flagged, in its place. */
  function MigrateFilters(filters: Value): (r: Result<Value>)
    ensures !filters.Arr? || !IsSet(filters.entries, TableColumnsKey) ==> r == Success(filters)
    ensures filters.Arr? && IsSet(filters.entries, TableColumnsKey) && Empty(Get(filters.entries, TableColumnsKey).value) ==>
      r == Success(filters)
    ensures filters.Arr? && IsSet(filters.entries, TableColumnsKey) ==>
      var c := Get(filters.entries, TableColumnsKey).value;
      !Empty(c) && !c.Arr? ==> r.Failure?
    ensures filters.Arr? && IsSet(filters.entries, TableColumnsKey) ==>
      var c := Get(filters.entries, TableColumnsKey).value;
      !Empty(c) && c.Arr? && Get(c.entries, IntKey(0)).None? ==> r.Failure?
    ensures filters.Arr? && IsSet(filters.entries, TableColumnsKey) ==>
      var c := Get(filters.entries, TableColumnsKey).value;
      !Empty(c) && c.Arr? && Get(c.entries, IntKey(0)).Some? && Flagged(Get(c.entries, IntKey(0)).value) ==>
        r == Success(filters)
    ensures filters.Arr? && IsSet(filters.entries, TableColumnsKey) ==>
      var c := Get(filters.entries, TableColumnsKey).value;
      !Empty(c) && c.Arr? && Get(c.entries, IntKey(0)).Some? && !Flagged(Get(c.entries, IntKey(0)).value) ==>
        (r.Success? <==> Backfilled(c.entries).Success?) &&
        (r.Success? ==> r.value == Arr(Set(filters.entries, TableColumnsKey, Arr(Backfilled(c.entries).value))))
  {
    if !filters.Arr? || !IsSet(filters.entries, TableColumnsKey) then Success(filters)
    else
      var columns := Get(filters.entries, TableColumnsKey).value;
      if Empty(columns) then Success(filters)
      else if !columns.Arr? then Failure("not an array of columns")
      else if Get(columns.entries, IntKey(0)).None? then Failure("Undefined array key 0")
      else if Flagged(Get(columns.entries, IntKey(0)).value) then Success(filters)
      else
        match Backfilled(columns.entries)
        case Failure(e) => Failure(e)
        case Success(flagged) => Success(Arr(Set(filters.entries, TableColumnsKey, Arr(flagged))))
  }

  /** The `foreach` over the columns by reference. */
  method BackfillColumns(columns: seq<Entry>) returns (r: Result<seq<Entry>>)
    ensures r.Success? == Backfilled(columns).Success?
    ensures r.Success? ==> r.value == Backfilled(columns).value
  {
    var done: seq<Entry> := [];
    var k := 0;
    while k < |columns|
      invariant k <= |columns| && FlaggedUpTo(columns, done, k)
    {
      var c := WithFlags(columns[k].value);
      if c.Failure? {
        return Failure(c.error);
      }
      FlaggedStep(columns, done, k, c.value);
      done := done + [Entry(columns[k].key, c.value)];
      k := k + 1;
    }
    assert done == Backfilled(columns).value;
    r := Success(done);
  }

  /** The first `k` columns are flagged, in `done`. */
  predicate FlaggedUpTo(columns: seq<Entry>, done: seq<Entry>, k: nat)
    requires k <= |columns|
  {
    |done| == k &&
    forall i :: 0 <= i < k ==>
      WithFlags(columns[i].value).Success? && done[i] == Entry(columns[i].key, WithFlags(columns[i].value).value)
  }

  lemma FlaggedStep(columns: seq<Entry>, done: seq<Entry>, k: nat, c: Value)
    requires k < |columns| && FlaggedUpTo(columns, done, k)
    requires WithFlags(columns[k].value) == Success(c)
    ensures FlaggedUpTo(columns, done + [Entry(columns[k].key, c)], k + 1)
  {
  }

  /** The body of the record loop. */
  method MigrateRecord(filters: Value) returns (r: Result<Value>)
    ensures r.Success? == MigrateFilters(filters).Success?
    ensures r.Success? ==> r.value == MigrateFilters(filters).value
  {
    if !filters.Arr? || !IsSet(filters.entries, TableColumnsKey) {
      return Success(filters);
    }
    var columns := Get(filters.entries, TableColumnsKey).value;
    if Empty(columns) {
      return Success(filters);
    }
    if !columns.Arr? {
      return Failure("not an array of columns");
    }
    var first := Get(columns.entries, IntKey(0));
    if first.None? {
      return Failure("Undefined array key 0");
    }
    if Flagged(first.value) {
      return Success(filters);
    }
    var flagged := BackfillColumns(columns.entries);
    if flagged.Failure? {
      return Failure(flagged.error);
    }
    r := Success(Arr(Set(filters.entries, TableColumnsKey, Arr(flagged.value))));
  }

  /** A row of `filament_filter_sets`, its `filters` column decoded. */
  datatype FilterSet = FilterSet(id: int, filters: Value)

  /** `up`: every row migrated, or, when one row throws, an error and no row
      changed. */
  method Up(rows: seq<FilterSet>) returns (r: Result<seq<FilterSet>>)
    ensures r.Success? <==> forall i :: 0 <= i < |rows| ==> MigrateFilters(rows[i].filters).Success?
    ensures r.Success? ==>
      |r.value| == |rows| &&
      forall i :: 0 <= i < |rows| ==> r.value[i] == FilterSet(rows[i].id, MigrateFilters(rows[i].filters).value)
  {
    var updated: seq<FilterSet> := [];
    var k := 0;
    while k < |rows|
      invariant k <= |rows| && |updated| == k
      invariant forall i :: 0 <= i < k ==>
        MigrateFilters(rows[i].filters).Success? &&
        updated[i] == FilterSet(rows[i].id, MigrateFilters(rows[i].filters).value)
    {
      var m := MigrateRecord(rows[k].filters);
      if m.Failure? {
        return Failure(m.error);
      }
      updated := updated + [FilterSet(rows[k].id, m.value)];
      k := k + 1;
    }
    r := Success(updated);
  }

  /** A migrated set has every column, under its own key, flagged false, and
      the other fields of the set unchanged (`WithFlags` keeps the other fields
      of each column). */
  lemma MigratedColumns(filters: Value)
    requires MigrateFilters(filters).Success? && MigrateFilters(filters) != Success(filters)
    ensures var out := MigrateFilters(filters).value;
      var columns := Get(filters.entries, TableColumnsKey).value;
      out.Arr? && columns.Arr? &&
      (forall k :: k != TableColumnsKey ==> Get(out.entries, k) == Get(filters.entries, k)) &&
      Get(out.entries, TableColumnsKey).Some? &&
      var flagged := Get(out.entries, TableColumnsKey).value;
      flagged.Arr? && |flagged.entries| == |columns.entries| &&
      forall i :: 0 <= i < |columns.entries| ==>
        flagged.entries[i].key == columns.entries[i].key &&
        var c := flagged.entries[i].value;
        c.Arr? && Get(c.entries, HiddenKey) == Some(Bool(false)) && Get(c.entries, HiddenByDefaultKey) == Some(Bool(false))
  {
  }

  /** Looking a key up in the flagged columns finds the flagged column. */
  lemma GetBackfilled(columns: seq<Entry>, k: Key)
    requires Backfilled(columns).Success?
    ensures Get(Backfilled(columns).value, k).Some? <==> Get(columns, k).Some?
    ensures Get(columns, k).Some? ==> Get(Backfilled(columns).value, k) == Some(WithFlags(Get(columns, k).value).value)
  {
    GetMapped(columns, WithFlags, k);
  }

  /** Running the migration on its own output changes nothing. */
  lemma Idempotent(filters: Value)
    requires MigrateFilters(filters).Success?
    ensures MigrateFilters(MigrateFilters(filters).value) == MigrateFilters(filters)
  {
    var out := MigrateFilters(filters).value;
    if out != filters {
      var columns := Get(filters.entries, TableColumnsKey).value;
      var flagged := Backfilled(columns.entries).value;
      assert Get(out.entries, TableColumnsKey) == Some(Arr(flagged));
      GetBackfilled(columns.entries, IntKey(0));
      var first := Get(flagged, IntKey(0)).value;
      assert first == WithFlags(Get(columns.entries, IntKey(0)).value).value;
      assert Flagged(first);
      assert flagged != [] by {
        assert Get(flagged, IntKey(0)).Some?;
      }
    }
  }
}
