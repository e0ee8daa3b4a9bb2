/** The migration that folds the saved `tableSortColumn` and
    `tableSortDirection` of a filter set into one `tableSort` value
    `column:direction`. */
module TableSortMigration {
  import opened Wrappers
  import opened PhpText
  import opened PhpArray

  const SortColumnKey: Key := StrKey("tableSortColumn")
  const SortDirectionKey: Key := StrKey("tableSortDirection")
  const TableSortKey: Key := StrKey("tableSort")

  /** The body of the record loop: a value that is not an array, or has no
      sort column, is left alone; otherwise `tableSort` is the column, a colon
      and the direction (`asc` when none is set), both old keys are removed
      and every other key keeps its value. Concatenating an array throws. */
  function MigrateFilters(filters: Value): (r: Result<Value>)
    ensures !filters.Arr? || !IsSet(filters.entries, SortColumnKey) ==> r == Success(filters)
    ensures filters.Arr? && IsSet(filters.entries, SortColumnKey) ==>
      var column := StringOf(Get(filters.entries, SortColumnKey).value);
      var direction := StringOf(GetOr(filters.entries, SortDirectionKey, Str("asc")));
      (r.Success? <==> column.Success? && direction.Success?) &&
      (r.Success? ==>
        r.value.Arr? &&
        Get(r.value.entries, TableSortKey) == Some(Str(column.value + ":" + direction.value)) &&
        Get(r.value.entries, SortColumnKey).None? && Get(r.value.entries, SortDirectionKey).None? &&
        forall k :: k != TableSortKey && k != SortColumnKey && k != SortDirectionKey ==>
          Get(r.value.entries, k) == Get(filters.entries, k))
  {
    if !filters.Arr? || !IsSet(filters.entries, SortColumnKey) then Success(filters)
    else
      var entries := filters.entries;
      var column := StringOf(Get(entries, SortColumnKey).value);
      var direction := StringOf(GetOr(entries, SortDirectionKey, Str("asc")));
      if column.Failure? || direction.Failure? then Failure("Array to string conversion")
      else Success(Arr(Unset(Unset(Set(entries, TableSortKey, Str(column.value + ":" + direction.value)), SortColumnKey), SortDirectionKey)))
  }

  /** The loop body, step by step as the source writes it. */
  method MigrateRecord(filters: Value) returns (r: Result<Value>)
    ensures r == MigrateFilters(filters)
  {
    if !filters.Arr? || !IsSet(filters.entries, SortColumnKey) {
      return Success(filters);
    }
    var entries := filters.entries;
    var column := StringOf(Get(entries, SortColumnKey).value);
    var direction := StringOf(GetOr(entries, SortDirectionKey, Str("asc")));
    if column.Failure? || direction.Failure? {
      return Failure("Array to string conversion");
    }
    entries := Set(entries, TableSortKey, Str(column.value + ":" + direction.value));
    entries := Unset(entries, SortColumnKey);
    entries := Unset(entries, SortDirectionKey);
    r := Success(Arr(entries));
  }

  /** A migrated filter set has no sort column left, so running the
      migration again changes nothing. */
  lemma Idempotent(filters: Value)
    requires MigrateFilters(filters).Success?
    ensures MigrateFilters(MigrateFilters(filters).value) == MigrateFilters(filters)
  {
  }

  /** A row of `filament_filter_sets`, its `filters` column decoded. */
  datatype FilterSet = FilterSet(id: int, filters: Value)

  /** `up`: every row rewritten by the record step, or, when one row throws,
      an error and no row changed (the migration runs in a transaction). */
  method Up(rows: seq<FilterSet>) returns (r: Result<seq<FilterSet>>)
    ensures r.Success? <==> forall i :: 0 <= i < |rows| ==> MigrateFilters(rows[i].filters).Success?
    ensures r.Success? ==>
      |r.value| == |rows| &&
      forall i :: 0 <= i < |rows| ==> r.value[i] == FilterSet(rows[i].id, MigrateFilters(rows[i].filters).value)
  {
    var updated: seq<FilterSet> := [];
    var k := 0;
    while k < |rows|
      invariant k <= |rows| && |updated| == k
      invariant forall i :: 0 <= i < k ==>
        MigrateFilters(rows[i].filters).Success? &&
        updated[i] == FilterSet(rows[i].id, MigrateFilters(rows[i].filters).value)
    {
      var m := MigrateRecord(rows[k].filters);
      if m.Failure? {
        return Failure(m.error);
      }
      updated := updated + [FilterSet(rows[k].id, m.value)];
      k := k + 1;
    }
    r := Success(updated);
  }
}
