/** The filter engine every page and panel shares.  A filter map holds
    one selected value per column, `''` standing for "All"; a row is kept
    when, for every entry whose value is not empty, the row's cell is
    strictly equal (`===`) to that value.  Since the selected values are
    strings, a cell that holds a number or nothing never matches. */
module Filtering {
  import opened Seqs
  import opened Cells

  type Filters = map<string, string>

  /** One entry of a filter map: `!value || row[key] === value`. */
  predicate Matches(row: Row, key: string, value: string) {
    value == "" || Get(row, key) == Str(value)
  }

  /** Every entry of the filter map matches. */
  predicate Keep(row: Row, filters: Filters) {
    forall k :: k in filters ==> Matches(row, k, filters[k])
  }

  /** `rows.filter(row => Object.keys(filters).every(...))`. */
  function FilterRows(rows: seq<Row>, filters: Filters): (r: seq<Row>)
    ensures |r| <= |rows|
    ensures forall i :: 0 <= i < |r| ==> Keep(r[i], filters) && r[i] in rows
    ensures forall i :: 0 <= i < |rows| && Keep(rows[i], filters) ==> rows[i] in r
  {
    Filter(rows, row => Keep(row, filters))
  }

  /** The kept rows are the original rows, in their original order. */
  lemma FilterRowsSubsequence(rows: seq<Row>, filters: Filters)
    ensures IsSubsequence(FilterRows(rows, filters), rows)
  {
    FilterIsSubsequence(rows, row => Keep(row, filters));
  }

  /** A map whose every value is empty keeps every row. */
  lemma FilterRowsIdentity(rows: seq<Row>, filters: Filters)
    requires forall k :: k in filters ==> filters[k] == ""
    ensures FilterRows(rows, filters) == rows
  {
    FilterKeepsAll(rows, row => Keep(row, filters));
  }

  /** Setting one more entry filters the rows already kept once more, so it
      can only remove rows. */
  lemma FilterRowsNarrow(rows: seq<Row>, filters: Filters, key: string, value: string)
    requires key !in filters || filters[key] == ""
    ensures FilterRows(rows, filters[key := value])
         == Filter(FilterRows(rows, filters), row => Matches(row, key, value))
    ensures IsSubsequence(FilterRows(rows, filters[key := value]), FilterRows(rows, filters))
  {
    var nf := filters[key := value];
    forall row | row in rows
      ensures Keep(row, nf) <==> Keep(row, filters) && Matches(row, key, value)
    {
      if Keep(row, nf) {
        assert key in nf && Matches(row, key, nf[key]);
        forall k | k in filters
          ensures Matches(row, k, filters[k])
        {
          if k != key {
            assert k in nf && nf[k] == filters[k];
          }
        }
      }
      if Keep(row, filters) && Matches(row, key, value) {
        forall k | k in nf
          ensures Matches(row, k, nf[k])
        {
          if k != key {
            assert k in filters;
          }
        }
      }
    }
    FilterFilter(rows, row => Keep(row, filters), row => Matches(row, key, value),
      row => Keep(row, filters[key := value]));
    FilterIsSubsequence(FilterRows(rows, filters), row => Matches(row, key, value));
  }

  /** A row is kept exactly when it is one of the rows and every entry
      matches it. */
  lemma FilterRowsMembers(rows: seq<Row>, filters: Filters)
    ensures forall row :: row in FilterRows(rows, filters) <==> row in rows && Keep(row, filters)
  {
  }

  /** `rows.filter(row => row[key] === value)`. */
  function CellEquals(rows: seq<Row>, key: string, value: string): seq<Row> {
    Filter(rows, row => Get(row, key) == Str(value))
  }

  /** Adding a new entry to the map: an empty value changes nothing, any
      other value filters the rows already kept by strict equality. */
  lemma ApplyEntry(rows: seq<Row>, filters: Filters, key: string, value: string)
    requires key !in filters
    ensures FilterRows(rows, filters[key := value]) ==
      if value == "" then FilterRows(rows, filters)
      else CellEquals(FilterRows(rows, filters), key, value)
  {
    FilterRowsNarrow(rows, filters, key, value);
    var kept := FilterRows(rows, filters);
    if value == "" {
      FilterKeepsAll(kept, row => Matches(row, key, value));
    } else {
      FilterExtensional(kept, row => Matches(row, key, value), row => Get(row, key) == Str(value));
    }
  }

  /** The cells of one column: `data.map(row => row[field])`. */
  function Column(rows: seq<Row>, field: string): (c: seq<Cell>)
    ensures |c| == |rows|
    ensures forall i :: 0 <= i < |rows| ==> c[i] == Get(rows[i], field)
  {
    seq(|rows|, i requires 0 <= i < |rows| => Get(rows[i], field))
  }

  /** `[...new Set(data.map(row => row[field]).filter(Boolean))]`: the
      distinct truthy cells of a column, in the order they first occur. */
  function UniqueValues(rows: seq<Row>, field: string): (r: seq<Cell>)
    ensures NoDups(r)
    ensures forall i :: 0 <= i < |r| ==> Truthy(r[i]) && r[i] in Column(rows, field)
    ensures forall i :: 0 <= i < |rows| && Truthy(Get(rows[i], field)) ==> Get(rows[i], field) in r
    ensures |r| <= |rows|
  {
    var c := Column(rows, field);
    assert forall i :: 0 <= i < |rows| && Truthy(Get(rows[i], field)) ==> c[i] in Filter(c, Truthy);
    Dedup(Filter(c, Truthy))
  }

  /** `[...new Set(data.map(row => row[field]))].filter(Boolean)`: the same
      list, de-duplicated before the falsy cells are dropped. */
  function OptionsOf(rows: seq<Row>, field: string): seq<Cell> {
    Filter(Dedup(Column(rows, field)), Truthy)
  }

  /** Dropping the falsy cells before or after de-duplicating gives the same
      options. */
  lemma OptionsAreUniqueValues(rows: seq<Row>, field: string)
    ensures OptionsOf(rows, field) == UniqueValues(rows, field)
  {
    DedupFilterCommute(Column(rows, field), Truthy);
  }

  /** The options come in the order of their first occurrence among the
      column's truthy cells. */
  lemma UniqueValuesOrder(rows: seq<Row>, field: string)
    ensures var t := Filter(Column(rows, field), Truthy);
      forall i, j :: 0 <= i < j < |UniqueValues(rows, field)| ==>
        IndexOf(t, UniqueValues(rows, field)[i]) < IndexOf(t, UniqueValues(rows, field)[j])
  {
    DedupFirstOccurrenceOrder(Filter(Column(rows, field), Truthy));
  }

  /** "Select All": the one field is reset to `''`. */
  function SelectAll(filters: Filters, field: string): (r: Filters)
    ensures field in r && r[field] == ""
    ensures r.Keys == filters.Keys + {field}
    ensures forall k :: k in filters && k != field ==> r[k] == filters[k]
  {
    filters[field := ""]
  }

  /** Choosing an option of one dropdown: only that field changes. */
  function Choose(filters: Filters, field: string, value: string): (r: Filters)
    ensures field in r && r[field] == value
    ensures r.Keys == filters.Keys + {field}
    ensures forall k :: k in filters && k != field ==> r[k] == filters[k]
  {
    filters[field := value]
  }

  /** The option value `'All'` stands for the empty selection. */
  function OptionValue(value: string): (r: string)
    ensures value == "All" ==> r == ""
    ensures value != "All" ==> r == value
  {
    if value == "All" then "" else value
  }

  /** After "Select All" the field no longer filters: the rows kept are
      those the other entries keep. */
  lemma SelectAllWidens(rows: seq<Row>, filters: Filters, field: string)
    ensures FilterRows(rows, SelectAll(filters, field)) == FilterRows(rows, filters - {field})
  {
    forall row | row in rows
      ensures Keep(row, SelectAll(filters, field)) <==> Keep(row, filters - {field})
    {
      if Keep(row, filters - {field}) {
        forall k | k in SelectAll(filters, field)
          ensures Matches(row, k, SelectAll(filters, field)[k])
        {
          if k != field {
            assert k in filters - {field};
          }
        }
      }
    }
    FilterExtensional(rows, row => Keep(row, SelectAll(filters, field)), row => Keep(row, filters - {field}));
  }
}
