/** The contest page: the Part 1 rows narrowed by the sport and contest
    selected in the header, and the Part 2 rows narrowed by the filter map
    of the dashboard's dropdowns. */
module ContestPage {
  import opened Seqs
  import opened Cells
  import opened Filtering
  import DashboardFilters

  /** The Part 2 filter map before any selection. */
  const InitialFilters: Filters :=
    map["Age_Group" := "", "Location" := "", "Item_Purchased" := "", "Contest_ID" := "", "Country" := ""]

  /** Before any selection every loaded row is shown, and the purchase
      total is the total of the whole column. */
  lemma InitialViewShowsAll(rows: seq<Row>)
    ensures FilterRows(rows, InitialFilters) == rows
    ensures DashboardFilters.TotalPurchaseValue(rows, InitialFilters) == FieldTotal(rows, DashboardFilters.PurchaseValue)
  {
    FilterRowsIdentity(rows, InitialFilters);
    DashboardFilters.TotalPurchaseUnfiltered(rows, InitialFilters);
  }

  /** The page parses its CSV with numeric typing, so a column of numbers
      such as `Contest_ID` holds `Num` cells, while a dropdown stores the
      option's text.  Choosing any option of such a column keeps none of
      its rows. */
  lemma {:induction false} NumericChoiceKeepsNothing(rows: seq<Row>, filters: Filters, field: string, value: string)
    requires value != ""
    requires forall i :: 0 <= i < |rows| ==> Get(rows[i], field).Num?
    ensures FilterRows(rows, Choose(filters, field, value)) == []
  {
    if rows != [] {
      var chosen := Choose(filters, field, value);
      var init, last := rows[..|rows| - 1], rows[|rows| - 1];
      assert rows == init + [last];
      NumericChoiceKeepsNothing(init, filters, field, value);
      FilterAppend(init, last, row => Keep(row, chosen));
      assert !Matches(last, field, chosen[field]);
    }
  }

  /** `(sportType ? item.Sport_Type === sportType : true) &&
      (contestName ? item.Contest_Name === contestName : true)`. */
  predicate Part1Keep(item: Row, sportType: string, contestName: string) {
    (if sportType != "" then Get(item, "Sport_Type") == Str(sportType) else true) &&
    (if contestName != "" then Get(item, "Contest_Name") == Str(contestName) else true)
  }

  /** The Part 1 rows shown. */
  function Part1Rows(data: seq<Row>, sportType: string, contestName: string): (r: seq<Row>)
    ensures forall item :: item in r <==> item in data && Part1Keep(item, sportType, contestName)
  {
    Filter(data, item => Part1Keep(item, sportType, contestName))
  }

  /** The two-field Part 1 filter is the filter engine applied to the map
      of the two selections. */
  lemma Part1IsFilterRows(data: seq<Row>, sportType: string, contestName: string)
    ensures Part1Rows(data, sportType, contestName) ==
      FilterRows(data, map["Sport_Type" := sportType, "Contest_Name" := contestName])
  {
    var m := map["Sport_Type" := sportType, "Contest_Name" := contestName];
    forall item | item in data
      ensures Part1Keep(item, sportType, contestName) <==> Keep(item, m)
    {
      assert "Sport_Type" in m && "Contest_Name" in m;
    }
    FilterExtensional(data, item => Part1Keep(item, sportType, contestName), row => Keep(row, m));
  }

  /** With neither selection made, every row is shown. */
  lemma Part1Unfiltered(data: seq<Row>)
    ensures Part1Rows(data, "", "") == data
  {
    FilterKeepsAll(data, item => Part1Keep(item, "", ""));
  }
}

/** The micro-marketing page: the loaded rows, and the rows the Part 1
    filter panel selects from them. */
module MicroMarketingPage {
  import opened Seqs
  import opened Cells
  import opened Filtering

  /** The entries of `filters` whose keys are in `keys`. */
  function Restrict(filters: Filters, keys: set<string>): (r: Filters)
    ensures r.Keys == filters.Keys * keys
    ensures forall k :: k in r ==> r[k] == filters[k]
  {
    map k | k in filters && k in keys :: filters[k]
  }

  /** Taking one more key of the filters sets that key's entry. */
  lemma RestrictOneMore(filters: Filters, keys: set<string>, key: string)
    requires key in filters
    ensures Restrict(filters, keys + {key}) == Restrict(filters, keys)[key := filters[key]]
  {
  }

  /** Taking every key of the filters gives the filters back. */
  lemma RestrictAll(filters: Filters, keys: set<string>)
    requires keys == filters.Keys
    ensures Restrict(filters, keys) == filters
  {
  }

  class Page {
    var csvData: seq<Row>
    var filteredData: seq<Row>

    /** The parsed rows arrive: all of them are shown. */
    constructor (rows: seq<Row>)
      ensures csvData == rows && filteredData == rows
    {
      csvData := rows;
      filteredData := rows;
    }

    /** `applyFilters(filters)`: starting again from all the loaded rows,
        each entry with a non-empty value filters them by strict equality.
        The entries are taken in an arbitrary order, so the result does not
        depend on the order of the map's entries. */
    method ApplyFilters(filters: Filters)
      modifies this
      ensures csvData == old(csvData)
      ensures filteredData == FilterRows(csvData, filters)
    {
      var data := csvData;
      var done: set<string> := {};
      var todo := filters.Keys;
      FilterRowsIdentity(csvData, Restrict(filters, done));
      while todo != {}
        invariant todo <= filters.Keys && done == filters.Keys - todo
        invariant unchanged(this)
        invariant data == FilterRows(csvData, Restrict(filters, done))
        decreases |todo|
      {
        var key :| key in todo;
        var value := filters[key];
        if value != "" {
          data := CellEquals(data, key, value);
        }
        ApplyEntry(csvData, Restrict(filters, done), key, value);
        RestrictOneMore(filters, done, key);
        todo := todo - {key};
        done := done + {key};
      }
      RestrictAll(filters, done);
      filteredData := data;
    }
  }
}
