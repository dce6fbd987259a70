/** The filter panels of the micro-marketing page (Part 1 and Part 3 share
    their code and differ only in their fields): a filter map held as
    state, changed one field at a time, each new map also handed to the
    page. */
module FilterPanel {
  import opened Seqs
  import opened Cells
  import opened Filtering

  const Part1Fields: seq<string> := ["Contest_ID", "Age_Group", "Device", "Location", "Contest_Name", "Login_ID"]
  const Part3Fields: seq<string> := ["Fan_Level", "Purchase_Item", "Age_Group", "Location", "Login_ID", "Device"]

  class Panel {
    const fields: seq<string>
    var filters: Filters

    /** A panel starts from the given map (`{}` for Parts 1 and 3). */
    constructor (fields: seq<string>, initial: Filters)
      ensures this.fields == fields && filters == initial
    {
      this.fields := fields;
      filters := initial;
    }

    /** `handleFilterChange(field, value)`: only `field` changes, to `''`
        for the option 'All' and to the chosen value otherwise; the new map
        is what the page receives. */
    method HandleFilterChange(field: string, value: string) returns (updated: Filters)
      modifies this
      ensures filters == Choose(old(filters), field, OptionValue(value))
      ensures updated == filters
    {
      updated := Choose(filters, field, OptionValue(value));
      filters := updated;
    }

    /** `handleSelectAll(field)`: only `field` changes, to `''`; the new
        map is what the page receives. */
    method HandleSelectAll(field: string) returns (updated: Filters)
      modifies this
      ensures filters == SelectAll(old(filters), field)
      ensures updated == filters
    {
      updated := SelectAll(filters, field);
      filters := updated;
    }
  }

  /** Choosing the option 'All' is the same as "Select All". */
  lemma ChooseAllIsSelectAll(filters: Filters, field: string)
    ensures Choose(filters, field, OptionValue("All")) == SelectAll(filters, field)
  {
  }

  /** "Select All" twice is "Select All" once. */
  lemma SelectAllIdempotent(filters: Filters, field: string)
    ensures SelectAll(SelectAll(filters, field), field) == SelectAll(filters, field)
  {
  }

  /** `getUniqueValues(field)`: nothing for no data, otherwise the distinct
      cells of the column with the falsy ones dropped. */
  function GetUniqueValues(data: seq<Row>, field: string): (r: seq<Cell>)
    ensures data == [] ==> r == []
  {
    if |data| == 0 then [] else OptionsOf(data, field)
  }

  /** The options are the distinct truthy cells of the column, in order of
      first occurrence; the guard for empty data changes nothing. */
  lemma GetUniqueValuesDistinct(data: seq<Row>, field: string)
    ensures GetUniqueValues(data, field) == UniqueValues(data, field)
  {
    OptionsAreUniqueValues(data, field);
  }
}
