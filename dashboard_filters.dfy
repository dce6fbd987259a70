/** The contest dashboard's filter bar: the rows the selected dropdown
    values keep, and the purchase total over them. */
module DashboardFilters {
  import opened Wrappers
  import opened Seqs
  import opened Cells
  import opened Filtering

  const PurchaseValue: string := "Purchase_Value"

  /** `filteredData.reduce((acc, row) => acc + parseFloat(row.Purchase_Value
      || 0), 0)`: NaN (`None`) as soon as one kept row holds a value that
      does not read as a number, otherwise the total of the kept rows with
      missing and empty values counted as 0. */
  function TotalPurchaseValue(data: seq<Row>, filters: Filters): (t: Option<real>)
    ensures t.None? <==> exists row :: row in FilterRows(data, filters) && Unreadable(Get(row, PurchaseValue))
    ensures t.Some? ==> t.value == Sum(FieldValues(FilterRows(data, filters), PurchaseValue))
  {
    var kept := FilterRows(data, filters);
    var t := FieldTotal(kept, PurchaseValue);
    assert t.None? ==> exists row :: row in kept && Unreadable(Get(row, PurchaseValue));
    t
  }

  /** With every dropdown on "All" the total covers every row. */
  lemma TotalPurchaseUnfiltered(data: seq<Row>, filters: Filters)
    requires forall k :: k in filters ==> filters[k] == ""
    ensures TotalPurchaseValue(data, filters) == FieldTotal(data, PurchaseValue)
  {
    FilterRowsIdentity(data, filters);
  }

  /** A row the filters drop leaves the total as it was. */
  lemma DroppedRowUncounted(data: seq<Row>, filters: Filters, row: Row)
    requires !Keep(row, filters)
    ensures TotalPurchaseValue(data + [row], filters) == TotalPurchaseValue(data, filters)
  {
    FilterAppend(data, row, r => Keep(r, filters));
  }

  /** A kept row adds its value to the total, or turns it into NaN when
      its value does not read. */
  lemma KeptRowCounted(data: seq<Row>, filters: Filters, row: Row)
    requires Keep(row, filters)
    ensures TotalPurchaseValue(data + [row], filters) ==
      AddNaN(TotalPurchaseValue(data, filters), FloatOfFalsyZero(Get(row, PurchaseValue)))
  {
    var kept := FilterRows(data, filters);
    FilterAppend(data, row, r => Keep(r, filters));
    assert FilterRows(data + [row], filters) == kept + [row];
    FieldTotalAppend(kept, row);
  }

  lemma FieldTotalAppend(rows: seq<Row>, row: Row)
    ensures FieldTotal(rows + [row], PurchaseValue) ==
      AddNaN(FieldTotal(rows, PurchaseValue), FloatOfFalsyZero(Get(row, PurchaseValue)))
  {
    var all := rows + [row];
    assert all[..|all| - 1] == rows;
    FieldSumNaN(rows, PurchaseValue);
    FieldSumNaN(all, PurchaseValue);
    if forall i :: 0 <= i < |all| ==> !Unreadable(Get(all[i], PurchaseValue)) {
      FieldSumValue(all, PurchaseValue);
    }
    if forall i :: 0 <= i < |rows| ==> !Unreadable(Get(rows[i], PurchaseValue)) {
      FieldSumValue(rows, PurchaseValue);
    }
  }
}
