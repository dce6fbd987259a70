/** The contest page's header: the sport and contest dropdowns list the
    distinct values of their columns.  Unlike the other dropdowns these keep
    falsy cells, so a row without a value contributes an `undefined`
    option. */
module Header {
  import opened Seqs
  import opened Cells
  import opened Filtering

  const SportType: string := "Sport_Type"
  const ContestName: string := "Contest_Name"

  /** `[...new Set(data.map(d => d[field]))]`. */
  function DistinctColumn(data: seq<Row>, field: string): (r: seq<Cell>)
    ensures NoDups(r)
    ensures |r| <= |data|
    ensures forall i :: 0 <= i < |data| ==> Get(data[i], field) in r
    ensures forall x :: x in r ==> exists i :: 0 <= i < |data| && Get(data[i], field) == x
  {
    var c := Column(data, field);
    var r := Dedup(c);
    assert forall x :: x in r ==> x in c;
    r
  }

  /** The options come in the order of the rows that first carry them. */
  lemma DistinctColumnOrder(data: seq<Row>, field: string)
    ensures forall i, j :: 0 <= i < j < |DistinctColumn(data, field)| ==>
      IndexOf(Column(data, field), DistinctColumn(data, field)[i]) <
      IndexOf(Column(data, field), DistinctColumn(data, field)[j])
  {
    DedupFirstOccurrenceOrder(Column(data, field));
  }
}
