/** The login statistics card: how many rows carry a login id, duplicates
    included. */
module LoginStatsCard {
  import opened Seqs
  import opened Cells

  /** `item.Login_ID` is truthy: not missing, not empty, not zero. */
  predicate HasLogin(row: Row) {
    Truthy(Get(row, "Login_ID"))
  }

  /** `data.filter(item => item.Login_ID).length`. */
  function TotalLogins(data: seq<Row>): (n: nat)
    ensures n <= |data|
  {
    CountWhere(data, HasLogin)
  }

  /** Each row with a login id counts once, every other row not at all. */
  lemma TotalLoginsAppend(data: seq<Row>, row: Row)
    ensures TotalLogins(data + [row]) == TotalLogins(data) + (if HasLogin(row) then 1 else 0)
  {
    assert (data + [row])[..|data|] == data;
  }

  /** The count reaches the number of rows exactly when every row carries
      a login id, and is zero exactly when none does. */
  lemma {:induction false} TotalLoginsExtremes(data: seq<Row>)
    ensures TotalLogins(data) == |data| <==> forall i :: 0 <= i < |data| ==> HasLogin(data[i])
    ensures TotalLogins(data) == 0 <==> forall i :: 0 <= i < |data| ==> !HasLogin(data[i])
  {
    if data != [] {
      var init := data[..|data| - 1];
      TotalLoginsExtremes(init);
      assert data == init + [data[|data| - 1]];
      TotalLoginsAppend(init, data[|data| - 1]);
    }
  }

  /** The ids are not made unique: the same rows twice count twice. */
  lemma TotalLoginsNotUnique(data: seq<Row>)
    ensures TotalLogins(data + data) == 2 * TotalLogins(data)
  {
    FilterConcat(data, data, HasLogin);
  }
}
