/**
 * The reactive store behind both views: one table of transactions, seeded
 * with the sample rows, grown by the add-transaction button and emptied by
 * the clear button.
 */
module Store {
  import opened Records

  class Ledger {
    /** The table, oldest appended row last. */
    var rows: seq<Transaction>

    /** Every stored row has a description, a vendor and a buyer. */
    ghost predicate Valid()
      reads this
    {
      forall i :: 0 <= i < |rows| ==> WellFormed(rows[i])
    }

    /** The store as the program starts: the sample rows. */
    constructor ()
      ensures Valid() && rows == SampleData()
    {
      rows := SampleData();
    }

    /**
     * The add-transaction handler: a complete form becomes one new row at the
     * end of the table; an incomplete one leaves the table as it was.
     */
    method Append(form: Form) returns (added: bool)
      requires Valid()
      modifies this
      ensures Valid()
      ensures added <==> Complete(form)
      ensures added ==> rows == old(rows) + [NewTransaction(form).value]
      ensures !added ==> rows == old(rows)
    {
      var t := NewTransaction(form);
      if t.None? {
        added := false;
      } else {
        rows := rows + [t.value];
        added := true;
      }
    }

    /** The clear handler: the table becomes empty. */
    method Clear()
      modifies this
      ensures Valid() && rows == []
    {
      rows := [];
    }
  }
}
