/** The admin revenue ledger: one row per finished job with its gross amount,
    the discount granted and the net charged. The admin edits one row's
    discount at a time; saving recomputes that row's net. Amounts are exact
    reals. */
module Revenue {
  import opened Wrappers

  datatype RevenueRecord = RevenueRecord(
    id: string, date: string, customerName: string, service: string,
    gross: real, discount: real, net: real)

  /** Every row's net is its gross less its discount. */
  predicate Consistent(rs: seq<RevenueRecord>) {
    forall i :: 0 <= i < |rs| ==> rs[i].net == rs[i].gross - rs[i].discount
  }

  /** The rows the page loads when it mounts. */
  function SampleRecords(): seq<RevenueRecord> {
    [ RevenueRecord("1", "2025-08-15", "John Doe", "AC Cleaning", 2500.00, 200.00, 2300.00),
      RevenueRecord("2", "2025-08-20", "Jane Smith", "AC Repair", 4500.00, 450.00, 4050.00),
      RevenueRecord("3", "2025-08-22", "Bob Johnson", "AC Installation", 15000.00, 1000.00, 14000.00),
      RevenueRecord("4", "2025-08-25", "Alice Brown", "AC Maintenance", 2000.00, 0.00, 2000.00) ]
  }

  // ---------------------------------------------------------------------------
  // saving a discount

  /** The row `handleSaveDiscount` writes for a matching record. */
  function WithDiscount(record: RevenueRecord, discount: real): (r: RevenueRecord)
    ensures r.net == r.gross - r.discount && r.discount == discount
    ensures r.id == record.id && r.date == record.date && r.gross == record.gross
    ensures r.customerName == record.customerName && r.service == record.service
  {
    record.(discount := discount, net := record.gross - discount)
  }

  /** The updater of `handleSaveDiscount(recordId)`: every row with that id takes
      the new discount and a recomputed net; every other row, and the order,
      stay as they were. */
  function SaveDiscount(rs: seq<RevenueRecord>, recordId: string, tempDiscount: real): (r: seq<RevenueRecord>)
    ensures |r| == |rs|
    ensures forall i :: 0 <= i < |rs| && rs[i].id == recordId ==> r[i] == WithDiscount(rs[i], tempDiscount)
    ensures forall i :: 0 <= i < |rs| && rs[i].id != recordId ==> r[i] == rs[i]
  {
    seq(|rs|, i requires 0 <= i < |rs| =>
      if rs[i].id == recordId then WithDiscount(rs[i], tempDiscount) else rs[i])
  }

  /** Saving keeps every row's net equal to gross less discount. */
  lemma SaveKeepsConsistent(rs: seq<RevenueRecord>, recordId: string, tempDiscount: real)
    requires Consistent(rs)
    ensures Consistent(SaveDiscount(rs, recordId, tempDiscount))
  {
  }

  /** Opening a row for editing and saving without touching the input leaves the
      ledger as it was, when the ledger is consistent and its ids are unique. */
  lemma SaveUnchangedDiscount(rs: seq<RevenueRecord>, k: nat)
    requires Consistent(rs) && k < |rs|
    requires forall i :: 0 <= i < |rs| && rs[i].id == rs[k].id ==> i == k
    ensures SaveDiscount(rs, rs[k].id, rs[k].discount) == rs
  {
  }

  /** Saving does not clamp the discount: one above the gross is stored as is and
      leaves a negative net. */
  lemma SaveDoesNotClamp(rs: seq<RevenueRecord>, k: nat, tempDiscount: real)
    requires k < |rs| && tempDiscount > rs[k].gross
    ensures SaveDiscount(rs, rs[k].id, tempDiscount)[k].discount == tempDiscount
    ensures SaveDiscount(rs, rs[k].id, tempDiscount)[k].net < 0.0
  {
  }

  // ---------------------------------------------------------------------------
  // totals

  /** `records.reduce((sum, record) => sum + amount(record), 0)`. */
  function Total(rs: seq<RevenueRecord>, amount: RevenueRecord -> real): real {
    if rs == [] then 0.0 else Total(rs[..|rs| - 1], amount) + amount(rs[|rs| - 1])
  }

  function Gross(r: RevenueRecord): real { r.gross }
  function Discount(r: RevenueRecord): real { r.discount }
  function Net(r: RevenueRecord): real { r.net }

  /** The three totals `calculateTotals` returns. */
  datatype Totals = Totals(totalGross: real, totalDiscount: real, totalNet: real)

  /** The totals of the summary cards; on a consistent ledger the net total is
      the gross total less the discount total. */
  function CalculateTotals(rs: seq<RevenueRecord>): (t: Totals)
    ensures Consistent(rs) ==> t.totalNet == t.totalGross - t.totalDiscount
  {
    var t := Totals(Total(rs, Gross), Total(rs, Discount), Total(rs, Net));
    if Consistent(rs) then
      NetTotalIsGrossLessDiscount(rs);
      t
    else
      t
  }

  /** Over consistent rows, the sum of the nets is the sum of the gross amounts
      less the sum of the discounts. */
  lemma {:induction false} NetTotalIsGrossLessDiscount(rs: seq<RevenueRecord>)
    requires Consistent(rs)
    ensures Total(rs, Net) == Total(rs, Gross) - Total(rs, Discount)
  {
    if rs != [] {
      NetTotalIsGrossLessDiscount(rs[..|rs| - 1]);
    }
  }

  /** Saving a discount never changes the gross total. */
  lemma {:induction false} SaveKeepsGrossTotal(rs: seq<RevenueRecord>, recordId: string, tempDiscount: real)
    ensures Total(SaveDiscount(rs, recordId, tempDiscount), Gross) == Total(rs, Gross)
  {
    if rs != [] {
      var front := rs[..|rs| - 1];
      assert SaveDiscount(rs, recordId, tempDiscount)[..|rs| - 1] == SaveDiscount(front, recordId, tempDiscount);
      SaveKeepsGrossTotal(front, recordId, tempDiscount);
    }
  }

  /** The sample rows are consistent and add up to 24000 gross, 1650 discount and
      22350 net. */
  lemma SampleTotals()
    ensures Consistent(SampleRecords())
    ensures CalculateTotals(SampleRecords()) == Totals(24000.0, 1650.0, 22350.0)
  {
    var s := SampleRecords();
    var s1, s2, s3 := s[..1], s[..2], s[..3];
    assert s1[..0] == [] && s2[..1] == s1 && s3[..2] == s2;
    assert s2[1] == s[1] && s3[2] == s[2];
    assert |s1| == 1 && |s2| == 2 && |s3| == 3;
    assert Total(s1, Gross) == 2500.0;
    assert Total(s2, Gross) == 7000.0;
    assert Total(s3, Gross) == 22000.0;
    assert Total(s1, Discount) == 200.0;
    assert Total(s2, Discount) == 650.0;
    assert Total(s3, Discount) == 1650.0;
    assert Total(s1, Net) == 2300.0;
    assert Total(s2, Net) == 6350.0;
    assert Total(s3, Net) == 20350.0;
  }

  // ---------------------------------------------------------------------------
  // the page state

  /** The revenue page: the rows, the id of the row being edited, and the value
      in that row's discount input. */
  class RevenueLedger {
    var records: seq<RevenueRecord>
    var editingId: Option<string>
    var tempDiscount: real

    ghost predicate Valid()
      reads this
    {
      Consistent(records)
    }

    /** The state before the mount effect has run. */
    constructor ()
      ensures records == [] && editingId == None && tempDiscount == 0.0
      ensures Valid()
    {
      records := [];
      editingId := None;
      tempDiscount := 0.0;
    }

    /** The mount effect: the sample rows replace the list. */
    method LoadSampleRecords()
      modifies this`records
      ensures records == SampleRecords()
      ensures Valid()
    {
      records := SampleRecords();
      SampleTotals();
    }

    /** `handleEditDiscount(record)`: that row is being edited, starting from its
        current discount. */
    method EditDiscount(record: RevenueRecord)
      modifies this`editingId, this`tempDiscount
      ensures editingId == Some(record.id) && tempDiscount == record.discount
    {
      editingId := Some(record.id);
      tempDiscount := record.discount;
    }

    /** The discount input's `onChange`. */
    method SetTempDiscount(value: real)
      modifies this`tempDiscount
      ensures tempDiscount == value
    {
      tempDiscount := value;
    }

    /** `handleSaveDiscount(recordId)`: the rows take the new discount and no row
        is being edited any more; the input keeps its value. */
    method SaveDiscountFor(recordId: string)
      modifies this`records, this`editingId
      ensures records == SaveDiscount(old(records), recordId, tempDiscount)
      ensures editingId == None
      ensures old(Valid()) ==> Valid()
    {
      records := SaveDiscount(records, recordId, tempDiscount);
      editingId := None;
      if old(Valid()) {
        SaveKeepsConsistent(old(records), recordId, tempDiscount);
      }
    }

    /** `handleCancelEdit`: no row is being edited and the input is reset; the rows
        are untouched. */
    method CancelEdit()
      modifies this`editingId, this`tempDiscount
      ensures editingId == None && tempDiscount == 0.0
    {
      editingId := None;
      tempDiscount := 0.0;
    }

    /** The figures in the summary cards. */
    function Summary(): (t: Totals)
      reads this
      requires Valid()
      ensures t.totalNet == t.totalGross - t.totalDiscount
    {
      CalculateTotals(records)
    }
  }
}
