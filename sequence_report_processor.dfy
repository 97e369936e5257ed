/**
 * `SequenceReportProcessor.parseChromosomeAccessions`: the first column of
 * every record of a tab-separated sequence report, without the header
 * record.  The parsed records are the input; reading the file is not part of
 * the model.
 */
module SequenceReportProcessor {
  import opened Wrappers

  /** A record with no column makes `get(0)` throw; so does `remove(0)` on an empty list. */
  const IndexOutOfBounds := "IndexOutOfBoundsException"

  /** The first column of every record after the header. */
  function Accessions(records: seq<seq<string>>): Result<seq<string>>
  {
    if exists i :: 0 <= i < |records| && records[i] == [] then Err(IndexOutOfBounds)
    else if records == [] then Err(IndexOutOfBounds)
    else Ok(seq(|records| - 1, i requires 0 <= i < |records| - 1 => records[i + 1][0]))
  }

  /** The loop fills the list with every record's first column, then drops the header element. */
  method ParseChromosomeAccessions(records: seq<seq<string>>) returns (r: Result<seq<string>>)
    ensures r == Accessions(records)
  {
    var accessions: seq<string> := [];
    for i := 0 to |records|
      invariant |accessions| == i
      invariant forall j :: 0 <= j < i ==> records[j] != [] && accessions[j] == records[j][0]
    {
      if records[i] == [] {
        return Err(IndexOutOfBounds);
      }
      accessions := accessions + [records[i][0]];
    }
    if accessions == [] {
      return Err(IndexOutOfBounds);
    }
    assert accessions[1..] == seq(|records| - 1, i requires 0 <= i < |records| - 1 => records[i + 1][0]);
    r := Ok(accessions[1..]);
  }

  /**
   * On success the result keeps the order and the duplicates of the records'
   * first column, one entry per record after the header; it fails exactly on
   * an empty report or a record without a column.
   */
  lemma AccessionsShape(records: seq<seq<string>>)
    ensures Accessions(records).Err? <==> records == [] || exists i :: 0 <= i < |records| && records[i] == []
    ensures Accessions(records).Ok? ==>
      |Accessions(records).value| == |records| - 1 &&
      forall i :: 1 <= i < |records| ==> Accessions(records).value[i - 1] == records[i][0]
  {
  }

  /** Every data record's accession is in the result, whatever the header holds. */
  lemma HeaderIsIgnored(header: seq<string>, other: seq<string>, rows: seq<seq<string>>)
    requires header != [] && other != []
    ensures Accessions([header] + rows) == Accessions([other] + rows)
  {
    var a, b := [header] + rows, [other] + rows;
    assert forall i :: 1 <= i < |a| ==> a[i] == b[i] == rows[i - 1];
    if exists i :: 0 <= i < |a| && a[i] == [] {
      var i :| 0 <= i < |a| && a[i] == [];
      assert b[i] == [];
    } else {
      assert forall i :: 0 <= i < |b| ==> b[i] != [];
      assert Accessions(a).value == Accessions(b).value;
    }
  }
}
