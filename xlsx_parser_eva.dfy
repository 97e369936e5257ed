/**
 * The EVA metadata spreadsheet reader's groupings: samples and files per
 * analysis alias, and the references of the analyses.  Rows are those the
 * spreadsheet parser reads from the Sample, Files and Analysis worksheets.
 */
module XlsxParserEva {
  import opened Wrappers
  import opened Text
  import opened Collections
  import opened XlsxParser

  /** `row.get(column)`: the cell, or `None` when the row has no such key. */
  function Get(row: Row, column: string): Cell
  {
    if column in row then row[column] else NoValue
  }

  // ---------------------------------------------------------------------
  // samples_per_analysis

  /** The stripped aliases a sample row names, comma-separated; a non-text alias has no `split`. */
  function AliasesOf(row: Row): Result<seq<string>>
  {
    match Get(row, "Analysis Alias")
    case Str(s) => Ok(StripAll(Split(s, ',')))
    case _ => Err("AttributeError")
  }

  function StripAll(parts: seq<string>): (r: seq<string>)
    ensures |r| == |parts| && forall i :: 0 <= i < |parts| ==> r[i] == Strip(parts[i])
  {
    if parts == [] then [] else [Strip(parts[0])] + StripAll(parts[1..])
  }

  /** The pairs appended for one row: the row under each of its aliases. */
  function Tagged(aliases: seq<string>, row: Row): (r: seq<(Cell, Row)>)
    ensures |r| == |aliases|
  {
    if aliases == [] then [] else Tagged(aliases[..|aliases| - 1], row) + [(Str(aliases[|aliases| - 1]), row)]
  }

  lemma {:induction false} TaggedMembers(aliases: seq<string>, row: Row, alias: string, r: Row)
    ensures (Str(alias), r) in Tagged(aliases, row) <==> r == row && alias in aliases
  {
    if aliases != [] {
      var init := aliases[..|aliases| - 1];
      TaggedMembers(init, row, alias, r);
      assert aliases == init + [aliases[|aliases| - 1]];
    }
  }

  /** Every (alias, row) pair the loop appends, in order. */
  function AliasPairs(rows: seq<Row>): Result<seq<(Cell, Row)>>
  {
    if rows == [] then Ok([])
    else match AliasPairs(rows[..|rows| - 1])
      case Err(e) => Err(e)
      case Ok(pairs) =>
        match AliasesOf(rows[|rows| - 1])
        case Err(e) => Err(e)
        case Ok(aliases) => Ok(pairs + Tagged(aliases, rows[|rows| - 1]))
  }

  /** `samples_per_analysis`: each row appended under every alias it names, in row order. */
  method SamplesPerAnalysis(rows: seq<Row>) returns (r: Result<map<Cell, seq<Row>>>)
    ensures AliasPairs(rows).Err? ==> r.Err?
    ensures AliasPairs(rows).Ok? ==> r == Ok(GroupBy(AliasPairs(rows).value))
  {
    var groups: map<Cell, seq<Row>> := map[];
    ghost var pairs: seq<(Cell, Row)> := [];
    for i := 0 to |rows|
      invariant AliasPairs(rows[..i]) == Ok(pairs)
      invariant groups == GroupBy(pairs)
    {
      assert rows[..i + 1][..i] == rows[..i];
      var aliases := AliasesOf(rows[i]);
      if aliases.Err? {
        AliasPairsStopsAtError(rows, i + 1);
        return Err(aliases.error);
      }
      groups := AppendUnderAliases(groups, pairs, aliases.value, rows[i]);
      pairs := pairs + Tagged(aliases.value, rows[i]);
    }
    assert rows[..|rows|] == rows;
    r := Ok(groups);
  }

  /** The inner loop: the row appended to the list of each of its aliases. */
  method AppendUnderAliases(groups0: map<Cell, seq<Row>>, ghost pairs: seq<(Cell, Row)>, aliases: seq<string>, row: Row)
    returns (groups: map<Cell, seq<Row>>)
    requires groups0 == GroupBy(pairs)
    ensures groups == GroupBy(pairs + Tagged(aliases, row))
  {
    groups := groups0;
    assert aliases[..0] == [];
    assert pairs + Tagged(aliases[..0], row) == pairs;
    for j := 0 to |aliases|
      invariant groups == GroupBy(pairs + Tagged(aliases[..j], row))
    {
      var key := Str(aliases[j]);
      assert aliases[..j + 1][..j] == aliases[..j];
      GroupByAppend(pairs + Tagged(aliases[..j], row), (key, row));
      assert pairs + Tagged(aliases[..j + 1], row) == pairs + Tagged(aliases[..j], row) + [(key, row)];
      groups := groups[key := (if key in groups then groups[key] else []) + [row]];
    }
    assert aliases[..|aliases|] == aliases;
  }

  lemma {:induction false} AliasPairsStopsAtError(rows: seq<Row>, n: nat)
    requires n <= |rows| && AliasPairs(rows[..n]).Err?
    ensures AliasPairs(rows).Err?
    decreases |rows| - n
  {
    if n < |rows| {
      assert rows[..n + 1][..n] == rows[..n];
      AliasPairsStopsAtError(rows, n + 1);
    } else {
      assert rows[..n] == rows;
    }
  }

  /** A row is listed under an alias exactly when it names that alias, once stripped. */
  lemma {:induction false} AliasPairsMembers(rows: seq<Row>, alias: string, row: Row)
    requires AliasPairs(rows).Ok?
    ensures (Str(alias), row) in AliasPairs(rows).value <==>
      row in rows && AliasesOf(row).Ok? && alias in AliasesOf(row).value
  {
    if rows != [] {
      var init := rows[..|rows| - 1];
      var last := rows[|rows| - 1];
      assert rows == init + [last];
      AliasPairsMembers(init, alias, row);
      TaggedMembers(AliasesOf(last).value, last, alias, row);
      if row in init {
        AliasPairsAllOk(init, row);
      }
    }
  }

  lemma {:induction false} AliasPairsAllOk(rows: seq<Row>, row: Row)
    requires AliasPairs(rows).Ok? && row in rows
    ensures AliasesOf(row).Ok?
  {
    var init := rows[..|rows| - 1];
    if row != rows[|rows| - 1] {
      assert row in init;
      AliasPairsAllOk(init, row);
    }
  }

  /** `samples_per_analysis` lists a row under an alias exactly when the row names it. */
  lemma SamplesListedUnderTheirAliases(rows: seq<Row>, alias: string, row: Row)
    requires AliasPairs(rows).Ok?
    ensures var groups := GroupBy(AliasPairs(rows).value);
      (Str(alias) in groups && row in groups[Str(alias)]) <==>
      (row in rows && AliasesOf(row).Ok? && alias in AliasesOf(row).value)
  {
    var pairs := AliasPairs(rows).value;
    AliasPairsMembers(rows, alias, row);
    ValuesForMembers(pairs, Str(alias), row);
    if (Str(alias), row) in pairs {
      var i :| 0 <= i < |pairs| && pairs[i] == (Str(alias), row);
      assert Str(alias) in KeysOf(pairs);
    }
  }

  // ---------------------------------------------------------------------
  // files_per_analysis

  function FilePairs(rows: seq<Row>): (pairs: seq<(Cell, Row)>)
    ensures |pairs| == |rows| && forall i :: 0 <= i < |rows| ==> pairs[i] == (Get(rows[i], "Analysis Alias"), rows[i])
  {
    seq(|rows|, i requires 0 <= i < |rows| => (Get(rows[i], "Analysis Alias"), rows[i]))
  }

  /** `files_per_analysis`: rows grouped by their exact alias value, in row order. */
  method FilesPerAnalysis(rows: seq<Row>) returns (groups: map<Cell, seq<Row>>)
    ensures groups == GroupBy(FilePairs(rows))
  {
    groups := map[];
    for i := 0 to |rows|
      invariant groups == GroupBy(FilePairs(rows)[..i])
    {
      var key := Get(rows[i], "Analysis Alias");
      assert FilePairs(rows)[..i + 1] == FilePairs(rows)[..i] + [(key, rows[i])];
      GroupByAppend(FilePairs(rows)[..i], (key, rows[i]));
      groups := groups[key := (if key in groups then groups[key] else []) + [rows[i]]];
    }
    assert FilePairs(rows)[..|rows|] == FilePairs(rows);
  }

  function AliasIs(alias: Cell): Row -> bool
  {
    (row: Row) => Get(row, "Analysis Alias") == alias
  }

  function Itself(row: Row): Row
  {
    row
  }

  /** Each group holds exactly the rows with that alias, in their order. */
  lemma FilesGroupedByAlias(rows: seq<Row>, alias: Cell)
    ensures var groups := GroupBy(FilePairs(rows));
      (alias in groups <==> exists i :: 0 <= i < |rows| && Get(rows[i], "Analysis Alias") == alias) &&
      (alias in groups ==> groups[alias] == MapFilter(rows, AliasIs(alias), Itself))
  {
    var pairs := FilePairs(rows);
    if exists i :: 0 <= i < |rows| && Get(rows[i], "Analysis Alias") == alias {
      var i :| 0 <= i < |rows| && Get(rows[i], "Analysis Alias") == alias;
      assert pairs[i].0 == alias;
    }
    FileValuesAreFilter(rows, alias);
  }

  lemma {:induction false} FileValuesAreFilter(rows: seq<Row>, alias: Cell)
    ensures ValuesFor(FilePairs(rows), alias) == MapFilter(rows, AliasIs(alias), Itself)
  {
    if rows != [] {
      var init := rows[..|rows| - 1];
      FileValuesAreFilter(init, alias);
      assert FilePairs(rows)[..|rows| - 1] == FilePairs(init);
    }
  }

  // ---------------------------------------------------------------------
  // references, destination

  /** `references`: the distinct non-empty Reference values of the analyses (their order is left open). */
  function References(analyses: seq<Row>): (refs: set<Cell>)
    ensures forall c :: c in refs <==> exists i :: 0 <= i < |analyses| && Get(analyses[i], "Reference") == c && CellTruthy(c)
  {
    set i | 0 <= i < |analyses| && CellTruthy(Get(analyses[i], "Reference")) :: Get(analyses[i], "Reference")
  }

  /** The writer's destination: the one given when non-empty, else the source path. */
  function Destination(source: string, dest: Option<string>): (r: string)
    ensures dest.None? || dest == Some("") ==> r == source
    ensures dest.Some? && dest.value != "" ==> r == dest.value
  {
    match dest
    case Some(d) => if d != "" then d else source
    case None => source
  }
}
