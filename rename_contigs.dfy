/**
 * Renaming the sequences of an assembly FASTA file to the contig names the
 * submitted VCF files use.  Two dictionaries map INSDC (GenBank) and RefSeq
 * accessions to a VCF contig name: one built from the NCBI assembly report,
 * one from the contig-alias web service.  Reading the files and querying the
 * service are I/O: the VCF lines, the report rows, the service's entities and
 * the FASTA lines are inputs, and the rewritten FASTA comes back as lines.
 */
module RenameContigs {
  import opened Wrappers
  import opened Text
  import opened Collections

  // ---------------------------------------------------------------- contigs in the VCF files

  /** Lines starting with '#' are VCF header lines. */
  predicate IsDataLine(line: string)
  {
    !StartsWith(line, "#")
  }

  /** `line.split('\t')[0]`: the CHROM column of a data line. */
  function ChromOf(line: string): string
  {
    Split(line, '\t')[0]
  }

  /** The contigs named by the data lines of some lines of one file. */
  function LineContigs(lines: seq<string>): set<string>
  {
    set line | line in lines && IsDataLine(line) :: ChromOf(line)
  }

  /** The contigs named by the data lines of the VCF files, each file given as its lines. */
  function ContigsIn(vcfs: seq<seq<string>>): set<string>
  {
    set f, line | f in vcfs && line in f && IsDataLine(line) :: ChromOf(line)
  }

  lemma LineContigsSnoc(lines: seq<string>, line: string)
    ensures LineContigs(lines + [line]) == LineContigs(lines) + (if IsDataLine(line) then {ChromOf(line)} else {})
  {
    var longer := lines + [line];
    forall c | c in LineContigs(longer) ensures c in LineContigs(lines) + (if IsDataLine(line) then {ChromOf(line)} else {}) {
      var l :| l in longer && IsDataLine(l) && ChromOf(l) == c;
      if l != line {
        assert l in lines;
      }
    }
  }

  lemma ContigsInSnoc(vcfs: seq<seq<string>>, f: seq<string>)
    ensures ContigsIn(vcfs + [f]) == ContigsIn(vcfs) + LineContigs(f)
  {
    var longer := vcfs + [f];
    forall c | c in ContigsIn(longer) ensures c in ContigsIn(vcfs) + LineContigs(f) {
      var g, l :| g in longer && l in g && IsDataLine(l) && ChromOf(l) == c;
      if g != f {
        assert g in vcfs;
      }
    }
    forall c | c in ContigsIn(vcfs) ensures c in ContigsIn(longer) {
      var g, l :| g in vcfs && l in g && IsDataLine(l) && ChromOf(l) == c;
      assert g in longer;
    }
    forall c | c in LineContigs(f) ensures c in ContigsIn(longer) {
      var l :| l in f && IsDataLine(l) && ChromOf(l) == c;
      assert f in longer;
    }
  }

  /**
   * `contigs_found_in_vcf`: the first column of every line of every VCF file
   * that is not a header line.
   */
  method ContigsFoundInVcf(vcfs: seq<seq<string>>) returns (contigs: set<string>)
    ensures contigs == ContigsIn(vcfs)
  {
    contigs := {};
    for i := 0 to |vcfs|
      invariant contigs == ContigsIn(vcfs[..i])
    {
      var lines := vcfs[i];
      for j := 0 to |lines|
        invariant contigs == ContigsIn(vcfs[..i]) + LineContigs(lines[..j])
      {
        var line := lines[j];
        assert lines[..j + 1] == lines[..j] + [line];
        LineContigsSnoc(lines[..j], line);
        if !StartsWith(line, "#") {
          contigs := contigs + {Split(line, '\t')[0]};
        }
      }
      assert lines[..|lines|] == lines;
      assert vcfs[..i + 1] == vcfs[..i] + [lines];
      ContigsInSnoc(vcfs[..i], lines);
    }
    assert vcfs[..|vcfs|] == vcfs;
  }

  /** Header lines name no contig: adding one to a file leaves the contigs as they were. */
  lemma HeaderLinesIgnored(vcfs: seq<seq<string>>, i: int, header: string)
    requires 0 <= i < |vcfs| && !IsDataLine(header)
    ensures ContigsIn(vcfs[i := vcfs[i] + [header]]) == ContigsIn(vcfs)
  {
    var w := vcfs[i := vcfs[i] + [header]];
    forall c | c in ContigsIn(w) ensures c in ContigsIn(vcfs) {
      var g, l :| g in w && l in g && IsDataLine(l) && ChromOf(l) == c;
      var k :| 0 <= k < |w| && w[k] == g;
      if k == i {
        assert l in vcfs[i];
      } else {
        assert g == vcfs[k];
      }
    }
    forall c | c in ContigsIn(vcfs) ensures c in ContigsIn(w) {
      var g, l :| g in vcfs && l in g && IsDataLine(l) && ChromOf(l) == c;
      var k :| 0 <= k < |vcfs| && vcfs[k] == g;
      if k == i {
        assert l in w[i];
      } else {
        assert w[k] == g;
      }
    }
  }

  // ---------------------------------------------------------------- writes folded into a dictionary

  /** The writes of every record, record after record. */
  function AllWrites<R, V>(records: seq<R>, writesOf: R -> seq<(string, V)>): seq<(string, V)>
  {
    if records == [] then []
    else AllWrites(records[..|records| - 1], writesOf) + writesOf(records[|records| - 1])
  }

  lemma {:induction false} AllWritesMembers<R, V>(records: seq<R>, writesOf: R -> seq<(string, V)>, w: (string, V))
    ensures w in AllWrites(records, writesOf) <==> exists i :: 0 <= i < |records| && w in writesOf(records[i])
  {
    if records != [] {
      var init := records[..|records| - 1];
      AllWritesMembers(init, writesOf, w);
      assert forall i :: 0 <= i < |init| ==> init[i] == records[i];
    }
  }

  /**
   * The dictionary the writes leave: a key is present iff some record writes
   * it, and its value is one that some record writes for it.
   */
  lemma LastWriteFrom<R, V>(records: seq<R>, writesOf: R -> seq<(string, V)>, k: string)
    ensures var d := LastWins(AllWrites(records, writesOf));
      (k in d <==> exists i, v :: 0 <= i < |records| && (k, v) in writesOf(records[i])) &&
      (k in d ==> exists i :: 0 <= i < |records| && (k, d[k]) in writesOf(records[i]))
  {
    var ws := AllWrites(records, writesOf);
    var d := LastWins(ws);
    LastWinsValue(ws, k);
    if k in d {
      var j :| 0 <= j < |ws| && ws[j].0 == k && d[k] == ws[j].1 && forall m :: j < m < |ws| ==> ws[m].0 != k;
      AllWritesMembers(records, writesOf, ws[j]);
    }
    if exists i, v :: 0 <= i < |records| && (k, v) in writesOf(records[i]) {
      var i, v :| 0 <= i < |records| && (k, v) in writesOf(records[i]);
      AllWritesMembers(records, writesOf, (k, v));
      var j :| 0 <= j < |ws| && ws[j] == (k, v);
      assert k in KeysOf(ws);
    }
  }

  // ---------------------------------------------------------------- the assembly report

  /**
   * One row of the assembly report, by the columns used here; None where a
   * short row leaves a column without a value.
   */
  datatype ReportRow = ReportRow(sequenceName: Option<string>, genbank: Option<string>, refseq: Option<string>, ucscName: Option<string>)

  datatype Column = SequenceName | GenBankAccn | RefSeqAccn | UcscStyleName

  /** '# Sequence-Name', 'GenBank-Accn', 'RefSeq-Accn', 'UCSC-style-name', in the order searched. */
  const NamingColumns: seq<Column> := [SequenceName, GenBankAccn, RefSeqAccn, UcscStyleName]

  function Cell(row: ReportRow, col: Column): Option<string>
  {
    match col
    case SequenceName => row.sequenceName
    case GenBankAccn => row.genbank
    case RefSeqAccn => row.refseq
    case UcscStyleName => row.ucscName
  }

  /** An accession counts when it is there, non-empty and not 'na'. */
  function Accession(cell: Option<string>): Option<string>
  {
    if cell.Some? && cell.value != "" && cell.value != "na" then cell else None
  }

  /** The write `d[accession] = name` when the accession counts. */
  function WriteFor(cell: Option<string>, name: string): seq<(string, string)>
  {
    if Accession(cell).Some? then [(cell.value, name)] else []
  }

  /** The writes for one column: when its value is a VCF contig, the GenBank then the RefSeq accession map to it. */
  function ColumnWrites(row: ReportRow, col: Column, contigs: set<string>): seq<(string, string)>
  {
    match Cell(row, col)
    case Some(name) => if name in contigs then WriteFor(row.genbank, name) + WriteFor(row.refseq, name) else []
    case None => []
  }

  function ColumnsWrites(row: ReportRow, cols: seq<Column>, contigs: set<string>): seq<(string, string)>
  {
    if cols == [] then []
    else ColumnsWrites(row, cols[..|cols| - 1], contigs) + ColumnWrites(row, cols[|cols| - 1], contigs)
  }

  /** The writes one row makes, column after column. */
  function RowWrites(row: ReportRow, contigs: set<string>): seq<(string, string)>
  {
    ColumnsWrites(row, NamingColumns, contigs)
  }

  function ReportWriter(contigs: set<string>): ReportRow -> seq<(string, string)>
  {
    row => RowWrites(row, contigs)
  }

  /** The dictionary `assembly_report_map` builds. */
  function ReportMap(rows: seq<ReportRow>, contigs: set<string>): map<string, string>
  {
    LastWins(AllWrites(rows, ReportWriter(contigs)))
  }

  /**
   * The row links accession `k` to VCF contig `name`: one of its four naming
   * columns holds `name`, a contig of the VCF files, and `k` is its GenBank or
   * RefSeq accession (present, non-empty, not 'na').
   */
  predicate Links(row: ReportRow, contigs: set<string>, k: string, name: string)
  {
    name in contigs &&
    (row.sequenceName == Some(name) || row.genbank == Some(name) || row.refseq == Some(name) || row.ucscName == Some(name)) &&
    (Accession(row.genbank) == Some(k) || Accession(row.refseq) == Some(k))
  }

  /** The four columns' writes, in the order of the columns. */
  lemma RowWritesColumns(row: ReportRow, contigs: set<string>)
    ensures RowWrites(row, contigs) == ColumnWrites(row, SequenceName, contigs) + ColumnWrites(row, GenBankAccn, contigs)
      + ColumnWrites(row, RefSeqAccn, contigs) + ColumnWrites(row, UcscStyleName, contigs)
  {
    var a, b, c, d := ColumnWrites(row, SequenceName, contigs), ColumnWrites(row, GenBankAccn, contigs),
      ColumnWrites(row, RefSeqAccn, contigs), ColumnWrites(row, UcscStyleName, contigs);
    var c1, c2, c3 := NamingColumns[..1], NamingColumns[..2], NamingColumns[..3];
    assert c1[..0] == [] && c2[..1] == c1 && c3[..2] == c2 && NamingColumns[..3] == c3;
    assert ColumnsWrites(row, c1, contigs) == a;
    assert ColumnsWrites(row, c2, contigs) == a + b;
    assert ColumnsWrites(row, c3, contigs) == a + b + c;
  }

  lemma ColumnWritesMeaning(row: ReportRow, col: Column, contigs: set<string>, k: string, name: string)
    ensures (k, name) in ColumnWrites(row, col, contigs) <==>
      Cell(row, col) == Some(name) && name in contigs && (Accession(row.genbank) == Some(k) || Accession(row.refseq) == Some(k))
  {
  }

  lemma RowWritesMeaning(row: ReportRow, contigs: set<string>, k: string, name: string)
    ensures (k, name) in RowWrites(row, contigs) <==> Links(row, contigs, k, name)
  {
    var a, b, c, d := ColumnWrites(row, SequenceName, contigs), ColumnWrites(row, GenBankAccn, contigs),
      ColumnWrites(row, RefSeqAccn, contigs), ColumnWrites(row, UcscStyleName, contigs);
    RowWritesColumns(row, contigs);
    ColumnWritesMeaning(row, SequenceName, contigs, k, name);
    ColumnWritesMeaning(row, GenBankAccn, contigs, k, name);
    ColumnWritesMeaning(row, RefSeqAccn, contigs, k, name);
    ColumnWritesMeaning(row, UcscStyleName, contigs, k, name);
    assert (k, name) in a + b + c + d <==> (k, name) in a || (k, name) in b || (k, name) in c || (k, name) in d;
  }

  /**
   * The report map holds exactly the accessions some row links to a VCF
   * contig, and each maps to a contig that a row links it to.
   */
  lemma ReportMapMeaning(rows: seq<ReportRow>, contigs: set<string>, k: string)
    ensures k in ReportMap(rows, contigs) <==> exists i, name :: 0 <= i < |rows| && Links(rows[i], contigs, k, name)
    ensures k in ReportMap(rows, contigs) ==>
      exists i :: 0 <= i < |rows| && Links(rows[i], contigs, k, ReportMap(rows, contigs)[k])
  {
    var writer := ReportWriter(contigs);
    var d := ReportMap(rows, contigs);
    LastWriteFrom(rows, writer, k);
    if k in d {
      var i :| 0 <= i < |rows| && (k, d[k]) in writer(rows[i]);
      RowWritesMeaning(rows[i], contigs, k, d[k]);
    }
    if exists i, name :: 0 <= i < |rows| && Links(rows[i], contigs, k, name) {
      var i, name :| 0 <= i < |rows| && Links(rows[i], contigs, k, name);
      RowWritesMeaning(rows[i], contigs, k, name);
      assert (k, name) in writer(rows[i]);
    }
  }

  /** Every name in the report map is a contig of the VCF files, and no key is empty or 'na'. */
  lemma ReportMapNamesVcfContigs(rows: seq<ReportRow>, contigs: set<string>)
    ensures forall k :: k in ReportMap(rows, contigs) ==> ReportMap(rows, contigs)[k] in contigs && k != "" && k != "na"
  {
    forall k | k in ReportMap(rows, contigs)
      ensures ReportMap(rows, contigs)[k] in contigs && k != "" && k != "na"
    {
      ReportMapMeaning(rows, contigs, k);
    }
  }

  /**
   * `assembly_report_map`: for every row, and for every naming column in
   * order whose value is a VCF contig, the GenBank and then the RefSeq
   * accession are mapped to that value; a later write replaces an earlier one.
   */
  method AssemblyReportMap(rows: seq<ReportRow>, contigs: set<string>) returns (m: map<string, string>)
    ensures m == ReportMap(rows, contigs)
  {
    m := map[];
    for i := 0 to |rows|
      invariant m == LastWins(AllWrites(rows[..i], ReportWriter(contigs)))
    {
      ghost var before := AllWrites(rows[..i], ReportWriter(contigs));
      m := WriteRow(m, rows[i], contigs, before);
      assert rows[..i + 1][..i] == rows[..i];
      assert AllWrites(rows[..i + 1], ReportWriter(contigs)) == before + RowWrites(rows[i], contigs);
    }
    assert rows[..|rows|] == rows;
  }

  /** The body of the loop over the rows: the naming columns of one row, in order. */
  method WriteRow(m: map<string, string>, row: ReportRow, contigs: set<string>, ghost before: seq<(string, string)>)
    returns (m': map<string, string>)
    requires m == LastWins(before)
    ensures m' == LastWins(before + RowWrites(row, contigs))
  {
    m' := m;
    assert NamingColumns[..0] == [] && before + [] == before;
    for j := 0 to |NamingColumns|
      invariant m' == LastWins(before + ColumnsWrites(row, NamingColumns[..j], contigs))
    {
      ghost var done := ColumnsWrites(row, NamingColumns[..j], contigs);
      m' := WriteColumn(m', row, NamingColumns[j], contigs, before + done);
      assert NamingColumns[..j + 1][..j] == NamingColumns[..j];
      ConcatAssoc(before, done, ColumnWrites(row, NamingColumns[j], contigs));
    }
    assert NamingColumns[..|NamingColumns|] == NamingColumns;
  }

  /** The body of the loop over the naming columns, for one column of one row. */
  method WriteColumn(m: map<string, string>, row: ReportRow, col: Column, contigs: set<string>, ghost writes: seq<(string, string)>)
    returns (m': map<string, string>)
    requires m == LastWins(writes)
    ensures m' == LastWins(writes + ColumnWrites(row, col, contigs))
  {
    m' := m;
    var cell := Cell(row, col);
    if cell.Some? && cell.value in contigs {
      var name := cell.value;
      ghost var w := writes;
      if row.genbank.Some? && row.genbank.value != "" && row.genbank.value != "na" {
        LastWinsSnoc(w, (row.genbank.value, name));
        m' := m'[row.genbank.value := name];
        w := w + [(row.genbank.value, name)];
      }
      if row.refseq.Some? && row.refseq.value != "" && row.refseq.value != "na" {
        LastWinsSnoc(w, (row.refseq.value, name));
        m' := m'[row.refseq.value := name];
        w := w + [(row.refseq.value, name)];
      }
      assert w == writes + ColumnWrites(row, col, contigs);
    } else {
      assert ColumnWrites(row, col, contigs) == [];
      assert writes + [] == writes;
    }
  }

  // ---------------------------------------------------------------- the contig-alias service

  /**
   * A contig as the contig-alias service describes it: its names by naming
   * convention.  A missing or null name is absent from the map.
   */
  type Entity = map<string, string>

  /** 'refseq', 'enaSequenceName', 'genbankSequenceName', 'ucscName', in the order searched. */
  const Conventions: seq<string> := ["refseq", "enaSequenceName", "genbankSequenceName", "ucscName"]

  /** `entity.get(key)`, with "" for a missing or null value (both are false in the tests that follow). */
  function Get(entity: Entity, key: string): string
  {
    if key in entity then entity[key] else ""
  }

  /** The INSDC and RefSeq accessions recorded for a name of the entity. */
  function Accessions(entity: Entity): (string, string)
  {
    (Get(entity, "insdcAccession"), Get(entity, "refseq"))
  }

  /** The write for one naming convention: a non-empty name maps to the entity's accessions. */
  function ConventionWrite(entity: Entity, nc: string): seq<(string, (string, string))>
  {
    if nc in entity && entity[nc] != "" then [(entity[nc], Accessions(entity))] else []
  }

  function ConventionsWrites(entity: Entity, ncs: seq<string>): seq<(string, (string, string))>
  {
    if ncs == [] then []
    else ConventionsWrites(entity, ncs[..|ncs| - 1]) + ConventionWrite(entity, ncs[|ncs| - 1])
  }

  function EntityWriter(): Entity -> seq<(string, (string, string))>
  {
    entity => ConventionsWrites(entity, Conventions)
  }

  /** The temporary dictionary from any name of a contig to its (INSDC, RefSeq) accessions. */
  function AliasIndex(entities: seq<Entity>): map<string, (string, string)>
  {
    LastWins(AllWrites(entities, EntityWriter()))
  }

  /** `name` is a non-empty name of the entity under one of the four conventions. */
  predicate Names(entity: Entity, name: string)
  {
    name != "" && (Get(entity, "refseq") == name || Get(entity, "enaSequenceName") == name ||
                   Get(entity, "genbankSequenceName") == name || Get(entity, "ucscName") == name)
  }

  /** The four conventions' writes, in the order of the conventions. */
  lemma EntityWritesConventions(entity: Entity)
    ensures EntityWriter()(entity) == ConventionWrite(entity, "refseq") + ConventionWrite(entity, "enaSequenceName")
      + ConventionWrite(entity, "genbankSequenceName") + ConventionWrite(entity, "ucscName")
  {
    var a, b, c, d := ConventionWrite(entity, "refseq"), ConventionWrite(entity, "enaSequenceName"),
      ConventionWrite(entity, "genbankSequenceName"), ConventionWrite(entity, "ucscName");
    var c1, c2, c3 := Conventions[..1], Conventions[..2], Conventions[..3];
    assert c1[..0] == [] && c2[..1] == c1 && c3[..2] == c2 && Conventions[..3] == c3;
    assert c1 == ["refseq"] && c2[1] == "enaSequenceName" && c3[2] == "genbankSequenceName" && Conventions[3] == "ucscName";
    assert ConventionsWrites(entity, c1) == a;
    assert ConventionsWrites(entity, c2) == a + b;
    assert ConventionsWrites(entity, c3) == a + b + c;
  }

  lemma EntityWritesMeaning(entity: Entity, name: string, acc: (string, string))
    ensures (name, acc) in EntityWriter()(entity) <==> Names(entity, name) && acc == Accessions(entity)
  {
    EntityWritesConventions(entity);
  }

  /** A name is in the index iff some entity bears it, and it maps to the accessions of an entity bearing it. */
  lemma AliasIndexMeaning(entities: seq<Entity>, name: string)
    ensures name in AliasIndex(entities) <==> exists i :: 0 <= i < |entities| && Names(entities[i], name)
    ensures name in AliasIndex(entities) ==>
      exists i :: 0 <= i < |entities| && Names(entities[i], name) && AliasIndex(entities)[name] == Accessions(entities[i])
  {
    var d := AliasIndex(entities);
    LastWriteFrom(entities, EntityWriter(), name);
    if name in d {
      var i :| 0 <= i < |entities| && (name, d[name]) in EntityWriter()(entities[i]);
      EntityWritesMeaning(entities[i], name, d[name]);
    }
    if exists i :: 0 <= i < |entities| && Names(entities[i], name) {
      var i :| 0 <= i < |entities| && Names(entities[i], name);
      EntityWritesMeaning(entities[i], name, Accessions(entities[i]));
    }
  }

  /** The first loop of `contig_alias_map`: every non-empty name of every entity, in order, mapped to its accessions. */
  method ContigAliasIndex(entities: seq<Entity>) returns (index: map<string, (string, string)>)
    ensures index == AliasIndex(entities)
  {
    index := map[];
    for i := 0 to |entities|
      invariant index == LastWins(AllWrites(entities[..i], EntityWriter()))
    {
      var entity := entities[i];
      ghost var before := AllWrites(entities[..i], EntityWriter());
      assert Conventions[..0] == [] && before + [] == before;
      for j := 0 to |Conventions|
        invariant index == LastWins(before + ConventionsWrites(entity, Conventions[..j]))
      {
        var nc := Conventions[j];
        ghost var done := ConventionsWrites(entity, Conventions[..j]);
        assert Conventions[..j + 1][..j] == Conventions[..j];
        if nc in entity && entity[nc] != "" {
          var acc := (Get(entity, "insdcAccession"), Get(entity, "refseq"));
          LastWinsSnoc(before + done, (entity[nc], acc));
          index := index[entity[nc] := acc];
          assert ConventionWrite(entity, nc) == [(entity[nc], acc)];
        } else {
          assert (before + done) + ConventionWrite(entity, nc) == before + done;
        }
        ConcatAssoc(before, done, ConventionWrite(entity, nc));
      }
      assert Conventions[..|Conventions|] == Conventions;
      assert entities[..i + 1][..i] == entities[..i];
      assert AllWrites(entities[..i + 1], EntityWriter()) == before + EntityWriter()(entity);
    }
    assert entities[..|entities|] == entities;
  }

  /** Contig `c` of the VCF files is known to the service, and `k` is one of its non-empty accessions. */
  predicate Aliases(index: map<string, (string, string)>, c: string, k: string)
  {
    c in index && k != "" && (index[c].0 == k || index[c].1 == k)
  }

  /**
   * The second loop of `contig_alias_map`: for every VCF contig the service
   * knows, its INSDC and RefSeq accessions map back to it.  The contigs are
   * taken from a set in no particular order, so when two contigs share an
   * accession either may be the one kept; the contract says only what holds
   * for every order.
   */
  method ContigAliasMap(index: map<string, (string, string)>, contigs: set<string>) returns (m: map<string, string>)
    ensures forall k :: k in m <==> exists c :: c in contigs && Aliases(index, c, k)
    ensures forall k :: k in m ==> m[k] in contigs && Aliases(index, m[k], k)
  {
    m := map[];
    var remaining := contigs;
    ghost var done: set<string> := {};
    while remaining != {}
      invariant remaining + done == contigs && remaining !! done
      invariant MapsBack(m, index, done)
      decreases |remaining|
    {
      var contig :| contig in remaining;
      m := MapBack(m, index, contig, done);
      remaining := remaining - {contig};
      done := done + {contig};
    }
  }

  /** `m` maps back exactly the accessions of the contigs in `done`, each to one of those contigs. */
  ghost predicate MapsBack(m: map<string, string>, index: map<string, (string, string)>, done: set<string>)
  {
    (forall k :: k in m <==> exists c :: c in done && Aliases(index, c, k)) &&
    (forall k :: k in m ==> m[k] in done && Aliases(index, m[k], k))
  }

  /** The body of the loop over the VCF contigs: the contig's INSDC and RefSeq accessions map to it. */
  method MapBack(m: map<string, string>, index: map<string, (string, string)>, contig: string, ghost done: set<string>)
    returns (m': map<string, string>)
    requires MapsBack(m, index, done)
    ensures MapsBack(m', index, done + {contig})
  {
    m' := m;
    if contig in index {
      var (insdc, refseq) := index[contig];
      if insdc != "" {
        m' := m'[insdc := contig];
      }
      if refseq != "" {
        m' := m'[refseq := contig];
      }
    }
  }

  // ---------------------------------------------------------------- rewriting the FASTA file

  /** `line.split()[0][1:]`: the sequence name of a FASTA header line. */
  function HeaderName(line: string): string
  {
    var words := Words(line);
    if words == [] then [] else words[0][1..]
  }

  /** The name the sequence gets: the report's name if it has a non-empty one, else the service's, else its own. */
  function Rename(name: string, reportMap: map<string, string>, aliasMap: map<string, string>): string
  {
    if name in reportMap && reportMap[name] != "" then reportMap[name]
    else if name in aliasMap && aliasMap[name] != "" then aliasMap[name]
    else name
  }

  /** A header line becomes '>' + new name + newline; every other line is copied as it is. */
  function RewriteLine(line: string, reportMap: map<string, string>, aliasMap: map<string, string>): string
  {
    if StartsWith(line, ">") then ">" + Rename(HeaderName(line), reportMap, aliasMap) + "\n" else line
  }

  /** `rewrite_changing_names`: the FASTA file line by line, header lines renamed. */
  method RewriteChangingNames(fasta: seq<string>, reportMap: map<string, string>, aliasMap: map<string, string>)
    returns (output: seq<string>)
    ensures |output| == |fasta|
    ensures forall i :: 0 <= i < |fasta| ==> output[i] == RewriteLine(fasta[i], reportMap, aliasMap)
  {
    output := [];
    for i := 0 to |fasta|
      invariant |output| == i
      invariant forall j :: 0 <= j < i ==> output[j] == RewriteLine(fasta[j], reportMap, aliasMap)
    {
      var line := fasta[i];
      if StartsWith(line, ">") {
        var words := Words(line);
        var contigName := if words == [] then [] else words[0][1..];
        var reportName := if contigName in reportMap then reportMap[contigName] else "";
        var aliasName := if contigName in aliasMap then aliasMap[contigName] else "";
        if reportName != "" {
          contigName := reportName;
        } else if aliasName != "" {
          contigName := aliasName;
        }
        line := ">" + contigName + "\n";
      }
      output := output + [line];
    }
  }

  lemma {:induction false} SplitBeforeNewline(w: string)
    requires forall k :: 0 <= k < |w| ==> !IsSpace(w[k])
    ensures SplitWhere(w + "\n", IsSpace) == [w, []]
  {
    if w == [] {
      assert w + "\n" == "\n";
      assert SplitWhere("\n"[1..], IsSpace) == [[]];
    } else {
      SplitBeforeNewline(w[1..]);
      assert (w + "\n")[1..] == w[1..] + "\n";
      assert [w[0]] + w[1..] == w;
    }
  }

  /** A rewritten header line reads back as the name it was given, when that name holds no whitespace. */
  lemma RewrittenHeaderName(name: string)
    requires forall k :: 0 <= k < |name| ==> !IsSpace(name[k])
    ensures HeaderName(">" + name + "\n") == name
  {
    var w := ">" + name;
    assert w + "\n" == ">" + name + "\n";
    SplitBeforeNewline(w);
    var empty: seq<string> := [[]];
    assert NonEmpty([w, []]) == [w] by {
      assert [w, []][1..] == empty;
      assert NonEmpty(empty) == [] by { assert empty[1..] == []; }
    }
  }

  /**
   * With the dictionaries built from the assembly report and from the
   * service, a renamed sequence takes the name of a contig of the VCF files;
   * the report's name, when there is one, is preferred.
   */
  lemma RenamedToVcfContig(rows: seq<ReportRow>, aliasMap: map<string, string>, contigs: set<string>, name: string)
    requires forall k :: k in aliasMap ==> aliasMap[k] in contigs
    ensures var r := Rename(name, ReportMap(rows, contigs), aliasMap);
      r == name || r in contigs
    ensures name in ReportMap(rows, contigs) && ReportMap(rows, contigs)[name] != "" ==>
      Rename(name, ReportMap(rows, contigs), aliasMap) == ReportMap(rows, contigs)[name]
  {
    ReportMapMeaning(rows, contigs, name);
  }

  /** Sequence lines are copied unchanged and header lines stay header lines. */
  lemma RewriteKeepsLines(line: string, reportMap: map<string, string>, aliasMap: map<string, string>)
    ensures !StartsWith(line, ">") ==> RewriteLine(line, reportMap, aliasMap) == line
    ensures StartsWith(line, ">") <==> StartsWith(RewriteLine(line, reportMap, aliasMap), ">")
  {
  }
}
