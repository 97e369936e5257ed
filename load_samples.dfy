/**
 * The sample-matching helpers of the sample loader: reading the tab-separated
 * sample mapping file, searching a BioSample document for a VCF sample name,
 * and resolving the VCF sample names that did not match an ENA sample name.
 * The BioSample documents come from a web service; here they are a lookup
 * function from accession to document.
 */
module LoadSamples {
  import opened Wrappers
  import opened Text
  import opened Collections

  // ---------------------------------------------------------------------
  // The sample mapping file

  /** The entry of one line: column 0 keys it; column 1 is the sample name, column 2 the BioSample accession. */
  function MappingEntry(line: string): (string, map<string, string>)
  {
    var cols := Split(Strip(line), '\t');
    var named := if |cols| > 1 then map["sample_name" := cols[1]] else map[];
    (cols[0], if |cols| > 2 then named["biosample_accession" := cols[2]] else named)
  }

  /** Each line's entry says which optional columns it has, and nothing else. */
  lemma MappingEntryFields(line: string)
    ensures var cols, e := Split(Strip(line), '\t'), MappingEntry(line).1;
      e.Keys <= {"sample_name", "biosample_accession"} &&
      MappingEntry(line).0 == cols[0] &&
      ("sample_name" in e <==> |cols| > 1) && ("sample_name" in e ==> e["sample_name"] == cols[1]) &&
      ("biosample_accession" in e <==> |cols| > 2) && ("biosample_accession" in e ==> e["biosample_accession"] == cols[2])
  {
  }

  function Entries(lines: seq<string>): (r: seq<(string, map<string, string>)>)
    ensures |r| == |lines| && forall i :: 0 <= i < |lines| ==> r[i] == MappingEntry(lines[i])
  {
    seq(|lines|, i requires 0 <= i < |lines| => MappingEntry(lines[i]))
  }

  /** `sample_mapping`: a later line with the same key replaces the earlier one. */
  method ReadSampleMapping(lines: seq<string>) returns (mapping: map<string, map<string, string>>)
    ensures mapping == LastWins(Entries(lines))
  {
    mapping := map[];
    for i := 0 to |lines|
      invariant mapping == LastWins(Entries(lines[..i]))
    {
      EntriesSnoc(lines, i);
      mapping := ReadMappingLine(mapping, lines[i]);
    }
    assert lines[..|lines|] == lines;
  }

  /** The entries of one more line: the earlier entries, then the line's own. */
  lemma EntriesSnoc(lines: seq<string>, i: nat)
    requires i < |lines|
    ensures LastWins(Entries(lines[..i + 1])) == LastWins(Entries(lines[..i]))[MappingEntry(lines[i]).0 := MappingEntry(lines[i]).1]
  {
    assert Entries(lines[..i + 1])[..i] == Entries(lines[..i]);
  }

  /** One line of the mapping file: its key gets a fresh entry, filled from the columns present. */
  method ReadMappingLine(mapping: map<string, map<string, string>>, line: string) returns (mapping': map<string, map<string, string>>)
    ensures mapping' == mapping[MappingEntry(line).0 := MappingEntry(line).1]
  {
    var cols := Split(Strip(line), '\t');
    mapping' := mapping[cols[0] := map[]];
    if |cols| > 1 {
      mapping' := mapping'[cols[0] := mapping'[cols[0]]["sample_name" := cols[1]]];
    }
    if |cols| > 2 {
      mapping' := mapping'[cols[0] := mapping'[cols[0]]["biosample_accession" := cols[2]]];
    }
  }

  /** A key is mapped exactly when some line starts with it, and takes the entry of the last such line. */
  lemma SampleMappingLastLine(lines: seq<string>, key: string)
    ensures key in LastWins(Entries(lines)) <==> exists i :: 0 <= i < |lines| && MappingEntry(lines[i]).0 == key
    ensures key in LastWins(Entries(lines)) ==>
      exists i :: 0 <= i < |lines| && MappingEntry(lines[i]).0 == key && LastWins(Entries(lines))[key] == MappingEntry(lines[i]).1 &&
        forall j :: i < j < |lines| ==> MappingEntry(lines[j]).0 != key
  {
    var es := Entries(lines);
    LastWinsValue(es, key);
    KeysOfMeaning(es, key);
  }

  lemma {:induction false} KeysOfMeaning<K(!new), V>(pairs: seq<(K, V)>, k: K)
    ensures k in KeysOf(pairs) <==> exists i :: 0 <= i < |pairs| && pairs[i].0 == k
  {
    if pairs != [] {
      var init := pairs[..|pairs| - 1];
      assert pairs == init + [pairs[|pairs| - 1]];
      KeysOfAppend(init, pairs[|pairs| - 1]);
      KeysOfMeaning(init, k);
      if k in KeysOf(init) {
        var i :| 0 <= i < |init| && init[i].0 == k;
        assert pairs[i] == init[i];
      }
      if exists i :: 0 <= i < |pairs| && pairs[i].0 == k {
        var i :| 0 <= i < |pairs| && pairs[i].0 == k;
        if i < |init| { assert init[i] == pairs[i]; }
      }
    }
  }

  // ---------------------------------------------------------------------
  // Searching a BioSample document

  /** A BioSample document: its name and, when it has them, its characteristics as (attribute, first text), in document order. */
  datatype BioSampleDoc = BioSampleDoc(name: string, characteristics: Option<seq<(string, string)>>)

  datatype MatchKind = Full | Contained

  /** An attribute is searched when no list of characteristics is given, the list is empty, or it lists the attribute. */
  predicate Allowed(attribute: string, only: Option<seq<string>>)
  {
    only.None? || only.value == [] || attribute in only.value
  }

  /** The first searched attribute whose text is the sample name. */
  function FirstFull(cs: seq<(string, string)>, sampleName: string, only: Option<seq<string>>): (r: Option<string>)
    ensures r.None? <==> forall i :: 0 <= i < |cs| && Allowed(cs[i].0, only) ==> cs[i].1 != sampleName
    ensures r.Some? ==> exists i :: (0 <= i < |cs| && Allowed(cs[i].0, only) && cs[i].1 == sampleName && r.value == cs[i].0 &&
      forall j :: 0 <= j < i && Allowed(cs[j].0, only) ==> cs[j].1 != sampleName)
  {
    if cs == [] then None
    else if Allowed(cs[0].0, only) && cs[0].1 == sampleName then Some(cs[0].0)
    else
      var r := FirstFull(cs[1..], sampleName, only);
      assert forall i :: 1 <= i < |cs| ==> cs[i] == cs[1..][i - 1];
      r
  }

  /** The first searched attribute whose text contains the sample name. */
  function FirstContaining(cs: seq<(string, string)>, sampleName: string, only: Option<seq<string>>): (r: Option<string>)
    ensures r.None? <==> forall i :: 0 <= i < |cs| && Allowed(cs[i].0, only) ==> !Contains(cs[i].1, sampleName)
    ensures r.Some? ==> exists i :: (0 <= i < |cs| && Allowed(cs[i].0, only) && Contains(cs[i].1, sampleName) && r.value == cs[i].0 &&
      forall j :: 0 <= j < i && Allowed(cs[j].0, only) ==> !Contains(cs[j].1, sampleName))
  {
    if cs == [] then None
    else if Allowed(cs[0].0, only) && Contains(cs[0].1, sampleName) then Some(cs[0].0)
    else
      var r := FirstContaining(cs[1..], sampleName, only);
      assert forall i :: 1 <= i < |cs| ==> cs[i] == cs[1..][i - 1];
      r
  }

  /**
   * `search_mapping_in_biosample`: a characteristic equal to the name, else
   * the document's name containing it, else a characteristic containing it;
   * None when there is no document, no characteristics or no match.
   */
  function SearchMapping(doc: Option<BioSampleDoc>, sampleName: string, only: Option<seq<string>>): Option<(string, MatchKind)>
  {
    if doc.None? || doc.value.characteristics.None? then None
    else
      var cs := doc.value.characteristics.value;
      match FirstFull(cs, sampleName, only)
      case Some(a) => Some((a, Full))
      case None =>
        if Contains(doc.value.name, sampleName) then Some(("name", Contained))
        else match FirstContaining(cs, sampleName, only)
          case Some(a) => Some((a, Contained))
          case None => None
  }

  /**
   * A full characteristic match wins over the name, which wins over a
   * contained characteristic; no match of any kind gives None.
   */
  lemma SearchPriority(doc: BioSampleDoc, sampleName: string, only: Option<seq<string>>)
    requires doc.characteristics.Some?
    ensures var cs, r := doc.characteristics.value, SearchMapping(Some(doc), sampleName, only);
      var full := exists i :: 0 <= i < |cs| && Allowed(cs[i].0, only) && cs[i].1 == sampleName;
      (full <==> (r.Some? && r.value.1 == Full)) &&
      (!full && Contains(doc.name, sampleName) ==> r == Some(("name", Contained))) &&
      (!full && !Contains(doc.name, sampleName) ==> r == (match FirstContaining(cs, sampleName, only) case Some(a) => Some((a, Contained)) case None => None)) &&
      (r.None? <==> (!Contains(doc.name, sampleName) && forall i :: 0 <= i < |cs| && Allowed(cs[i].0, only) ==> !Contains(cs[i].1, sampleName)))
  {
    var cs := doc.characteristics.value;
    forall i | 0 <= i < |cs| && Allowed(cs[i].0, only) && !Contains(cs[i].1, sampleName)
      ensures cs[i].1 != sampleName
    {
      SelfContains(cs[i].1);
    }
  }

  lemma SelfContains(s: string)
    ensures Contains(s, s)
  {
    assert OccursAt(s, s, 0) by { assert s[0..|s|] == s; }
  }

  /** Without a document, or without characteristics, nothing matches. */
  lemma NoDocumentNoMatch(doc: Option<BioSampleDoc>, sampleName: string, only: Option<seq<string>>)
    requires doc.None? || doc.value.characteristics.None?
    ensures SearchMapping(doc, sampleName, only) == None
  {
  }

  // ---------------------------------------------------------------------
  // Resolving unmatched sample names

  datatype Quality = Matched | Partial

  /** One line of the resolved mapping: the VCF name, the ENA name, the BioSample accession and how they matched. */
  datatype SampleMatch = SampleMatch(nameInVcf: string, nameInEna: string, accession: string, quality: Quality)

  /** The web lookups the resolution depends on: ENA name to accession, accession to BioSample document. */
  datatype Sources = Sources(accessionOf: map<string, string>, lookup: string -> Option<BioSampleDoc>)

  /** The accession of an ENA name, when it has a non-empty one. */
  function AccessionOf(src: Sources, nameInEna: string): Option<string>
  {
    if nameInEna in src.accessionOf && src.accessionOf[nameInEna] != "" then Some(src.accessionOf[nameInEna]) else None
  }

  /** What one ENA name says about a VCF name: a full match, a contained match (attribute, ENA name, accession), or nothing. */
  datatype Verdict = FullMatch | Potential(attribute: string, accession: string) | NoMatch

  function VerdictFor(src: Sources, nameInVcf: string, nameInEna: string): Verdict
  {
    match AccessionOf(src, nameInEna)
    case None => NoMatch
    case Some(acc) =>
      match SearchMapping(src.lookup(acc), nameInVcf, None)
      case Some((attribute, kind)) =>
        if attribute == "" then NoMatch
        else if kind == Full then FullMatch
        else Potential(attribute, acc)
      case None => NoMatch
  }

  /** The scan of the ENA names for one VCF name: the index of the first full match, or the potential matches in order. */
  datatype Scan = FoundAt(index: nat) | Potentials(found: seq<(string, string, string)>)

  function ScanEna(src: Sources, nameInVcf: string, ena: seq<string>): (r: Scan)
    ensures r.FoundAt? ==> r.index < |ena| && VerdictFor(src, nameInVcf, ena[r.index]) == FullMatch
  {
    if ena == [] then Potentials([])
    else
      var k := |ena| - 1;
      match ScanEna(src, nameInVcf, ena[..k])
      case FoundAt(j) => FoundAt(j)
      case Potentials(p) =>
        match VerdictFor(src, nameInVcf, ena[k])
        case FullMatch => FoundAt(k)
        case Potential(attribute, acc) => Potentials(p + [(attribute, ena[k], acc)])
        case NoMatch => Potentials(p)
  }

  /** The scan stops at the first ENA name that fully matches. */
  lemma {:induction false} ScanEnaFirst(src: Sources, nameInVcf: string, ena: seq<string>)
    ensures ScanEna(src, nameInVcf, ena).FoundAt? <==> exists j :: 0 <= j < |ena| && VerdictFor(src, nameInVcf, ena[j]) == FullMatch
    ensures ScanEna(src, nameInVcf, ena).FoundAt? ==> forall j :: 0 <= j < ScanEna(src, nameInVcf, ena).index ==> VerdictFor(src, nameInVcf, ena[j]) != FullMatch
  {
    if ena != [] {
      var k := |ena| - 1;
      ScanEnaFirst(src, nameInVcf, ena[..k]);
      assert forall j :: 0 <= j < k ==> ena[..k][j] == ena[j];
    }
  }

  /** Exactly one BioSample among the potential matches. */
  predicate OneBioSample(p: seq<(string, string, string)>)
  {
    p != [] && forall i :: 0 <= i < |p| ==> p[i].2 == p[0].2
  }

  /** `list.remove(x)`: drops the first occurrence. */
  function RemoveFirst(xs: seq<string>, x: string): (r: seq<string>)
    ensures x in xs ==> |r| == |xs| - 1 && multiset(r) == multiset(xs) - multiset{x}
    ensures x !in xs ==> r == xs
  {
    if xs == [] then []
    else if xs[0] == x then
      assert xs == [xs[0]] + xs[1..];
      xs[1..]
    else
      assert xs == [xs[0]] + xs[1..];
      [xs[0]] + RemoveFirst(xs[1..], x)
  }

  /** The state of the resolution: the mapping so far, the VCF names left over, and the ENA names not yet matched. */
  datatype Resolution = Resolution(mapping: seq<SampleMatch>, remaining: seq<string>, ena: seq<string>)

  /** One VCF name resolved against the ENA names still unmatched. */
  function ResolveOne(st: Resolution, src: Sources, nameInVcf: string): Resolution
  {
    match ScanEna(src, nameInVcf, st.ena)
    case FoundAt(j) =>
      var nameInEna := st.ena[j];
      Resolution(st.mapping + [SampleMatch(nameInVcf, nameInEna, AccessionOf(src, nameInEna).value, Matched)],
                 st.remaining, RemoveFirst(st.ena, nameInEna))
    case Potentials(p) =>
      var mapping := if OneBioSample(p) then st.mapping + [SampleMatch(nameInVcf, p[0].1, p[0].2, Partial)] else st.mapping;
      Resolution(mapping, st.remaining + [nameInVcf], st.ena)
  }

  /** `resolve_unmatched_samples`, as a fold over the VCF names. */
  function Resolve(src: Sources, vcfNames: seq<string>, ena: seq<string>): Resolution
  {
    if vcfNames == [] then Resolution([], [], ena)
    else ResolveOne(Resolve(src, vcfNames[..|vcfNames| - 1], ena), src, vcfNames[|vcfNames| - 1])
  }

  function MatchedCount(m: seq<SampleMatch>): nat
  {
    if m == [] then 0 else MatchedCount(m[..|m| - 1]) + (if m[|m| - 1].quality == Matched then 1 else 0)
  }

  /** A fully matched ENA name leaves the unmatched ENA names; nothing else does. */
  lemma ResolveOneRemoves(st: Resolution, src: Sources, nameInVcf: string)
    ensures var r := ResolveOne(st, src, nameInVcf);
      if ScanEna(src, nameInVcf, st.ena).FoundAt? then
        var x := st.ena[ScanEna(src, nameInVcf, st.ena).index];
        multiset(r.ena) == multiset(st.ena) - multiset{x} && r.remaining == st.remaining &&
        r.mapping == st.mapping + [SampleMatch(nameInVcf, x, AccessionOf(src, x).value, Matched)]
      else r.ena == st.ena && r.remaining == st.remaining + [nameInVcf]
  {
  }

  /** One VCF name is either matched, taking one ENA name out, or left over. */
  lemma ResolveOneCounts(st: Resolution, src: Sources, nameInVcf: string)
    ensures var r := ResolveOne(st, src, nameInVcf);
      MatchedCount(r.mapping) + |r.remaining| == MatchedCount(st.mapping) + |st.remaining| + 1 &&
      |r.ena| + MatchedCount(r.mapping) == |st.ena| + MatchedCount(st.mapping) &&
      multiset(r.ena) <= multiset(st.ena)
  {
    var r := ResolveOne(st, src, nameInVcf);
    if r.mapping != st.mapping {
      assert r.mapping[..|r.mapping| - 1] == st.mapping;
    }
    if ScanEna(src, nameInVcf, st.ena).FoundAt? {
      var j := ScanEna(src, nameInVcf, st.ena).index;
      assert st.ena[j] in st.ena;
    }
  }

  /**
   * Every VCF name either fully matches, and then takes one ENA name out of
   * the unmatched list, or is left over (a partial match is recorded and the
   * name is still left over).
   */
  lemma {:induction false} ResolveAccounts(src: Sources, vcfNames: seq<string>, ena: seq<string>)
    ensures var r := Resolve(src, vcfNames, ena);
      MatchedCount(r.mapping) + |r.remaining| == |vcfNames| &&
      |r.ena| + MatchedCount(r.mapping) == |ena| &&
      multiset(r.ena) <= multiset(ena)
  {
    if vcfNames != [] {
      var init := vcfNames[..|vcfNames| - 1];
      ResolveAccounts(src, init, ena);
      ResolveOneCounts(Resolve(src, init, ena), src, vcfNames[|vcfNames| - 1]);
    }
  }

  /**
   * The inner loop of `resolve_unmatched_samples`: the ENA names in order
   * until the first full match, collecting the contained matches.
   */
  method ScanUnmatchedEna(src: Sources, nameInVcf: string, ena: seq<string>) returns (found: bool, j: nat, potentials: seq<(string, string, string)>)
    ensures found ==> ScanEna(src, nameInVcf, ena) == FoundAt(j)
    ensures !found ==> ScanEna(src, nameInVcf, ena) == Potentials(potentials)
  {
    found, j, potentials := false, 0, [];
    while j < |ena| && !found
      invariant j <= |ena|
      invariant !found ==> ScanEna(src, nameInVcf, ena[..j]) == Potentials(potentials)
      invariant found ==> j < |ena| && ScanEna(src, nameInVcf, ena[..j + 1]) == FoundAt(j)
      decreases |ena| - j, !found
    {
      assert ena[..j + 1][..j] == ena[..j];
      var accession := AccessionOf(src, ena[j]);
      if accession.Some? {
        var m := SearchMapping(src.lookup(accession.value), nameInVcf, None);
        if m.Some? && m.value.0 != "" && m.value.1 == Full {
          found := true;
        } else if m.Some? && m.value.0 != "" && m.value.1 == Contained {
          potentials := potentials + [(m.value.0, ena[j], accession.value)];
        }
      }
      if !found {
        j := j + 1;
      }
    }
    if found {
      ScanEnaKeeps(src, nameInVcf, ena, j + 1);
    } else {
      assert ena[..j] == ena;
    }
  }

  /** A full match in a prefix is the full match of the whole list. */
  lemma {:induction false} ScanEnaKeeps(src: Sources, nameInVcf: string, ena: seq<string>, n: nat)
    requires n <= |ena| && ScanEna(src, nameInVcf, ena[..n]).FoundAt?
    ensures ScanEna(src, nameInVcf, ena) == ScanEna(src, nameInVcf, ena[..n])
    decreases |ena| - n
  {
    if n < |ena| {
      assert ena[..n + 1][..n] == ena[..n];
      ScanEnaKeeps(src, nameInVcf, ena, n + 1);
    } else {
      assert ena[..n] == ena;
    }
  }

  /** `resolve_unmatched_samples`: the VCF names in order against the ENA names still unmatched. */
  method ResolveUnmatchedSamples(src: Sources, vcfNames: seq<string>, enaNames: seq<string>)
    returns (mapping: seq<SampleMatch>, remaining: seq<string>, ena: seq<string>)
    ensures Resolution(mapping, remaining, ena) == Resolve(src, vcfNames, enaNames)
  {
    mapping, remaining, ena := [], [], enaNames;
    for i := 0 to |vcfNames|
      invariant Resolution(mapping, remaining, ena) == Resolve(src, vcfNames[..i], enaNames)
    {
      assert vcfNames[..i + 1][..i] == vcfNames[..i];
      var name := vcfNames[i];
      var found, j, potentials := ScanUnmatchedEna(src, name, ena);
      if !found {
        if OneBioSample(potentials) {
          mapping := mapping + [SampleMatch(name, potentials[0].1, potentials[0].2, Partial)];
        }
        remaining := remaining + [name];
      } else {
        var nameInEna := ena[j];
        mapping := mapping + [SampleMatch(name, nameInEna, AccessionOf(src, nameInEna).value, Matched)];
        ena := RemoveFirst(ena, nameInEna);
      }
    }
    assert vcfNames[..|vcfNames|] == vcfNames;
  }
}
