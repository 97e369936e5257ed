/**
 * Splitting a multi-sample VCF into per-taxonomy (or per-sample) VCFs made of
 * biallelic records.  Reading and writing VCF files through pysam is replaced
 * by the parsed header and records; the result is, per output group, the path
 * of its file and the records written to it, in order.
 */
module SplitVcfByTaxonomy {
  import opened Wrappers
  import opened Text
  import opened Collections

  /** An INFO or FORMAT value as pysam returns it: a scalar, or a tuple of values. */
  datatype FieldValue = Scalar(text: string) | Tuple(items: seq<string>)

  /** The `Number` of an INFO or FORMAT key: 'A' (one per ALT), 'R' (one per allele), 'G' (one per genotype) or other. */
  datatype Number = PerAlt | PerAllele | PerGenotype | OtherNumber

  /**
   * One sample's data in a record: its GT (missing when `None`, each allele
   * index possibly missing), whether it is phased, and its other FORMAT values.
   */
  datatype SampleCall = SampleCall(gt: Option<seq<Option<int>>>, phased: bool, fields: map<string, Option<FieldValue>>)

  /** The header facts the split reads: INFO and FORMAT `Number`s, and the sample names. */
  datatype Header = Header(info: map<string, Number>, formats: map<string, Number>, samples: seq<string>)

  datatype Record = Record(
    chrom: string, pos: int, id: Option<string>, ref: string, alts: seq<string>,
    qual: Option<string>, filter: seq<string>, info: map<string, FieldValue>,
    calls: map<string, SampleCall>)

  /** Every sample of the header has a call, as pysam gives each record one call per header sample. */
  predicate WellFormed(rec: Record, samples: seq<string>)
  {
    forall s :: s in samples ==> s in rec.calls
  }

  /** Every ALT index the listed samples carry names an ALT of the record. */
  predicate AllelesFit(rec: Record, samples: seq<string>)
  {
    forall s, a :: s in samples && s in rec.calls && a in AltAlleles(rec.calls[s].gt) ==> a <= |rec.alts|
  }

  /** The record fits every group. */
  predicate GroupsFit(rec: Record, groups: map<string, seq<string>>)
  {
    forall t :: t in groups ==> AllelesFit(rec, groups[t])
  }

  /** Every record fits the group of `samples`. */
  predicate Fits(records: seq<Record>, samples: seq<string>)
  {
    forall k :: 0 <= k < |records| ==> AllelesFit(records[k], samples)
  }

  /** Every record fits every group. */
  predicate AllFit(records: seq<Record>, groups: map<string, seq<string>>)
  {
    forall k :: 0 <= k < |records| ==> GroupsFit(records[k], groups)
  }

  /**
   * What `original_record.alts[alt_index - 1]` raises for an index past the
   * ALTs: IndexError, or TypeError when ALT is '.' and pysam's `alts` is None.
   */
  function AlleleError(rec: Record): string
  {
    if rec.alts == [] then "TypeError" else "IndexError"
  }

  // ---------------------------------------------------------------------
  // load_sample_to_taxonomy_mapping

  /** The (sample, taxonomy) pair one TSV row yields: none for a row of fewer than two columns. */
  function RowPair(row: seq<string>): seq<(string, string)>
  {
    if |row| >= 2 then [(Strip(row[0]), Strip(row[1]))] else []
  }

  /** The (sample, taxonomy) pairs of the TSV rows, in file order. */
  function MappingPairs(rows: seq<seq<string>>): seq<(string, string)>
  {
    if rows == [] then [] else MappingPairs(rows[..|rows| - 1]) + RowPair(rows[|rows| - 1])
  }

  lemma MappingPairsStep(rows: seq<seq<string>>, i: nat)
    requires i < |rows|
    ensures MappingPairs(rows[..i + 1]) == MappingPairs(rows[..i]) + RowPair(rows[i])
  {
    assert rows[..i + 1][..i] == rows[..i];
  }

  function Swap(pairs: seq<(string, string)>): (r: seq<(string, string)>)
    ensures |r| == |pairs| && forall i :: 0 <= i < |r| ==> r[i] == (pairs[i].1, pairs[i].0)
  {
    if pairs == [] then [] else Swap(pairs[..|pairs| - 1]) + [(pairs[|pairs| - 1].1, pairs[|pairs| - 1].0)]
  }

  /** Each pair comes from a row of at least two columns, both stripped, and each such row gives one. */
  lemma {:induction false} MappingPairsFromRows(rows: seq<seq<string>>, s: string, t: string)
    ensures (s, t) in MappingPairs(rows) <==>
      exists i :: 0 <= i < |rows| && (s, t) in RowPair(rows[i])
  {
    if rows != [] {
      var n := |rows| - 1;
      var init := rows[..n];
      MappingPairsFromRows(init, s, t);
      assert MappingPairs(rows) == MappingPairs(init) + RowPair(rows[n]);
      if (s, t) in MappingPairs(rows) {
        if (s, t) in MappingPairs(init) {
          var i :| 0 <= i < n && (s, t) in RowPair(init[i]);
          assert rows[i] == init[i];
        } else {
          assert (s, t) in RowPair(rows[n]);
        }
      }
      forall i | 0 <= i < |rows| && (s, t) in RowPair(rows[i]) ensures (s, t) in MappingPairs(rows) {
        if i < n {
          assert init[i] == rows[i];
        }
      }
    }
  }

  /**
   * Reads the TSV rows: each sample maps to the taxonomy of its last row, and
   * each taxonomy lists its samples in file order (a repeated row repeats it).
   */
  method LoadSampleToTaxonomyMapping(rows: seq<seq<string>>)
    returns (sampleToTaxonomy: map<string, string>, taxonomyToSamples: map<string, seq<string>>)
    ensures sampleToTaxonomy == LastWins(MappingPairs(rows))
    ensures taxonomyToSamples == GroupBy(Swap(MappingPairs(rows)))
  {
    sampleToTaxonomy := map[];
    taxonomyToSamples := map[];
    for i := 0 to |rows|
      invariant sampleToTaxonomy == LastWins(MappingPairs(rows[..i]))
      invariant taxonomyToSamples == GroupBy(Swap(MappingPairs(rows[..i])))
    {
      var row := rows[i];
      MappingPairsStep(rows, i);
      if |row| >= 2 {
        var sample := Strip(row[0]);
        var taxonomy := Strip(row[1]);
        ghost var before := MappingPairs(rows[..i]);
        ghost var after := before + [(sample, taxonomy)];
        assert MappingPairs(rows[..i + 1]) == after;
        assert after[..|before|] == before;
        assert LastWins(after) == LastWins(before)[sample := taxonomy];
        assert Swap(after) == Swap(before) + [(taxonomy, sample)];
        GroupByAppend(Swap(before), (taxonomy, sample));
        sampleToTaxonomy := sampleToTaxonomy[sample := taxonomy];
        var samples := if taxonomy in taxonomyToSamples then taxonomyToSamples[taxonomy] else [];
        taxonomyToSamples := taxonomyToSamples[taxonomy := samples + [sample]];
      } else {
        assert MappingPairs(rows[..i]) + RowPair(row) == MappingPairs(rows[..i]);
      }
    }
    assert rows[..|rows|] == rows;
  }

  // ---------------------------------------------------------------------
  // get_alt_allele_indices and the genotype remap

  /** The ALT allele indices (1-based) a genotype carries: its non-missing alleles above 0. */
  function AltAlleles(gt: Option<seq<Option<int>>>): set<int>
  {
    match gt
    case None => {}
    case Some(g) => set i | 0 <= i < |g| && g[i].Some? && g[i].value > 0 :: g[i].value
  }

  /** The alleles carried by a genotype: a missing GT carries none. */
  method GetAltAlleleIndices(gt: Option<seq<Option<int>>>) returns (indices: set<int>)
    ensures forall a :: a in indices <==> gt.Some? && a > 0 && Some(a) in gt.value
    ensures indices == AltAlleles(gt)
  {
    indices := {};
    if gt.None? {
      return;
    }
    var g := gt.value;
    for i := 0 to |g|
      invariant indices == set k | 0 <= k < i && g[k].Some? && g[k].value > 0 :: g[k].value
    {
      if g[i].Some? && g[i].value > 0 {
        indices := indices + {g[i].value};
      }
    }
    forall a ensures a in indices <==> a > 0 && Some(a) in g {
      if a > 0 && Some(a) in g {
        var k :| 0 <= k < |g| && g[k] == Some(a);
        assert g[k].value == a;
      }
    }
  }

  /** How one allele of the original genotype reads in the biallelic record for `alt`. */
  function RemappedAllele(a: Option<int>, alt: int): Option<int>
  {
    match a
    case None => None
    case Some(x) => if x == 0 then Some(0) else if x == alt then Some(1) else Some(0)
  }

  /** The biallelic genotype of one sample. */
  function RemappedGenotype(gt: seq<Option<int>>, alt: int): seq<Option<int>>
  {
    seq(|gt|, i requires 0 <= i < |gt| => RemappedAllele(gt[i], alt))
  }

  /** Same ploidy; a missing allele stays missing, `alt` becomes 1 and every other allele 0. */
  lemma RemappedGenotypeMeaning(gt: seq<Option<int>>, alt: int)
    ensures var r := RemappedGenotype(gt, alt);
      |r| == |gt| &&
      forall i :: 0 <= i < |gt| ==>
        (r[i] == None <==> gt[i] == None) &&
        (r[i] == Some(1) <==> alt != 0 && gt[i] == Some(alt)) &&
        (r[i] == Some(0) <==> gt[i].Some? && (alt == 0 || gt[i] != Some(alt)))
  {
  }

  /** The loop that builds `new_gt`. */
  method RemapGenotype(gt: seq<Option<int>>, alt: int) returns (newGt: seq<Option<int>>)
    ensures newGt == RemappedGenotype(gt, alt)
  {
    newGt := [];
    for i := 0 to |gt|
      invariant |newGt| == i
      invariant forall k :: 0 <= k < i ==> newGt[k] == RemappedAllele(gt[k], alt)
    {
      var allele := gt[i];
      if allele.None? {
        newGt := newGt + [None];
      } else if allele.value == 0 {
        newGt := newGt + [Some(0)];
      } else if allele.value == alt {
        newGt := newGt + [Some(1)];
      } else {
        newGt := newGt + [Some(0)];
      }
    }
  }

  /** The biallelic genotype carries an ALT exactly when the original carried `alt`. */
  lemma RemappedCarriesAlt(gt: seq<Option<int>>, alt: int)
    requires alt >= 1
    ensures AltAlleles(Some(RemappedGenotype(gt, alt))) == (if Some(alt) in gt then {1} else {})
  {
    var r := RemappedGenotype(gt, alt);
    RemappedGenotypeMeaning(gt, alt);
    if Some(alt) in gt {
      var i :| 0 <= i < |gt| && gt[i] == Some(alt);
      assert r[i] == Some(1);
    }
    forall a | a in AltAlleles(Some(r)) ensures a == 1 {
      var i :| 0 <= i < |r| && r[i].Some? && r[i].value > 0 && r[i].value == a;
    }
  }

  // ---------------------------------------------------------------------
  // create_biallelic_record(_multi_sample)

  function Lookup(m: map<string, Number>, k: string): Option<Number>
  {
    if k in m then Some(m[k]) else None
  }

  /** An INFO value in the record for `alt`; `None` drops the key. */
  function RemapInfoValue(v: FieldValue, n: Option<Number>, alt: nat): Option<FieldValue>
    requires alt >= 1
  {
    match n
    case Some(PerAlt) =>
      if !v.Tuple? then Some(v)
      else if |v.items| >= alt then Some(Tuple([v.items[alt - 1]]))
      else None
    case Some(PerAllele) =>
      if !v.Tuple? then Some(v)
      else if |v.items| > alt then Some(Tuple([v.items[0], v.items[alt]]))
      else None
    case _ => Some(v)
  }

  /** The INFO of the record for `alt`. */
  function RemapInfo(info: map<string, FieldValue>, numbers: map<string, Number>, alt: nat): map<string, FieldValue>
    requires alt >= 1
  {
    map k | k in info && RemapInfoValue(info[k], Lookup(numbers, k), alt).Some? ::
      RemapInfoValue(info[k], Lookup(numbers, k), alt).value
  }

  /**
   * An 'A' tuple keeps its value for `alt` and an 'R' tuple its REF value and
   * its value for `alt`; a tuple too short for that is dropped; a scalar, or a
   * key of any other Number, is copied; no key is added.
   */
  lemma RemapInfoKeys(info: map<string, FieldValue>, numbers: map<string, Number>, alt: nat, k: string)
    requires alt >= 1
    ensures var r := RemapInfo(info, numbers, alt);
      (k in r ==> k in info) &&
      (k in info && Lookup(numbers, k) == Some(PerAlt) && info[k].Tuple? ==>
        if |info[k].items| >= alt then k in r && r[k] == Tuple([info[k].items[alt - 1]]) else k !in r) &&
      (k in info && Lookup(numbers, k) == Some(PerAllele) && info[k].Tuple? ==>
        if |info[k].items| > alt then k in r && r[k] == Tuple([info[k].items[0], info[k].items[alt]]) else k !in r) &&
      (k in info && (!info[k].Tuple? || Lookup(numbers, k) !in {Some(PerAlt), Some(PerAllele)}) ==>
        k in r && r[k] == info[k])
  {
  }

  /** A FORMAT value in the record for `alt`; `None` drops the key. */
  function RemapFormatValue(v: Option<FieldValue>, n: Option<Number>, alt: nat): Option<FieldValue>
    requires alt >= 1
  {
    if v.None? then None
    else
      match n
      case Some(PerAlt) =>
        if v.value.Tuple? && |v.value.items| >= alt then Some(Tuple([v.value.items[alt - 1]])) else None
      case Some(PerAllele) =>
        if v.value.Tuple? && |v.value.items| > alt then Some(Tuple([v.value.items[0], v.value.items[alt]])) else None
      case Some(PerGenotype) => None
      case _ => v
  }

  /** One sample of the record for `alt`: GT remapped, phasing kept only with a GT, FORMAT values remapped. */
  function BiallelicCall(c: SampleCall, formats: map<string, Number>, alt: nat): SampleCall
    requires alt >= 1
  {
    SampleCall(
      if c.gt.Some? then Some(RemappedGenotype(c.gt.value, alt)) else None,
      c.gt.Some? && c.phased,
      map k | k in c.fields && k != "GT" && RemapFormatValue(c.fields[k], Lookup(formats, k), alt).Some? ::
        RemapFormatValue(c.fields[k], Lookup(formats, k), alt))
  }

  /**
   * A sample keeps its phasing only when it has a GT; GT, missing values and
   * 'G' keys never appear among the other FORMAT values; 'A' and 'R' keys keep
   * only a long enough tuple; any other key is copied.
   */
  lemma BiallelicCallFacts(c: SampleCall, formats: map<string, Number>, alt: nat, k: string)
    requires alt >= 1
    ensures var r := BiallelicCall(c, formats, alt);
      (c.gt.None? ==> r.gt.None? && !r.phased) &&
      (c.gt.Some? ==> r.gt == Some(RemappedGenotype(c.gt.value, alt)) && r.phased == c.phased) &&
      (k in r.fields ==> k in c.fields && k != "GT" && c.fields[k].Some? && Lookup(formats, k) != Some(PerGenotype)) &&
      (k in c.fields && k != "GT" && c.fields[k].Some? && Lookup(formats, k) == Some(PerAlt) ==>
        if c.fields[k].value.Tuple? && |c.fields[k].value.items| >= alt
        then k in r.fields && r.fields[k] == Some(Tuple([c.fields[k].value.items[alt - 1]]))
        else k !in r.fields) &&
      (k in c.fields && k != "GT" && c.fields[k].Some? && Lookup(formats, k) == Some(PerAllele) ==>
        if c.fields[k].value.Tuple? && |c.fields[k].value.items| > alt
        then k in r.fields && r.fields[k] == Some(Tuple([c.fields[k].value.items[0], c.fields[k].value.items[alt]]))
        else k !in r.fields) &&
      (k in c.fields && k != "GT" && c.fields[k].Some? && Lookup(formats, k) !in {Some(PerAlt), Some(PerAllele), Some(PerGenotype)} ==>
        k in r.fields && r.fields[k] == c.fields[k])
  {
  }

  /** The biallelic record for ALT `alt` holding the listed samples. */
  function BiallelicRecord(rec: Record, hdr: Header, alt: nat, samples: seq<string>): Record
    requires 1 <= alt <= |rec.alts|
    requires forall s :: s in samples ==> s in rec.calls
  {
    Record(rec.chrom, rec.pos, rec.id, rec.ref, [rec.alts[alt - 1]], rec.qual, rec.filter,
      RemapInfo(rec.info, hdr.info, alt),
      map s | s in samples :: BiallelicCall(rec.calls[s], hdr.formats, alt))
  }

  /** The record for `alt` keeps the site, has that single ALT and exactly the listed samples. */
  lemma BiallelicRecordFacts(rec: Record, hdr: Header, alt: nat, samples: seq<string>)
    requires 1 <= alt <= |rec.alts|
    requires forall s :: s in samples ==> s in rec.calls
    ensures var r := BiallelicRecord(rec, hdr, alt, samples);
      r.alts == [rec.alts[alt - 1]] &&
      (r.chrom, r.pos, r.id, r.ref, r.qual, r.filter) == (rec.chrom, rec.pos, rec.id, rec.ref, rec.qual, rec.filter) &&
      (forall s :: s in r.calls <==> s in samples) &&
      (forall s :: s in samples ==> r.calls[s] == BiallelicCall(rec.calls[s], hdr.formats, alt))
  {
  }

  // ---------------------------------------------------------------------
  // split_vcf_by_taxonomy / split_vcf_by_sample

  /** The union of the ALT indices the listed samples carry in one record. */
  function GroupAltAlleles(rec: Record, samples: seq<string>): set<int>
    requires forall s :: s in samples ==> s in rec.calls
  {
    if samples == [] then {}
    else GroupAltAlleles(rec, samples[..|samples| - 1]) + AltAlleles(rec.calls[samples[|samples| - 1]].gt)
  }

  lemma GroupAltAllelesBounded(rec: Record, samples: seq<string>)
    requires forall s :: s in samples ==> s in rec.calls
    requires AllelesFit(rec, samples)
    ensures forall a :: a in GroupAltAlleles(rec, samples) ==> 1 <= a <= |rec.alts|
  {
    GroupAltAllelesMembers(rec, samples);
    forall a | a in GroupAltAlleles(rec, samples) ensures 1 <= a <= |rec.alts| {
      var s :| s in samples && a in AltAlleles(rec.calls[s].gt);
      var g := rec.calls[s].gt.value;
      var i :| 0 <= i < |g| && g[i].Some? && g[i].value > 0 && g[i].value == a;
    }
  }

  lemma GroupAltAllelesPositive(rec: Record, samples: seq<string>)
    requires forall s :: s in samples ==> s in rec.calls
    ensures forall a :: a in GroupAltAlleles(rec, samples) ==> 1 <= a
  {
    GroupAltAllelesMembers(rec, samples);
    forall a | a in GroupAltAlleles(rec, samples) ensures 1 <= a {
      var s :| s in samples && a in AltAlleles(rec.calls[s].gt);
      var g := rec.calls[s].gt.value;
      var i :| 0 <= i < |g| && g[i].Some? && g[i].value > 0 && g[i].value == a;
    }
  }

  /** The group fits the record exactly when every index it carries is at most the number of ALTs. */
  lemma GroupFitsIff(rec: Record, samples: seq<string>)
    requires forall s :: s in samples ==> s in rec.calls
    ensures AllelesFit(rec, samples) <==> forall a :: a in GroupAltAlleles(rec, samples) ==> a <= |rec.alts|
  {
    GroupAltAllelesMembers(rec, samples);
    if forall a :: a in GroupAltAlleles(rec, samples) ==> a <= |rec.alts| {
      forall s, a | s in samples && s in rec.calls && a in AltAlleles(rec.calls[s].gt) ensures a <= |rec.alts| {
        assert a in GroupAltAlleles(rec, samples);
      }
    }
    if AllelesFit(rec, samples) {
      forall a | a in GroupAltAlleles(rec, samples) ensures a <= |rec.alts| {
        var s :| s in samples && a in AltAlleles(rec.calls[s].gt);
        assert s in rec.calls;
      }
      assert forall a :: a in GroupAltAlleles(rec, samples) ==> a <= |rec.alts|;
    } else {
      var s, a :| s in samples && s in rec.calls && a in AltAlleles(rec.calls[s].gt) && a > |rec.alts|;
      assert a in GroupAltAlleles(rec, samples);
    }
  }

  /** The loop that collects `alt_indices_in_taxonomy`. */
  method CollectGroupAltAlleles(rec: Record, samples: seq<string>) returns (indices: set<int>)
    requires forall s :: s in samples ==> s in rec.calls
    ensures forall a :: a in indices <==> exists s :: s in samples && a in AltAlleles(rec.calls[s].gt)
    ensures indices == GroupAltAlleles(rec, samples)
  {
    indices := {};
    for i := 0 to |samples|
      invariant indices == GroupAltAlleles(rec, samples[..i])
    {
      assert samples[..i + 1][..i] == samples[..i];
      var carried := GetAltAlleleIndices(rec.calls[samples[i]].gt);
      indices := indices + carried;
    }
    assert samples[..|samples|] == samples;
    GroupAltAllelesMembers(rec, samples);
  }

  lemma {:induction false} GroupAltAllelesMembers(rec: Record, samples: seq<string>)
    requires forall s :: s in samples ==> s in rec.calls
    ensures forall a :: a in GroupAltAlleles(rec, samples) <==> exists s :: s in samples && a in AltAlleles(rec.calls[s].gt)
  {
    if samples != [] {
      var init := samples[..|samples| - 1];
      assert samples == init + [samples[|samples| - 1]];
      GroupAltAllelesMembers(rec, init);
    }
  }

  /** The biallelic records written for one input record, one per index of `alts`, in that order. */
  function RecordsFor(rec: Record, hdr: Header, samples: seq<string>, alts: seq<int>): seq<Record>
    requires forall k :: 0 <= k < |alts| ==> 1 <= alts[k] <= |rec.alts|
    requires forall s :: s in samples ==> s in rec.calls
  {
    if alts == [] then []
    else RecordsFor(rec, hdr, samples, alts[..|alts| - 1]) + [BiallelicRecord(rec, hdr, alts[|alts| - 1], samples)]
  }

  /** The indices carried by a group of samples, as `sorted()` lists them. */
  function CarriedInOrder(rec: Record, hdr: Header, samples: seq<string>): (r: seq<int>)
    requires WellFormed(rec, hdr.samples)
    requires forall s :: s in samples ==> s in hdr.samples
    requires AllelesFit(rec, samples)
    ensures forall k :: 0 <= k < |r| ==> 1 <= r[k] <= |rec.alts|
    ensures StrictlyIncreasing(r)
    ensures forall a :: a in r <==> a in GroupAltAlleles(rec, samples)
  {
    var carried := GroupAltAlleles(rec, samples);
    GroupAltAllelesBounded(rec, samples);
    SortedAscWithin(carried, 1, |rec.alts|);
    SortedAsc(carried)
  }

  /** What one input record contributes to a group's file: one biallelic record per carried ALT index, ascending. */
  function RecordOutput(rec: Record, hdr: Header, samples: seq<string>): seq<Record>
    requires WellFormed(rec, hdr.samples)
    requires forall s :: s in samples ==> s in hdr.samples
    requires AllelesFit(rec, samples)
  {
    var order := CarriedInOrder(rec, hdr, samples);
    assert forall s :: s in samples ==> s in rec.calls;
    RecordsFor(rec, hdr, samples, order)
  }

  lemma {:induction false} RecordsForAt(rec: Record, hdr: Header, samples: seq<string>, alts: seq<int>)
    requires forall k :: 0 <= k < |alts| ==> 1 <= alts[k] <= |rec.alts|
    requires forall s :: s in samples ==> s in rec.calls
    ensures |RecordsFor(rec, hdr, samples, alts)| == |alts|
    ensures forall k :: 0 <= k < |alts| ==> RecordsFor(rec, hdr, samples, alts)[k] == BiallelicRecord(rec, hdr, alts[k], samples)
  {
    if alts != [] {
      RecordsForAt(rec, hdr, samples, alts[..|alts| - 1]);
    }
  }

  /** Everything written to one group's file: per input record, one record per carried ALT, ascending. */
  function GroupOutput(records: seq<Record>, hdr: Header, samples: seq<string>): seq<Record>
    requires forall r :: r in records ==> WellFormed(r, hdr.samples)
    requires forall s :: s in samples ==> s in hdr.samples
    requires Fits(records, samples)
  {
    if records == [] then []
    else
      var rec := records[|records| - 1];
      GroupOutput(records[..|records| - 1], hdr, samples) + RecordOutput(rec, hdr, samples)
  }

  /** `out` is what the group's file holds once the first `n` records are written. */
  predicate WrittenThrough(records: seq<Record>, n: nat, hdr: Header, samples: seq<string>, out: seq<Record>)
  {
    n <= |records| &&
    (forall r :: r in records ==> WellFormed(r, hdr.samples)) &&
    (forall s :: s in samples ==> s in hdr.samples) &&
    Fits(records[..n], samples) &&
    out == GroupOutput(records[..n], hdr, samples)
  }

  lemma GroupOutputStep(records: seq<Record>, hdr: Header, samples: seq<string>, i: nat)
    requires i < |records|
    requires forall r :: r in records ==> WellFormed(r, hdr.samples)
    requires forall s :: s in samples ==> s in hdr.samples
    requires Fits(records[..i + 1], samples)
    ensures GroupOutput(records[..i + 1], hdr, samples) ==
      GroupOutput(records[..i], hdr, samples) + RecordOutput(records[i], hdr, samples)
  {
    assert records[..i + 1][..i] == records[..i];
    assert records[..i + 1][i] == records[i];
    assert AllelesFit(records[..i + 1][i], samples);
  }

  /**
   * For one input record, the group's file receives exactly one biallelic
   * record per distinct ALT index carried by its samples (in ascending order,
   * as `CarriedInOrder` lists them), and no record twice.
   */
  lemma OneRecordPerCarriedAlt(rec: Record, hdr: Header, samples: seq<string>)
    requires WellFormed(rec, hdr.samples)
    requires forall s :: s in samples ==> s in hdr.samples
    requires AllelesFit(rec, samples)
    ensures var out := RecordOutput(rec, hdr, samples);
      var carried := GroupAltAlleles(rec, samples);
      |out| == |carried| &&
      (forall a :: a in carried ==> 1 <= a <= |rec.alts|) &&
      (forall a :: 1 <= a <= |rec.alts| ==>
        (a in carried <==> exists k :: 0 <= k < |out| && out[k] == BiallelicRecord(rec, hdr, a, samples))) &&
      (forall k1, k2 :: 0 <= k1 < k2 < |out| ==> out[k1] != out[k2])
  {
    GroupAltAllelesBounded(rec, samples);
    CarriedRecords(rec, hdr, samples, CarriedInOrder(rec, hdr, samples));
  }

  lemma CarriedRecords(rec: Record, hdr: Header, samples: seq<string>, order: seq<int>)
    requires forall s :: s in samples ==> s in rec.calls
    requires forall k :: 0 <= k < |order| ==> 1 <= order[k] <= |rec.alts|
    requires StrictlyIncreasing(order)
    requires forall a :: a in order <==> a in GroupAltAlleles(rec, samples)
    ensures var out := RecordsFor(rec, hdr, samples, order);
      var carried := GroupAltAlleles(rec, samples);
      |out| == |carried| &&
      (forall a :: 1 <= a <= |rec.alts| ==>
        (a in carried <==> exists k :: 0 <= k < |out| && out[k] == BiallelicRecord(rec, hdr, a, samples))) &&
      (forall k1, k2 :: 0 <= k1 < k2 < |out| ==> out[k1] != out[k2])
  {
    var carried := GroupAltAlleles(rec, samples);
    var out := RecordsFor(rec, hdr, samples, order);
    RecordsForAt(rec, hdr, samples, order);
    DistinctElements(order, carried);
    forall a | a in carried ensures exists k :: 0 <= k < |out| && out[k] == BiallelicRecord(rec, hdr, a, samples) {
      var k :| 0 <= k < |order| && order[k] == a;
      assert out[k] == BiallelicRecord(rec, hdr, a, samples);
    }
    forall a | 1 <= a <= |rec.alts| && exists k :: 0 <= k < |out| && out[k] == BiallelicRecord(rec, hdr, a, samples)
      ensures a in carried
    {
      var k :| 0 <= k < |out| && out[k] == BiallelicRecord(rec, hdr, a, samples);
      assert order[k] in order;
      if order[k] != a {
        DistinctCarriedAltsDiffer(rec, hdr, order[k], a, samples);
      }
    }
    forall k1, k2 | 0 <= k1 < k2 < |out| ensures out[k1] != out[k2] {
      assert order[k1] in order;
      DistinctCarriedAltsDiffer(rec, hdr, order[k1], order[k2], samples);
    }
  }

  /** A strictly increasing listing of a set is as long as the set. */
  lemma {:induction false} DistinctElements(order: seq<int>, s: set<int>)
    requires StrictlyIncreasing(order)
    requires forall a :: a in order <==> a in s
    ensures |order| == |s|
  {
    if order != [] {
      var last := order[|order| - 1];
      var init := order[..|order| - 1];
      assert forall a :: a in init ==> a < last;
      forall a ensures a in init <==> a in s - {last} {
        if a in init {
          var k :| 0 <= k < |init| && init[k] == a;
          assert order[k] == a;
        }
        if a in s - {last} {
          assert a in order;
          var k :| 0 <= k < |order| && order[k] == a;
          assert k != |order| - 1;
          assert init[k] == a;
        }
      }
      DistinctElements(init, s - {last});
    } else {
      assert forall a :: a !in s;
      assert s == {};
    }
  }

  /** Records made for two different indices differ when a sample of the group carries the first. */
  lemma DistinctCarriedAltsDiffer(rec: Record, hdr: Header, a1: nat, a2: nat, samples: seq<string>)
    requires 1 <= a1 <= |rec.alts| && 1 <= a2 <= |rec.alts|
    requires forall s :: s in samples ==> s in rec.calls
    requires a1 in GroupAltAlleles(rec, samples) && a1 != a2
    ensures BiallelicRecord(rec, hdr, a1, samples) != BiallelicRecord(rec, hdr, a2, samples)
  {
    GroupAltAllelesMembers(rec, samples);
    var s :| s in samples && a1 in AltAlleles(rec.calls[s].gt);
    var g := rec.calls[s].gt.value;
    var i :| 0 <= i < |g| && g[i].Some? && g[i].value > 0 && g[i].value == a1;
    var r1 := BiallelicRecord(rec, hdr, a1, samples);
    var r2 := BiallelicRecord(rec, hdr, a2, samples);
    RemappedGenotypeMeaning(g, a1);
    RemappedGenotypeMeaning(g, a2);
    assert r1.calls[s].gt.value[i] == Some(1);
    assert r2.calls[s].gt.value[i] == Some(0);
  }

  /** `prefix + name + '.vcf.gz'`, the prefix used only when truthy. */
  function OutputFileName(prefix: Option<string>, name: string): (r: string)
    ensures EndsWith(r, name + ".vcf.gz")
    ensures prefix.None? || prefix.value == "" ==> r == name + ".vcf.gz"
    ensures prefix.Some? && prefix.value != "" ==> StartsWith(r, prefix.value)
  {
    if prefix.Some? && prefix.value != "" then prefix.value + name + ".vcf.gz" else name + ".vcf.gz"
  }

  /** The (taxonomy, sample) pairs of the VCF samples that have a mapping, in VCF order. */
  function MappedSamples(vcfSamples: seq<string>, sampleToTaxonomy: map<string, string>): seq<(string, string)>
  {
    if vcfSamples == [] then []
    else
      var s := vcfSamples[|vcfSamples| - 1];
      MappedSamples(vcfSamples[..|vcfSamples| - 1], sampleToTaxonomy) +
        (if s in sampleToTaxonomy then [(sampleToTaxonomy[s], s)] else [])
  }

  lemma MappedSamplesStep(vcfSamples: seq<string>, m: map<string, string>, i: nat)
    requires i < |vcfSamples|
    ensures MappedSamples(vcfSamples[..i + 1], m) ==
      MappedSamples(vcfSamples[..i], m) + (if vcfSamples[i] in m then [(m[vcfSamples[i]], vcfSamples[i])] else [])
    ensures vcfSamples[i] !in m ==> MappedSamples(vcfSamples[..i + 1], m) == MappedSamples(vcfSamples[..i], m)
  {
    assert vcfSamples[..i + 1][..i] == vcfSamples[..i];
    assert vcfSamples[..i + 1][i] == vcfSamples[i];
    assert MappedSamples(vcfSamples[..i], m) + [] == MappedSamples(vcfSamples[..i], m);
  }

  /** A taxonomy's group holds exactly its mapped VCF samples. */
  lemma {:induction false} MappedSamplesMembers(vcfSamples: seq<string>, m: map<string, string>, t: string, s: string)
    ensures (t, s) in MappedSamples(vcfSamples, m) <==> s in vcfSamples && s in m && m[s] == t
  {
    if vcfSamples != [] {
      var init := vcfSamples[..|vcfSamples| - 1];
      assert vcfSamples == init + [vcfSamples[|vcfSamples| - 1]];
      MappedSamplesMembers(init, m, t, s);
    }
  }

  /** The output groups for a VCF: each taxonomy of a mapped sample, with its mapped samples in VCF order. */
  function TaxonomyGroups(hdr: Header, mappingRows: seq<seq<string>>): map<string, seq<string>>
  {
    GroupBy(MappedSamples(hdr.samples, LastWins(MappingPairs(mappingRows))))
  }

  /** A VCF without samples has no taxonomy group. */
  lemma NoSamplesNoGroups(hdr: Header, mappingRows: seq<seq<string>>)
    requires hdr.samples == []
    ensures TaxonomyGroups(hdr, mappingRows) == map[]
  {
    assert MappedSamples(hdr.samples, LastWins(MappingPairs(mappingRows))) == [];
  }

  /** Every sample of a taxonomy group is a sample of the VCF. */
  lemma TaxonomyGroupsOfHeader(hdr: Header, mappingRows: seq<seq<string>>)
    ensures GroupsOfHeader(TaxonomyGroups(hdr, mappingRows), hdr)
  {
    forall t, s | t in TaxonomyGroups(hdr, mappingRows) && s in TaxonomyGroups(hdr, mappingRows)[t]
      ensures s in hdr.samples
    {
      TaxonomyGroupMembers(hdr, mappingRows, t, s);
    }
  }

  /** A group lists exactly the VCF samples whose mapping (last TSV row) names its taxonomy. */
  lemma TaxonomyGroupMembers(hdr: Header, mappingRows: seq<seq<string>>, t: string, s: string)
    requires t in TaxonomyGroups(hdr, mappingRows)
    ensures var m := LastWins(MappingPairs(mappingRows));
      s in TaxonomyGroups(hdr, mappingRows)[t] <==> s in hdr.samples && s in m && m[s] == t
  {
    var m := LastWins(MappingPairs(mappingRows));
    ValuesForMembers(MappedSamples(hdr.samples, m), t, s);
    MappedSamplesMembers(hdr.samples, m, t, s);
  }

  /** A taxonomy has an output file exactly when some VCF sample maps to it. */
  lemma TaxonomyGroupKeys(hdr: Header, mappingRows: seq<seq<string>>, t: string)
    ensures var m := LastWins(MappingPairs(mappingRows));
      t in TaxonomyGroups(hdr, mappingRows) <==> exists s :: s in hdr.samples && s in m && m[s] == t
  {
    var m := LastWins(MappingPairs(mappingRows));
    var pairs := MappedSamples(hdr.samples, m);
    if t in TaxonomyGroups(hdr, mappingRows) {
      var i :| 0 <= i < |pairs| && pairs[i].0 == t;
      MappedSamplesMembers(hdr.samples, m, t, pairs[i].1);
    }
    if exists s :: s in hdr.samples && s in m && m[s] == t {
      var s :| s in hdr.samples && s in m && m[s] == t;
      MappedSamplesMembers(hdr.samples, m, t, s);
      var i :| 0 <= i < |pairs| && pairs[i] == (t, s);
      assert t in KeysOf(pairs);
    }
  }

  /**
   * Writes the biallelic records for the ALT indices `order`, in that order,
   * after `out`; an index past the ALTs raises there.
   */
  method WriteBiallelicRecords(out: seq<Record>, rec: Record, hdr: Header, samples: seq<string>, order: seq<int>)
    returns (r: Result<seq<Record>>)
    requires forall k :: 0 <= k < |order| ==> 1 <= order[k]
    requires forall s :: s in samples ==> s in rec.calls
    ensures r.Ok? <==> forall k :: 0 <= k < |order| ==> order[k] <= |rec.alts|
    ensures (forall k :: 0 <= k < |order| ==> order[k] <= |rec.alts|) ==> r == Ok(out + RecordsFor(rec, hdr, samples, order))
    ensures r.Err? ==> r.error == AlleleError(rec)
  {
    var written := out;
    for j := 0 to |order|
      invariant forall k :: 0 <= k < j ==> order[k] <= |rec.alts|
      invariant written == out + RecordsFor(rec, hdr, samples, order[..j])
    {
      if order[j] > |rec.alts| {
        return Err(AlleleError(rec));
      }
      assert order[..j + 1][..j] == order[..j];
      written := written + [BiallelicRecord(rec, hdr, order[j], samples)];
    }
    assert order[..|order|] == order;
    return Ok(written);
  }

  /**
   * Input record `i`, for one group: collect the carried ALT indices, then
   * write one record per index, ascending; an index the record has no ALT
   * for raises.
   */
  method WriteRecordsFor(out: seq<Record>, records: seq<Record>, i: nat, hdr: Header, samples: seq<string>)
    returns (r: Result<seq<Record>>)
    requires i < |records|
    requires WrittenThrough(records, i, hdr, samples, out)
    ensures r.Ok? <==> AllelesFit(records[i], samples)
    ensures AllelesFit(records[i], samples) ==> r.Ok? && WrittenThrough(records, i + 1, hdr, samples, r.value)
    ensures r.Err? ==> r.error == AlleleError(records[i])
  {
    var rec := records[i];
    assert WellFormed(rec, hdr.samples);
    var carried := CollectGroupAltAlleles(rec, samples);
    var order := SortedAsc(carried);
    OrderFitsIff(rec, samples);
    r := WriteBiallelicRecords(out, rec, hdr, samples, order);
    if AllelesFit(rec, samples) {
      FitsStep(records, samples, i);
      assert order == CarriedInOrder(rec, hdr, samples);
      GroupOutputStep(records, hdr, samples, i);
    }
  }

  lemma FitsStep(records: seq<Record>, samples: seq<string>, i: nat)
    requires i < |records|
    requires Fits(records[..i], samples) && AllelesFit(records[i], samples)
    ensures Fits(records[..i + 1], samples)
  {
    var next := records[..i + 1];
    forall k | 0 <= k < |next| ensures AllelesFit(next[k], samples) {
      if k < i {
        assert next[k] == records[..i][k];
      }
    }
  }

  /** The sorted carried indices are positive, and all name an ALT exactly when the group fits. */
  lemma OrderFitsIff(rec: Record, samples: seq<string>)
    requires forall s :: s in samples ==> s in rec.calls
    ensures var order := SortedAsc(GroupAltAlleles(rec, samples));
      (forall k :: 0 <= k < |order| ==> 1 <= order[k]) &&
      ((forall k :: 0 <= k < |order| ==> order[k] <= |rec.alts|) <==> AllelesFit(rec, samples))
  {
    var carried := GroupAltAlleles(rec, samples);
    GroupAltAllelesPositive(rec, samples);
    GroupFitsIff(rec, samples);
    SortedAscBounds(carried, 1, |rec.alts|);
  }

  /** Every sample of every group is a sample of the VCF. */
  predicate GroupsOfHeader(groups: map<string, seq<string>>, hdr: Header)
  {
    forall t, s :: t in groups && s in groups[t] ==> s in hdr.samples
  }

  /**
   * The writes for input record `i`: each group's file receives that
   * record's biallelic records, until a group carries an index the record
   * has no ALT for.
   */
  method WriteRecordToGroups(written: map<string, seq<Record>>, records: seq<Record>, i: nat, hdr: Header, groups: map<string, seq<string>>)
    returns (r: Result<map<string, seq<Record>>>)
    requires i < |records|
    requires written.Keys == groups.Keys
    requires forall t :: t in groups ==> WrittenThrough(records, i, hdr, groups[t], written[t])
    ensures r.Ok? <==> GroupsFit(records[i], groups)
    ensures GroupsFit(records[i], groups) ==> (r.Ok? && r.value.Keys == groups.Keys &&
      forall t :: t in groups ==> WrittenThrough(records, i + 1, hdr, groups[t], r.value[t]))
    ensures r.Err? ==> r.error == AlleleError(records[i])
  {
    var updated := written;
    var remaining := groups.Keys;
    while remaining != {}
      invariant remaining <= groups.Keys == updated.Keys
      invariant forall t :: t in groups && t !in remaining ==> AllelesFit(records[i], groups[t])
      invariant forall t :: t in groups && t in remaining ==> updated[t] == written[t]
      invariant forall t :: t in groups && t !in remaining ==> WrittenThrough(records, i + 1, hdr, groups[t], updated[t])
      decreases remaining
    {
      var t :| t in remaining;
      var out := WriteRecordsFor(written[t], records, i, hdr, groups[t]);
      if out.Err? {
        return Err(out.error);
      }
      updated := updated[t := out.value];
      remaining := remaining - {t};
    }
    return Ok(updated);
  }

  /** The fit of the first `i + 1` records: that of the first `i`, and of record `i`. */
  lemma AllFitStep(records: seq<Record>, groups: map<string, seq<string>>, i: nat)
    requires i < |records|
    ensures AllFit(records[..i + 1], groups) <==> AllFit(records[..i], groups) && GroupsFit(records[i], groups)
  {
    assert records[..i + 1][i] == records[i];
    assert forall k :: 0 <= k < i ==> records[..i + 1][k] == records[..i][k];
  }

  /**
   * The record loop shared by both splits: each group's file receives its
   * biallelic records, record by record.  It raises at the first record
   * where some group carries an ALT index the record does not have.
   */
  method WriteGroups(records: seq<Record>, hdr: Header, groups: map<string, seq<string>>) returns (r: Result<map<string, seq<Record>>>)
    requires forall rec :: rec in records ==> WellFormed(rec, hdr.samples)
    requires GroupsOfHeader(groups, hdr)
    ensures r.Ok? <==> AllFit(records, groups)
    ensures AllFit(records, groups) ==> (r.Ok? && r.value.Keys == groups.Keys &&
      forall t :: t in groups ==> Fits(records, groups[t]) && r.value[t] == GroupOutput(records, hdr, groups[t]))
    ensures r.Err? ==> FirstMisfit(records, groups, r.error)
  {
    var written := map t | t in groups :: [];
    for i := 0 to |records|
      invariant AllFit(records[..i], groups)
      invariant written.Keys == groups.Keys
      invariant forall t :: t in groups ==> WrittenThrough(records, i, hdr, groups[t], written[t])
    {
      var step := WriteRecordToGroups(written, records, i, hdr, groups);
      AllFitStep(records, groups, i);
      if step.Err? {
        assert !AllFit(records, groups) by {
          assert !GroupsFit(records[i], groups);
        }
        assert AllFit(records[..i], groups) && !GroupsFit(records[i], groups) && step.error == AlleleError(records[i]);
        return step;
      }
      written := step.value;
    }
    assert records[..|records|] == records;
    return Ok(written);
  }

  /** `error` is what the first record that some group does not fit raises. */
  predicate FirstMisfit(records: seq<Record>, groups: map<string, seq<string>>, error: string)
  {
    exists k :: 0 <= k < |records| && AllFit(records[..k], groups) && !GroupsFit(records[k], groups) && error == AlleleError(records[k])
  }

  /** The loop that builds `taxonomy_vcf_samples`. */
  method GroupVcfSamples(vcfSamples: seq<string>, sampleToTaxonomy: map<string, string>) returns (groups: map<string, seq<string>>)
    ensures groups == GroupBy(MappedSamples(vcfSamples, sampleToTaxonomy))
  {
    groups := map[];
    for i := 0 to |vcfSamples|
      invariant groups == GroupBy(MappedSamples(vcfSamples[..i], sampleToTaxonomy))
    {
      var sample := vcfSamples[i];
      MappedSamplesStep(vcfSamples, sampleToTaxonomy, i);
      if sample in sampleToTaxonomy {
        var taxonomy := sampleToTaxonomy[sample];
        GroupByAppend(MappedSamples(vcfSamples[..i], sampleToTaxonomy), (taxonomy, sample));
        var samples := if taxonomy in groups then groups[taxonomy] else [];
        groups := groups[taxonomy := samples + [sample]];
      }
    }
    assert vcfSamples[..|vcfSamples|] == vcfSamples;
  }

  /**
   * split_vcf_by_taxonomy: one output file per taxonomy of the mapped VCF
   * samples, named `<output_dir>/<prefix><taxonomy>.vcf.gz`, holding the
   * biallelic records of its samples.  No VCF samples, or none mapped, gives
   * no output.  A record where a mapped sample carries an ALT index the
   * record does not have raises.
   */
  method SplitByTaxonomy(hdr: Header, records: seq<Record>, mappingRows: seq<seq<string>>, outputDir: string, prefix: Option<string>)
    returns (r: Result<(map<string, string>, map<string, seq<Record>>)>)
    requires forall rec :: rec in records ==> WellFormed(rec, hdr.samples)
    ensures hdr.samples == [] ==> r == Ok((map[], map[]))
    ensures GroupsOfHeader(TaxonomyGroups(hdr, mappingRows), hdr)
    ensures r.Ok? <==> AllFit(records, TaxonomyGroups(hdr, mappingRows))
    ensures AllFit(records, TaxonomyGroups(hdr, mappingRows)) ==> (r.Ok? &&
      r.value.0.Keys == r.value.1.Keys == TaxonomyGroups(hdr, mappingRows).Keys &&
      (forall t :: t in r.value.0 ==> r.value.0[t] == PathJoin(outputDir, OutputFileName(prefix, t))) &&
      (forall t :: t in r.value.1 ==>
        Fits(records, TaxonomyGroups(hdr, mappingRows)[t]) && r.value.1[t] == GroupOutput(records, hdr, TaxonomyGroups(hdr, mappingRows)[t])))
    ensures r.Err? ==> FirstMisfit(records, TaxonomyGroups(hdr, mappingRows), r.error)
  {
    var sampleToTaxonomy, taxonomyToSamples := LoadSampleToTaxonomyMapping(mappingRows);
    TaxonomyGroupsOfHeader(hdr, mappingRows);
    if hdr.samples == [] {
      NoSamplesNoGroups(hdr, mappingRows);
      return Ok((map[], map[]));
    }
    var groups := GroupVcfSamples(hdr.samples, sampleToTaxonomy);
    ghost var expected := TaxonomyGroups(hdr, mappingRows);
    assert groups == expected;
    if groups == map[] {
      return Ok((map[], map[]));
    }
    r := WriteGroupFiles(records, hdr, groups, outputDir, prefix);
  }

  /** One output file per group, named after its key, holding the group's records. */
  method WriteGroupFiles(records: seq<Record>, hdr: Header, groups: map<string, seq<string>>, outputDir: string, prefix: Option<string>)
    returns (r: Result<(map<string, string>, map<string, seq<Record>>)>)
    requires forall rec :: rec in records ==> WellFormed(rec, hdr.samples)
    requires GroupsOfHeader(groups, hdr)
    ensures r.Ok? <==> AllFit(records, groups)
    ensures AllFit(records, groups) ==> (r.Ok? &&
      r.value.0.Keys == r.value.1.Keys == groups.Keys &&
      (forall t :: t in r.value.0 ==> r.value.0[t] == PathJoin(outputDir, OutputFileName(prefix, t))) &&
      (forall t :: t in r.value.1 ==> Fits(records, groups[t]) && r.value.1[t] == GroupOutput(records, hdr, groups[t])))
    ensures r.Err? ==> FirstMisfit(records, groups, r.error)
  {
    var outputPaths := map t | t in groups :: PathJoin(outputDir, OutputFileName(prefix, t));
    var written := WriteGroups(records, hdr, groups);
    if written.Err? {
      return Err(written.error);
    }
    return Ok((outputPaths, written.value));
  }

  /** The groups of `split_vcf_by_sample`: each VCF sample alone. */
  function SampleGroups(hdr: Header): (groups: map<string, seq<string>>)
    ensures GroupsOfHeader(groups, hdr)
  {
    var groups := map s | s in hdr.samples :: [s];
    assert GroupsOfHeader(groups, hdr) by {
      forall t, s | t in groups && s in groups[t] ensures s in hdr.samples {
        assert s == t;
      }
    }
    groups
  }

  /**
   * split_vcf_by_sample: one output file per VCF sample, named
   * `<output_dir>/<prefix><sample>.vcf.gz`, holding a biallelic record for
   * each ALT the sample carries.  A record where a sample carries an ALT
   * index the record does not have raises.
   */
  method SplitBySample(hdr: Header, records: seq<Record>, outputDir: string, prefix: Option<string>)
    returns (r: Result<(map<string, string>, map<string, seq<Record>>)>)
    requires forall rec :: rec in records ==> WellFormed(rec, hdr.samples)
    ensures r.Ok? <==> AllFit(records, SampleGroups(hdr))
    ensures AllFit(records, SampleGroups(hdr)) ==> (r.Ok? &&
      r.value.0.Keys == r.value.1.Keys == (set s | s in hdr.samples) &&
      (forall s :: s in r.value.0 ==> r.value.0[s] == PathJoin(outputDir, OutputFileName(prefix, s))) &&
      (forall s :: s in r.value.1 ==> Fits(records, [s]) && r.value.1[s] == GroupOutput(records, hdr, [s])))
    ensures r.Err? ==> FirstMisfit(records, SampleGroups(hdr), r.error)
  {
    if hdr.samples == [] {
      return Ok((map[], map[]));
    }
    r := WriteGroupFiles(records, hdr, SampleGroups(hdr), outputDir, prefix);
  }
}
