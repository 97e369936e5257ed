/**
 * `convert_sample`: characteristics that older submission tools encoded in
 * camelCase are renamed back to the names the BioSamples checklist expects,
 * on a copy of the sample, unless the sample already has the expected name.
 */
module BioSampleConverterUtils {
  import opened Wrappers
  import opened JsonValues

  /** The camelCase characteristic names and the names they are turned back into, as `sample_mapping` lists them. */
  const SampleMapping: seq<(string, string)> := [
    ("uniqueName", "unique name"),
    ("derivedFrom", "derived from"),
    ("scientificName", "scientific name"),
    ("commonName", "common name"),
    ("matingType", "mating_type"),
    ("cellType", "cell_type"),
    ("devStage", "dev_stage"),
    ("tissueLib", "tissue_lib"),
    ("tissueType", "tissue_type"),
    ("BioMaterial", "bio_material"),
    ("cultureCollection", "culture_collection"),
    ("specimenVoucher", "specimen_voucher"),
    ("collectedBy", "collected_by"),
    ("collectionDate", "collection date"),
    ("geographicLocationCountrySea", "geographic location (country and/or sea)"),
    ("geographicLocationRegion", "geographic location (region and locality)"),
    ("identifiedBy", "identified_by"),
    ("isolationSource", "isolation_source"),
    ("latLon", "lat_lon"),
    ("LabHost", "lab_host"),
    ("environmentalSample", "environmental_sample"),
    ("subSpecies", "sub_species"),
    ("subStrain", "sub_strain"),
    ("cellLine", "cell_line")
  ]

  /** `sample_mapping.get(name)`. */
  function Lookup(pairs: seq<(string, string)>, name: string): (r: Option<string>)
    ensures r.Some? ==> exists i :: 0 <= i < |pairs| && pairs[i] == (name, r.value)
    ensures r.None? ==> forall i :: 0 <= i < |pairs| ==> pairs[i].0 != name
  {
    if pairs == [] then None
    else if pairs[0].0 == name then Some(pairs[0].1)
    else Lookup(pairs[1..], name)
  }

  /** No two names share a target, and no target is itself a name of the table. */
  predicate WellFormed(m: seq<(string, string)>)
  {
    (forall i, j :: 0 <= i < j < |m| ==> m[i].1 != m[j].1) &&
    (forall i, j :: 0 <= i < |m| && 0 <= j < |m| ==> m[i].1 != m[j].0)
  }

  lemma DistinctTargets(i: nat, j: nat)
    requires i < j < |SampleMapping|
    ensures SampleMapping[i].1 != SampleMapping[j].1
  {
  }

  lemma TargetIsNoName(i: nat, j: nat)
    requires i < |SampleMapping| && j < |SampleMapping|
    ensures SampleMapping[i].1 != SampleMapping[j].0
  {
  }

  lemma SampleMappingWellFormed()
    ensures WellFormed(SampleMapping)
  {
    forall i, j | 0 <= i < j < |SampleMapping| ensures SampleMapping[i].1 != SampleMapping[j].1 {
      DistinctTargets(i, j);
    }
    forall i, j | 0 <= i < |SampleMapping| && 0 <= j < |SampleMapping| ensures SampleMapping[i].1 != SampleMapping[j].0 {
      TargetIsNoName(i, j);
    }
  }

  /** In a well-formed table, lookups are injective and a target never maps onward. */
  lemma LookupIsInjective(m: seq<(string, string)>)
    requires WellFormed(m)
    ensures forall a, b :: Lookup(m, a).Some? && Lookup(m, b).Some? && a != b ==> Lookup(m, a).value != Lookup(m, b).value
    ensures forall a :: Lookup(m, a).Some? ==> Lookup(m, Lookup(m, a).value).None?
  {
    forall a, b | Lookup(m, a).Some? && Lookup(m, b).Some? && a != b
      ensures Lookup(m, a).value != Lookup(m, b).value
    {
      var i :| 0 <= i < |m| && m[i] == (a, Lookup(m, a).value);
      var j :| 0 <= j < |m| && m[j] == (b, Lookup(m, b).value);
    }
    forall a | Lookup(m, a).Some? ensures Lookup(m, Lookup(m, a).value).None? {
      var t := Lookup(m, a).value;
      var i :| 0 <= i < |m| && m[i] == (a, t);
      assert forall j :: 0 <= j < |m| ==> m[j].0 != t;
    }
  }

  /** The two facts of a well-formed table, for two given names. */
  lemma LookupFacts(m: seq<(string, string)>, a: string, b: string)
    requires WellFormed(m)
    ensures Lookup(m, a).Some? && Lookup(m, b).Some? && a != b ==> Lookup(m, a).value != Lookup(m, b).value
    ensures Lookup(m, a).Some? ==> Lookup(m, Lookup(m, a).value).None?
  {
    LookupIsInjective(m);
  }

  /** A characteristic is renamed when the table maps it and the original sample lacks its target. */
  predicate Renamed(m: seq<(string, string)>, chars: map<string, Json>, k: string)
  {
    k in chars && Lookup(m, k).Some? && Lookup(m, k).value !in chars
  }

  /**
   * The renamed characteristics: every characteristic that is not renamed
   * keeps its name and value, every renamed one is found under its target
   * only, and nothing else appears.
   */
  ghost predicate IsConversion(m: seq<(string, string)>, chars: map<string, Json>, r: map<string, Json>)
  {
    (forall k :: k in chars && !Renamed(m, chars, k) ==> k in r && r[k] == chars[k]) &&
    (forall k :: Renamed(m, chars, k) ==> k !in r && Lookup(m, k).value in r && r[Lookup(m, k).value] == chars[k]) &&
    (forall t :: t in r ==> ((t in chars && !Renamed(m, chars, t)) ||
      exists k :: Renamed(m, chars, k) && Lookup(m, k).value == t))
  }

  /** Every renamed characteristic already handled sits under its target only. */
  ghost predicate MovedSoFar(m: seq<(string, string)>, chars: map<string, Json>, todo: set<string>, r: map<string, Json>)
  {
    forall k :: Renamed(m, chars, k) && k !in todo ==>
      k !in r && Lookup(m, k).value in r && r[Lookup(m, k).value] == chars[k]
  }

  /** Every characteristic not yet handled, or left as it is, keeps its name and value. */
  ghost predicate KeptSoFar(m: seq<(string, string)>, chars: map<string, Json>, todo: set<string>, r: map<string, Json>)
  {
    forall k :: k in chars && (k in todo || !Renamed(m, chars, k)) ==> k in r && r[k] == chars[k]
  }

  /** Nothing appears but kept characteristics and the targets of handled renames. */
  ghost predicate NothingElseSoFar(m: seq<(string, string)>, chars: map<string, Json>, todo: set<string>, r: map<string, Json>)
  {
    forall t :: t in r ==> ((t in chars && (t in todo || !Renamed(m, chars, t))) ||
      exists k :: Renamed(m, chars, k) && k !in todo && Lookup(m, k).value == t)
  }

  /** The state of the loop once the characteristics outside `todo` have been handled. */
  ghost predicate Partial(m: seq<(string, string)>, chars: map<string, Json>, todo: set<string>, r: map<string, Json>)
  {
    MovedSoFar(m, chars, todo, r) && KeptSoFar(m, chars, todo, r) && NothingElseSoFar(m, chars, todo, r)
  }

  /** One more characteristic handled that the table leaves as it is. */
  lemma StepKept(m: seq<(string, string)>, chars: map<string, Json>, todo: set<string>, r: map<string, Json>, k: string)
    requires Partial(m, chars, todo, r) && k in todo && k in chars && !Renamed(m, chars, k)
    ensures Partial(m, chars, todo - {k}, r)
  {
  }

  /** One more characteristic renamed: the facts about renamed characteristics carry over. */
  lemma StepRenamedMoved(m: seq<(string, string)>, chars: map<string, Json>, todo: set<string>, r: map<string, Json>, k: string)
    requires WellFormed(m) && MovedSoFar(m, chars, todo, r) && k in todo && Renamed(m, chars, k)
    ensures MovedSoFar(m, chars, todo - {k}, r[Lookup(m, k).value := chars[k]] - {k})
  {
    var t := Lookup(m, k).value;
    var r' := r[t := chars[k]] - {k};
    forall j | Renamed(m, chars, j) && j !in todo - {k}
      ensures j !in r' && Lookup(m, j).value in r' && r'[Lookup(m, j).value] == chars[j]
    {
      if j != k {
        var tj := Lookup(m, j).value;
        LookupFacts(m, j, k);
        assert tj != t && tj != k && j != t;
      }
    }
  }

  /** One more characteristic renamed: the characteristics kept so far stay. */
  lemma StepRenamedKept(m: seq<(string, string)>, chars: map<string, Json>, todo: set<string>, r: map<string, Json>, k: string)
    requires WellFormed(m) && KeptSoFar(m, chars, todo, r) && k in todo && Renamed(m, chars, k)
    ensures KeptSoFar(m, chars, todo - {k}, r[Lookup(m, k).value := chars[k]] - {k})
  {
  }

  /** One more characteristic renamed: nothing appears that is neither kept nor a target. */
  lemma StepRenamedNothingElse(m: seq<(string, string)>, chars: map<string, Json>, todo: set<string>, r: map<string, Json>, k: string)
    requires NothingElseSoFar(m, chars, todo, r) && k in todo && Renamed(m, chars, k)
    ensures NothingElseSoFar(m, chars, todo - {k}, r[Lookup(m, k).value := chars[k]] - {k})
  {
    var t := Lookup(m, k).value;
    var r' := r[t := chars[k]] - {k};
    forall t' | t' in r'
      ensures (t' in chars && (t' in todo - {k} || !Renamed(m, chars, t'))) ||
        exists j :: Renamed(m, chars, j) && j !in todo - {k} && Lookup(m, j).value == t'
    {
      if t' == t {
        assert Renamed(m, chars, k) && k !in todo - {k} && Lookup(m, k).value == t';
      }
    }
  }

  /**
   * The loop over the original characteristics, for a renaming table `m`;
   * the test for the target reads the original, so the order of the loop
   * does not matter.
   */
  method ConvertCharacteristics(m: seq<(string, string)>, chars: map<string, Json>) returns (r: map<string, Json>)
    requires WellFormed(m)
    ensures IsConversion(m, chars, r)
  {
    r := chars;
    var todo := chars.Keys;
    while todo != {}
      invariant todo <= chars.Keys
      invariant Partial(m, chars, todo, r)
      decreases todo
    {
      var k :| k in todo;
      var target := Lookup(m, k);
      if target.Some? && target.value !in chars {
        StepRenamedMoved(m, chars, todo, r, k);
        StepRenamedKept(m, chars, todo, r, k);
        StepRenamedNothingElse(m, chars, todo, r, k);
        r := r[target.value := chars[k]] - {k};
      } else {
        StepKept(m, chars, todo, r, k);
      }
      todo := todo - {k};
    }
  }

  /** `biosample_data['bioSampleObject']['characteristics']`, each step a dictionary. */
  function CharacteristicsOf(data: map<string, Json>): Result<map<string, Json>>
  {
    if "bioSampleObject" !in data then Err("KeyError")
    else if !data["bioSampleObject"].JObj? then Err("TypeError")
    else
      var obj := data["bioSampleObject"].fields;
      if "characteristics" !in obj then Err("KeyError")
      else if !obj["characteristics"].JObj? then Err("TypeError")
      else Ok(obj["characteristics"].fields)
  }

  /**
   * `convert_sample`: a new document equal to the input except for its
   * renamed characteristics.  Dafny values are immutable, so the input is
   * left as it was, as the deep copy promises.
   */
  method ConvertSample(data: map<string, Json>) returns (r: Result<map<string, Json>>)
    ensures r.Ok? <==> CharacteristicsOf(data).Ok?
    ensures r.Err? ==> r.error == CharacteristicsOf(data).error
    ensures r.Ok? ==>
      (forall k :: k != "bioSampleObject" ==> (k in r.value <==> k in data) && (k in data ==> r.value[k] == data[k])) &&
      "bioSampleObject" in r.value && r.value["bioSampleObject"].JObj? &&
      var obj := r.value["bioSampleObject"].fields;
      (forall k :: k != "characteristics" ==> ((k in obj <==> k in data["bioSampleObject"].fields) &&
        (k in obj ==> obj[k] == data["bioSampleObject"].fields[k]))) &&
      "characteristics" in obj && obj["characteristics"].JObj? &&
      IsConversion(SampleMapping, CharacteristicsOf(data).value, obj["characteristics"].fields)
  {
    var chars := CharacteristicsOf(data);
    if chars.Err? {
      return Err(chars.error);
    }
    SampleMappingWellFormed();
    var converted := ConvertCharacteristics(SampleMapping, chars.value);
    var obj := data["bioSampleObject"].fields;
    r := Ok(data["bioSampleObject" := JObj(obj["characteristics" := JObj(converted)])]);
  }

  /** Renaming keeps the set of characteristic values: nothing is lost and nothing is invented. */
  lemma ConversionKeepsValues(m: seq<(string, string)>, chars: map<string, Json>, r: map<string, Json>)
    requires IsConversion(m, chars, r)
    ensures r.Values == chars.Values
  {
    forall v | v in chars.Values ensures v in r.Values {
      var k :| k in chars && chars[k] == v;
      if Renamed(m, chars, k) {
        assert r[Lookup(m, k).value] == v;
      } else {
        assert r[k] == v;
      }
    }
    forall v | v in r.Values ensures v in chars.Values {
      var t :| t in r && r[t] == v;
      if t in chars && !Renamed(m, chars, t) {
        assert chars[t] == v;
      } else {
        var k :| Renamed(m, chars, k) && Lookup(m, k).value == t;
        assert chars[k] == v;
      }
    }
  }

  /** A characteristic already under its checklist name blocks the rename: both names keep their values. */
  lemma ExistingTargetBlocksRename(m: seq<(string, string)>, chars: map<string, Json>, r: map<string, Json>, k: string)
    requires WellFormed(m) && IsConversion(m, chars, r)
    requires k in chars && Lookup(m, k).Some? && Lookup(m, k).value in chars
    ensures k in r && r[k] == chars[k]
    ensures Lookup(m, k).value in r && r[Lookup(m, k).value] == chars[Lookup(m, k).value]
  {
    LookupIsInjective(m);
  }

  /** A converted sample has nothing left to rename: converting it again changes nothing. */
  lemma ConversionIsIdempotent(m: seq<(string, string)>, chars: map<string, Json>, r: map<string, Json>, k: string)
    requires WellFormed(m) && IsConversion(m, chars, r)
    ensures !Renamed(m, r, k)
  {
    LookupIsInjective(m);
    if k in r && Lookup(m, k).Some? {
      assert k in chars && !Renamed(m, chars, k);
      var t := Lookup(m, k).value;
      assert t in chars && !Renamed(m, chars, t);
    }
  }
}
