/**
 * The BioSamples submitter: which action a sample calls for (create,
 * overwrite, curate, derive), how a sample is merged into the one BioSamples
 * holds, the curation object that diffs two samples' characteristics, and the
 * key mapping that fills a BioSamples document from spreadsheet values.
 * A sample is a JSON object; the HTTP calls to BioSamples are not modelled,
 * and the sample BioSamples holds for an accession is an input.
 */
module BioSamplesSubmitters {
  import opened Wrappers
  import opened Text
  import opened JsonValues
  import opened SubmissionConfig
  import opened SampleKeys

  /** A BioSample document, as the JSON object the service exchanges. */
  type Sample = map<string, Json>

  // ---------------------------------------------------------------------
  // The submitter and the actions it can take

  const ValidActions: seq<string> := ["create", "overwrite", "override", "curate", "derive"]

  /** The only characteristics an NCBI sample may have overridden. */
  const OverridableCharacteristics: seq<string> :=
    ["collection_date", "geographic location (country and/or sea)", "last_updated_by"]

  /** A BioSamples account: the attributes it stamps on the samples it owns (domain or Webin account). */
  datatype Communicator = Communicator(attributes: map<string, Json>)

  datatype Submitter = Submitter(communicators: seq<Communicator>, submitType: seq<string>, allowRemoval: bool)

  /** What construction guarantees: an account to submit with and only known actions. */
  predicate Valid(sub: Submitter)
  {
    |sub.communicators| > 0 && forall a :: a in sub.submitType ==> a in ValidActions
  }

  /** The constructor's two assertions; a failed one raises AssertionError. */
  function NewSubmitter(communicators: seq<Communicator>, submitType: seq<string>, allowRemoval: bool): (r: Result<Submitter>)
    ensures r.Ok? <==> Valid(Submitter(communicators, submitType, allowRemoval))
    ensures r.Ok? ==> r.value.communicators == communicators && r.value.submitType == submitType
    ensures r.Err? ==> r.error == "AssertionError"
  {
    if |communicators| == 0 then Err("AssertionError")
    else if exists a :: a in submitType && a !in ValidActions then Err("AssertionError")
    else Ok(Submitter(communicators, submitType, allowRemoval))
  }

  predicate CanCreate(sub: Submitter, sample: Sample)
  {
    "create" in sub.submitType && "accession" !in sample
  }

  predicate CanCurate(sub: Submitter, sample: Sample)
  {
    "curate" in sub.submitType && "accession" in sample
  }

  predicate CanDerive(sub: Submitter, sample: Sample)
  {
    "derive" in sub.submitType && "accession" in sample
  }

  /** An account owns a stored sample when every attribute it stamps is among the sample's items. */
  predicate Owns(c: Communicator, stored: Sample)
  {
    forall k :: k in c.attributes ==> k in stored && stored[k] == c.attributes[k]
  }

  /** The first account, in the submitter's order, that owns the stored sample. */
  function FirstOwner(cs: seq<Communicator>, stored: Sample): (r: Option<nat>)
    ensures r.Some? ==> (r.value < |cs| && Owns(cs[r.value], stored) &&
      forall j :: 0 <= j < r.value ==> !Owns(cs[j], stored))
    ensures r.None? ==> forall j :: 0 <= j < |cs| ==> !Owns(cs[j], stored)
  {
    if cs == [] then None
    else if Owns(cs[0], stored) then Some(0)
    else match FirstOwner(cs[1..], stored)
      case None => None
      case Some(i) => Some(i + 1)
  }

  /**
   * The account to write a sample with: the first one under 'override',
   * otherwise the first owner of the sample as BioSamples stores it.
   */
  function CommunicatorFor(sub: Submitter, stored: Sample): Option<Communicator>
    requires Valid(sub)
  {
    if "override" in sub.submitType then Some(sub.communicators[0])
    else match FirstOwner(sub.communicators, stored)
      case None => None
      case Some(i) => Some(sub.communicators[i])
  }

  /** Only NCBI samples (accession starting with SAMN) may be overridden. */
  predicate AllowedToOverride(sample: Sample)
  {
    "accession" in sample && sample["accession"].JStr? && StartsWith(sample["accession"].s, "SAMN")
  }

  /** `stored` is the sample BioSamples holds under the sample's accession. */
  predicate CanOverwrite(sub: Submitter, sample: Sample, stored: Sample)
    requires Valid(sub)
  {
    "accession" in sample &&
    (("overwrite" in sub.submitType && CommunicatorFor(sub, stored).Some?) ||
     ("override" in sub.submitType && AllowedToOverride(sample)))
  }

  /** The action `submit_biosample_to_bsd` takes, tried in this order. */
  function SubmitAction(sub: Submitter, sample: Sample, stored: Sample): string
    requires Valid(sub)
  {
    if CanCreate(sub, sample) then "create"
    else if CanOverwrite(sub, sample, stored) then "overwrite"
    else if CanCurate(sub, sample) then "curate"
    else if CanDerive(sub, sample) then "derive"
    else "None"
  }

  /**
   * A sample without an accession is only ever created, and only when
   * 'create' is allowed; a sample with one is never created, and every action
   * taken is one the submitter was given.
   */
  lemma SubmitActionRules(sub: Submitter, sample: Sample, stored: Sample)
    requires Valid(sub)
    ensures var act := SubmitAction(sub, sample, stored);
      ("accession" !in sample ==> act == (if "create" in sub.submitType then "create" else "None")) &&
      ("accession" in sample ==> act != "create") &&
      (act != "None" ==> (act in sub.submitType ||
        (act == "overwrite" && "override" in sub.submitType)))
  {
  }

  /** An overwrite is possible for an NCBI sample under 'override', whoever owns it. */
  lemma OverrideNeedsNcbiSample(sub: Submitter, sample: Sample, stored: Sample)
    requires Valid(sub)
    requires "overwrite" !in sub.submitType
    ensures CanOverwrite(sub, sample, stored) <==> "override" in sub.submitType && AllowedToOverride(sample)
  {
  }

  // ---------------------------------------------------------------------
  // Merging arrays: `_update_from_array`

  /** Elements of `elems` appended one at a time, each only if not already there, unless `overwrite`. */
  function AppendMissing(base: seq<Json>, elems: seq<Json>, overwrite: bool): seq<Json>
  {
    if elems == [] then base
    else
      var acc := AppendMissing(base, elems[..|elems| - 1], overwrite);
      var x := elems[|elems| - 1];
      if x !in acc || overwrite then acc + [x] else acc
  }

  predicate Distinct<T(==)>(s: seq<T>)
  {
    forall i, j :: 0 <= i < j < |s| ==> s[i] != s[j]
  }

  /** The existing elements stay first; afterwards every element of `elems` is there, and nothing else is added. */
  lemma {:induction false} AppendMissingFacts(base: seq<Json>, elems: seq<Json>, overwrite: bool)
    ensures var r := AppendMissing(base, elems, overwrite);
      |base| <= |r| && r[..|base|] == base &&
      (forall x :: x in elems ==> x in r) &&
      (forall y :: y in r ==> y in base || y in elems)
    decreases |elems|
  {
    if elems != [] {
      var init := elems[..|elems| - 1];
      AppendMissingFacts(base, init, overwrite);
      assert forall x :: x in init ==> x in elems;
      assert forall x :: x in elems ==> x in init || x == elems[|elems| - 1];
    }
  }

  /** With `allow_overwrite` every element is appended, duplicates included. */
  lemma {:induction false} AppendMissingOverwrite(base: seq<Json>, elems: seq<Json>)
    ensures AppendMissing(base, elems, true) == base + elems
    decreases |elems|
  {
    if elems != [] {
      var init := elems[..|elems| - 1];
      AppendMissingOverwrite(base, init);
      assert base + elems == (base + init) + [elems[|elems| - 1]];
    }
  }

  /** Without `allow_overwrite` no element occurs twice unless it already did. */
  lemma {:induction false} AppendMissingKeepsDistinct(base: seq<Json>, elems: seq<Json>)
    requires Distinct(base)
    ensures Distinct(AppendMissing(base, elems, false))
    decreases |elems|
  {
    if elems != [] {
      AppendMissingKeepsDistinct(base, elems[..|elems| - 1]);
    }
  }

  /**
   * `_update_from_array(key, source, dest)`: a missing destination list is
   * created; then each source element is appended as `AppendMissing` says.
   * A source value that is not a list, or a destination value that is not a
   * list receiving an element, raises.
   */
  function ArrayUpdated(key: string, source: Sample, dest: Sample, overwrite: bool): (r: Result<Sample>)
    ensures key !in source ==> r == Ok(dest)
    ensures r.Ok? ==> forall k :: k != key ==> (k in r.value <==> k in dest) && (k in dest ==> r.value[k] == dest[k])
  {
    if key !in source then Ok(dest)
    else if !source[key].JList? then Err("TypeError")
    else
      var base := if key in dest then dest[key] else JList([]);
      if !base.JList? then
        if source[key].items == [] then Ok(dest) else Err("AttributeError")
      else Ok(dest[key := JList(AppendMissing(base.items, source[key].items, overwrite))])
  }

  method UpdateFromArray(key: string, source: Sample, dest: Sample, overwrite: bool) returns (r: Result<Sample>)
    ensures r == ArrayUpdated(key, source, dest, overwrite)
  {
    if key !in source {
      return Ok(dest);
    }
    if !source[key].JList? {
      return Err("TypeError");
    }
    var elems := source[key].items;
    var list := if key in dest then dest[key] else JList([]);
    if !list.JList? {
      if elems == [] {
        return Ok(dest);
      }
      return Err("AttributeError");
    }
    var items := list.items;
    for i := 0 to |elems|
      invariant items == AppendMissing(list.items, elems[..i], overwrite)
    {
      assert elems[..i + 1][..i] == elems[..i];
      if elems[i] !in items || overwrite {
        items := items + [elems[i]];
      }
    }
    assert elems[..|elems|] == elems;
    r := Ok(dest[key := JList(items)]);
  }

  // ---------------------------------------------------------------------
  // Merging samples: `_update_samples_with`

  /** `sample['characteristics']`, which must be a dictionary. */
  function Characteristics(sample: Sample): Result<map<string, Json>>
  {
    if "characteristics" !in sample then Err("KeyError")
    else if !sample["characteristics"].JObj? then Err("TypeError")
    else Ok(sample["characteristics"].fields)
  }

  /** A characteristic of a sample, when the sample has it. */
  function CharacteristicOf(sample: Sample, name: string): Option<Json>
  {
    match Characteristics(sample)
    case Ok(cs) => if name in cs then Some(cs[name]) else None
    case Err(_) => None
  }

  /** `for a in source: if a not in dest or overwrite: dest[a] = source[a]`. */
  function MergeCharacteristics(source: map<string, Json>, dest: map<string, Json>, overwrite: bool): map<string, Json>
  {
    if overwrite then dest + source else source + dest
  }

  /**
   * The source actually merged: under 'override' only the overridable
   * characteristics, and nothing else of the sample; otherwise the whole
   * sample.  Also gives the characteristics to merge.
   */
  function EffectiveSource(sub: Submitter, source: Sample): Result<(Sample, map<string, Json>)>
  {
    match Characteristics(source)
    case Err(e) => Err(e)
    case Ok(cs) =>
      if "override" in sub.submitType then
        var kept := map a | a in cs && a in OverridableCharacteristics :: cs[a];
        Ok((map["characteristics" := JObj(kept)], kept))
      else Ok((source, cs))
  }

  /** The characteristics step; the destination's characteristics are only read when there is something to merge. */
  function CharacteristicsMerged(chars: map<string, Json>, dest: Sample, overwrite: bool): Result<Sample>
  {
    if chars == map[] then Ok(dest)
    else match Characteristics(dest)
      case Err(e) => Err(e)
      case Ok(dc) => Ok(dest["characteristics" := JObj(MergeCharacteristics(chars, dc, overwrite))])
  }

  /** `_update_from_array` for each key in turn; a key outside `keys`, or absent from the source, is left alone. */
  function ArraysUpdated(keys: seq<string>, source: Sample, dest: Sample, overwrite: bool): (r: Result<Sample>)
    ensures r.Ok? ==> forall k :: (k !in keys || k !in source) ==>
      (k in r.value <==> k in dest) && (k in dest ==> r.value[k] == dest[k])
    decreases |keys|
  {
    if keys == [] then Ok(dest)
    else match ArrayUpdated(keys[0], source, dest, overwrite)
      case Err(e) => Err(e)
      case Ok(d) => ArraysUpdated(keys[1..], source, d, overwrite)
  }

  /** The identifying fields, each copied only into a sample that lacks it. */
  function ScalarsCopied(keys: seq<string>, source: Sample, dest: Sample): (r: Sample)
    ensures forall k :: k in dest ==> k in r && r[k] == dest[k]
    ensures forall k :: k !in dest ==> (k in r <==> k in keys && k in source) && (k in r ==> r[k] == source[k])
    decreases |keys|
  {
    if keys == [] then dest
    else
      var k := keys[0];
      ScalarsCopied(keys[1..], source, if k in source && k !in dest then dest[k := source[k]] else dest)
  }

  /**
   * The sample `_update_samples_with(source, dest)` leaves in `dest`, with
   * the list fields and the identifying fields it visits as parameters.
   */
  function MergedWith(arrayKeys: seq<string>, scalarKeys: seq<string>, sub: Submitter, source: Sample, dest: Sample,
                      overwrite: bool): Result<Sample>
  {
    match EffectiveSource(sub, source)
    case Err(e) => Err(e)
    case Ok(eff) =>
      match CharacteristicsMerged(eff.1, dest, overwrite)
      case Err(e) => Err(e)
      case Ok(d1) =>
        match ArraysUpdated(arrayKeys, eff.0, d1, overwrite)
        case Err(e) => Err(e)
        case Ok(d2) => Ok(ScalarsCopied(scalarKeys, eff.0, d2))
  }

  /** The sample `_update_samples_with(source, dest)` leaves in `dest`. */
  function Merged(sub: Submitter, source: Sample, dest: Sample, overwrite: bool): Result<Sample>
  {
    MergedWith(ArrayKeys, ScalarKeys, sub, source, dest, overwrite)
  }

  method UpdateSamplesWith(sub: Submitter, source: Sample, dest: Sample, overwrite: bool) returns (r: Result<Sample>)
    ensures r == Merged(sub, source, dest, overwrite)
  {
    var eff := SelectSource(sub, source);
    if eff.Err? {
      return Err(eff.error);
    }
    var (src, chars) := eff.value;
    var d1 := MergeCharacteristicsInto(chars, dest, overwrite);
    if d1.Err? {
      return Err(d1.error);
    }
    var d2 := UpdateArrays(ArrayKeys, src, d1.value, overwrite);
    if d2.Err? {
      return Err(d2.error);
    }
    var d3 := CopyScalars(ScalarKeys, src, d2.value);
    r := Ok(d3);
  }

  /** The first part of `_update_samples_with`: under 'override', a fresh source holding only the overridable characteristics. */
  method SelectSource(sub: Submitter, source: Sample) returns (r: Result<(Sample, map<string, Json>)>)
    ensures r == EffectiveSource(sub, source)
  {
    if "characteristics" !in source {
      return Err("KeyError");
    }
    if !source["characteristics"].JObj? {
      return Err("TypeError");
    }
    var chars := source["characteristics"].fields;
    if "override" !in sub.submitType {
      return Ok((source, chars));
    }
    var kept: map<string, Json> := map[];
    for i := 0 to |OverridableCharacteristics|
      invariant kept == map a | a in chars && a in OverridableCharacteristics[..i] :: chars[a]
    {
      var a := OverridableCharacteristics[i];
      assert forall b :: b in OverridableCharacteristics[..i + 1] <==> b in OverridableCharacteristics[..i] || b == a;
      if a in chars {
        kept := kept[a := chars[a]];
      }
    }
    assert OverridableCharacteristics[..|OverridableCharacteristics|] == OverridableCharacteristics;
    r := Ok((map["characteristics" := JObj(kept)], kept));
  }

  method MergeCharacteristicsInto(chars: map<string, Json>, dest: Sample, overwrite: bool) returns (r: Result<Sample>)
    ensures r == CharacteristicsMerged(chars, dest, overwrite)
  {
    if chars == map[] {
      return Ok(dest);
    }
    var dc := Characteristics(dest);
    if dc.Err? {
      return Err(dc.error);
    }
    var cs := CharacteristicsInto(chars, dc.value, overwrite);
    r := Ok(dest["characteristics" := JObj(cs)]);
  }

  /** `_update_from_array` for externalReferences, relationships, contact and organization. */
  method UpdateArrays(keys: seq<string>, src: Sample, dest: Sample, overwrite: bool) returns (r: Result<Sample>)
    ensures r == ArraysUpdated(keys, src, dest, overwrite)
  {
    var d := dest;
    for i := 0 to |keys|
      invariant ArraysUpdated(keys, src, dest, overwrite) == ArraysUpdated(keys[i..], src, d, overwrite)
    {
      var step := UpdateFromArray(keys[i], src, d, overwrite);
      assert keys[i..][1..] == keys[i + 1..];
      if step.Err? {
        return Err(step.error);
      }
      d := step.value;
    }
    assert keys[|keys|..] == [];
    r := Ok(d);
  }

  /** The last loop of `_update_samples_with`: taxId, accession, name and release, each copied only when missing. */
  method CopyScalars(keys: seq<string>, src: Sample, dest: Sample) returns (d: Sample)
    ensures d == ScalarsCopied(keys, src, dest)
  {
    d := dest;
    for i := 0 to |keys|
      invariant ScalarsCopied(keys, src, dest) == ScalarsCopied(keys[i..], src, d)
    {
      var k := keys[i];
      assert keys[i..][1..] == keys[i + 1..];
      if k in src && k !in d {
        d := d[k := src[k]];
      }
    }
    assert keys[|keys|..] == [];
  }

  /** The characteristics loop, one source characteristic at a time in whatever order the dictionary gives. */
  method CharacteristicsInto(chars: map<string, Json>, dc: map<string, Json>, overwrite: bool) returns (cs: map<string, Json>)
    ensures cs == MergeCharacteristics(chars, dc, overwrite)
  {
    cs := dc;
    var todo := chars.Keys;
    while todo != {}
      invariant todo <= chars.Keys
      invariant cs == MergeCharacteristics(chars - todo, dc, overwrite)
      decreases todo
    {
      var a :| a in todo;
      var done := chars - todo;
      var next := chars - (todo - {a});
      assert next == done[a := chars[a]];
      if a !in cs || overwrite {
        cs := cs[a := chars[a]];
      }
      if overwrite {
        assert dc + next == (dc + done)[a := chars[a]];
      } else if a in dc {
        assert next + dc == done + dc;
      } else {
        assert next + dc == (done + dc)[a := chars[a]];
      }
      todo := todo - {a};
    }
    assert chars - {} == chars;
  }

  /** The steps of a successful merge, each succeeding in turn. */
  lemma MergedSteps(arrayKeys: seq<string>, scalarKeys: seq<string>, sub: Submitter, source: Sample, dest: Sample,
                    overwrite: bool)
    requires MergedWith(arrayKeys, scalarKeys, sub, source, dest, overwrite).Ok?
    ensures EffectiveSource(sub, source).Ok?
    ensures var eff := EffectiveSource(sub, source).value;
      CharacteristicsMerged(eff.1, dest, overwrite).Ok? &&
      var d1 := CharacteristicsMerged(eff.1, dest, overwrite).value;
      ArraysUpdated(arrayKeys, eff.0, d1, overwrite).Ok? &&
      MergedWith(arrayKeys, scalarKeys, sub, source, dest, overwrite).value ==
        ScalarsCopied(scalarKeys, eff.0, ArraysUpdated(arrayKeys, eff.0, d1, overwrite).value)
  {
  }

  /** Under 'override' a merge changes no field of the sample but its characteristics. */
  lemma OverrideKeepsOtherFields(arrayKeys: seq<string>, scalarKeys: seq<string>, sub: Submitter, source: Sample,
                                 dest: Sample, overwrite: bool)
    requires "override" in sub.submitType
    requires MergedWith(arrayKeys, scalarKeys, sub, source, dest, overwrite).Ok?
    ensures var r := MergedWith(arrayKeys, scalarKeys, sub, source, dest, overwrite).value;
      forall k :: k != "characteristics" ==> (k in r <==> k in dest) && (k in dest ==> r[k] == dest[k])
  {
    MergedSteps(arrayKeys, scalarKeys, sub, source, dest, overwrite);
    var eff := EffectiveSource(sub, source).value;
    var d1 := CharacteristicsMerged(eff.1, dest, overwrite).value;
    var d2 := ArraysUpdated(arrayKeys, eff.0, d1, overwrite).value;
    assert forall k :: k != "characteristics" ==> k !in eff.0;
  }

  /** Under 'override' every characteristic outside the overridable three is what it was. */
  lemma OverrideKeepsOtherCharacteristics(arrayKeys: seq<string>, scalarKeys: seq<string>, sub: Submitter,
                                          source: Sample, dest: Sample, overwrite: bool, name: string)
    requires KeysApart(arrayKeys, scalarKeys)
    requires "override" in sub.submitType
    requires MergedWith(arrayKeys, scalarKeys, sub, source, dest, overwrite).Ok?
    requires name !in OverridableCharacteristics
    ensures CharacteristicOf(MergedWith(arrayKeys, scalarKeys, sub, source, dest, overwrite).value, name) ==
      CharacteristicOf(dest, name)
  {
    MergedSteps(arrayKeys, scalarKeys, sub, source, dest, overwrite);
    var eff := EffectiveSource(sub, source).value;
    var d1 := CharacteristicsMerged(eff.1, dest, overwrite).value;
    assert name !in eff.1;
    LaterStepsKeepCharacteristics(arrayKeys, scalarKeys, eff.0, d1, overwrite);
    CharacteristicsMergedValue(eff.1, dest, overwrite, name);
  }

  /**
   * Without 'override', a characteristic from the source is added where the
   * destination lacks it and replaces the destination's only with
   * `allow_overwrite`; the others are untouched.
   */
  lemma MergedCharacteristic(arrayKeys: seq<string>, scalarKeys: seq<string>, sub: Submitter, source: Sample,
                             dest: Sample, overwrite: bool, name: string)
    requires KeysApart(arrayKeys, scalarKeys)
    requires "override" !in sub.submitType
    requires MergedWith(arrayKeys, scalarKeys, sub, source, dest, overwrite).Ok?
    ensures var r := MergedWith(arrayKeys, scalarKeys, sub, source, dest, overwrite).value;
      var sc := Characteristics(source).value;
      CharacteristicOf(r, name) ==
        if name in sc && (overwrite || CharacteristicOf(dest, name).None?) then Some(sc[name])
        else CharacteristicOf(dest, name)
  {
    MergedSteps(arrayKeys, scalarKeys, sub, source, dest, overwrite);
    var sc := Characteristics(source).value;
    assert EffectiveSource(sub, source).value == (source, sc);
    var d1 := CharacteristicsMerged(sc, dest, overwrite).value;
    LaterStepsKeepCharacteristics(arrayKeys, scalarKeys, source, d1, overwrite);
    CharacteristicsMergedValue(sc, dest, overwrite, name);
  }

  lemma CharacteristicsMergedValue(sc: map<string, Json>, dest: Sample, overwrite: bool, name: string)
    requires CharacteristicsMerged(sc, dest, overwrite).Ok?
    ensures CharacteristicOf(CharacteristicsMerged(sc, dest, overwrite).value, name) ==
      if name in sc && (overwrite || CharacteristicOf(dest, name).None?) then Some(sc[name])
      else CharacteristicOf(dest, name)
  {
  }

  /** The array and identifier steps leave the characteristics alone. */
  lemma LaterStepsKeepCharacteristics(arrayKeys: seq<string>, scalarKeys: seq<string>, src: Sample, d1: Sample, overwrite: bool)
    requires KeysApart(arrayKeys, scalarKeys)
    requires ArraysUpdated(arrayKeys, src, d1, overwrite).Ok?
    ensures Characteristics(ScalarsCopied(scalarKeys, src, ArraysUpdated(arrayKeys, src, d1, overwrite).value)) == Characteristics(d1)
  {
    var d2 := ArraysUpdated(arrayKeys, src, d1, overwrite).value;
    var d3 := ScalarsCopied(scalarKeys, src, d2);
    assert ("characteristics" in d3 <==> "characteristics" in d1);
    if "characteristics" in d1 {
      assert d3["characteristics"] == d2["characteristics"] == d1["characteristics"];
    }
  }

  /** taxId, accession, name and release are copied from the source only into a sample that lacks them. */
  lemma ScalarsFillOnlyGaps(arrayKeys: seq<string>, scalarKeys: seq<string>, sub: Submitter, source: Sample,
                            dest: Sample, overwrite: bool, k: string)
    requires KeysApart(arrayKeys, scalarKeys)
    requires k in scalarKeys
    requires MergedWith(arrayKeys, scalarKeys, sub, source, dest, overwrite).Ok?
    ensures var r := MergedWith(arrayKeys, scalarKeys, sub, source, dest, overwrite).value;
      (k in dest ==> k in r && r[k] == dest[k]) &&
      (k !in dest && k in source && "override" !in sub.submitType ==> k in r && r[k] == source[k])
  {
    MergedSteps(arrayKeys, scalarKeys, sub, source, dest, overwrite);
    var eff := EffectiveSource(sub, source).value;
    var d1 := CharacteristicsMerged(eff.1, dest, overwrite).value;
    var d2 := ArraysUpdated(arrayKeys, eff.0, d1, overwrite).value;
  }

  // ---------------------------------------------------------------------
  // The curation object

  /** One entry of `attributesPre` or `attributesPost`. */
  datatype Attribute = Attribute(kind: string, value: Json, tag: Option<Json>)

  /**
   * The first value of a characteristic as a curation attribute: its text
   * (`None` when absent) and its tag when it has one.  Indexing an empty
   * list raises IndexError, a dictionary KeyError, and a first item that is
   * not a dictionary has no `get`.
   */
  function AttributeOf(kind: string, values: Json): Result<Attribute>
  {
    match values
    case JList(items) =>
      if items == [] then Err("IndexError")
      else if !items[0].JObj? then Err("AttributeError")
      else
        var first := items[0].fields;
        Ok(Attribute(kind, if "text" in first then first["text"] else JNull,
                     if "tag" in first then Some(first["tag"]) else None))
    case JObj(_) => Err("KeyError")
    case JStr(s) => if s == "" then Err("IndexError") else Err("AttributeError")
    case _ => Err("TypeError")
  }

  /** A characteristic the curation removes or replaces, so that its current value goes to `attributesPre`. */
  predicate InPre(allowRemoval: bool, future: map<string, Json>, current: map<string, Json>, a: string)
  {
    a in current && ((allowRemoval && a !in future) || (a in future && future[a] != current[a]))
  }

  /** A characteristic the curation adds or replaces, so that its new value goes to `attributesPost`. */
  predicate InPost(future: map<string, Json>, current: map<string, Json>, a: string)
  {
    a in future && (a !in current || future[a] != current[a])
  }

  /** A characteristic whose attribute cannot be built. */
  predicate Unreadable(allowRemoval: bool, future: map<string, Json>, current: map<string, Json>, a: string)
  {
    (InPre(allowRemoval, future, current, a) && AttributeOf(a, current[a]).Err?) ||
    (InPost(future, current, a) && AttributeOf(a, future[a]).Err?)
  }

  function Kinds(attrs: seq<Attribute>): seq<string>
  {
    seq(|attrs|, i requires 0 <= i < |attrs| => attrs[i].kind)
  }

  /** `attrs` holds one attribute per characteristic selected by `selected`, built from `values`. */
  ghost predicate Lists(attrs: seq<Attribute>, selected: string -> bool, values: map<string, Json>)
  {
    Distinct(Kinds(attrs)) &&
    (forall a :: a in Kinds(attrs) <==> selected(a)) &&
    (forall i :: 0 <= i < |attrs| ==> attrs[i].kind in values && AttributeOf(attrs[i].kind, values[attrs[i].kind]) == Ok(attrs[i]))
  }

  /** The attribute lists of a curation between two sets of characteristics, in any order. */
  ghost predicate IsDiff(allowRemoval: bool, future: map<string, Json>, current: map<string, Json>,
                         pre: seq<Attribute>, post: seq<Attribute>)
  {
    Lists(pre, a => InPre(allowRemoval, future, current, a), current) &&
    Lists(post, a => InPost(future, current, a), future)
  }

  /** `attrs` lists, in some order, the characteristics outside `todo` that `selected` picks, each built from `values`. */
  ghost predicate ListedSoFar(attrs: seq<Attribute>, selected: string -> bool, values: map<string, Json>, todo: set<string>)
  {
    Distinct(Kinds(attrs)) &&
    (forall a :: a in Kinds(attrs) <==> a !in todo && selected(a)) &&
    (forall i :: 0 <= i < |attrs| ==> attrs[i].kind in values && AttributeOf(attrs[i].kind, values[attrs[i].kind]) == Ok(attrs[i]))
  }

  /** One characteristic of the loop, for one of the two lists: it is appended when wanted, and may fail to be read. */
  method CollectAttribute(attrs: seq<Attribute>, a: string, want: bool, values: map<string, Json>,
                          ghost selected: string -> bool, ghost todo: set<string>)
    returns (r: Result<seq<Attribute>>)
    requires a in todo && want == selected(a) && (want ==> a in values)
    requires ListedSoFar(attrs, selected, values, todo)
    ensures r.Err? <==> want && AttributeOf(a, values[a]).Err?
    ensures r.Err? ==> r.error == AttributeOf(a, values[a]).error
    ensures r.Ok? ==> ListedSoFar(r.value, selected, values, todo - {a})
  {
    if !want {
      return Ok(attrs);
    }
    var attr := AttributeOf(a, values[a]);
    if attr.Err? {
      return Err(attr.error);
    }
    assert Kinds(attrs + [attr.value]) == Kinds(attrs) + [a];
    r := Ok(attrs + [attr.value]);
  }

  /**
   * The loop over the union of both samples' characteristics: an addition
   * goes to `attributesPost`, a removal (only with `allow_removal`) to
   * `attributesPre`, a changed value to both.  Set iteration order is left
   * open, so the lists are specified up to order.
   */
  method DiffAttributes(allowRemoval: bool, future: map<string, Json>, current: map<string, Json>)
    returns (r: Result<(seq<Attribute>, seq<Attribute>)>)
    ensures r.Err? <==> exists a :: Unreadable(allowRemoval, future, current, a)
    ensures r.Ok? ==> IsDiff(allowRemoval, future, current, r.value.0, r.value.1)
  {
    var pre: seq<Attribute> := [];
    var post: seq<Attribute> := [];
    var todo := future.Keys + current.Keys;
    ghost var inPre := a => InPre(allowRemoval, future, current, a);
    ghost var inPost := a => InPost(future, current, a);
    while todo != {}
      invariant ListedSoFar(pre, inPre, current, todo)
      invariant ListedSoFar(post, inPost, future, todo)
      invariant forall a :: a !in todo ==> !Unreadable(allowRemoval, future, current, a)
      decreases todo
    {
      var a :| a in todo;
      var p := CollectAttribute(pre, a, InPre(allowRemoval, future, current, a), current, inPre, todo);
      if p.Err? {
        assert Unreadable(allowRemoval, future, current, a);
        return Err(p.error);
      }
      var q := CollectAttribute(post, a, InPost(future, current, a), future, inPost, todo);
      if q.Err? {
        assert Unreadable(allowRemoval, future, current, a);
        return Err(q.error);
      }
      pre, post := p.value, q.value;
      todo := todo - {a};
    }
    r := Ok((pre, post));
  }

  /** The curation of the characteristics, the references and the relationships of one sample. */
  datatype Curation = Curation(
    attributesPre: seq<Attribute>, attributesPost: seq<Attribute>,
    externalReferencesPre: Json, externalReferencesPost: Json,
    relationshipsPre: Json, relationshipsPost: Json,
    sample: Option<Json>)

  function GetOr(sample: Sample, key: string, default: Json): Json
  {
    if key in sample then sample[key] else default
  }

  /** The stored external references without their `None` values; each one must be a dictionary. */
  function CleanReferences(current: Sample): Result<Json>
  {
    if "externalReferences" !in current then Ok(JList([]))
    else
      var refs := current["externalReferences"];
      if !refs.JList? then Err("TypeError")
      else if exists i :: 0 <= i < |refs.items| && !refs.items[i].JObj? then Err("AttributeError")
      else Ok(JList(seq(|refs.items|, i requires 0 <= i < |refs.items| =>
        JObj(map k | k in refs.items[i].fields && refs.items[i].fields[k] != JNull :: refs.items[i].fields[k]))))
  }

  /** No cleaned reference holds a `None`, and every other value of the stored references is kept. */
  lemma CleanReferencesDropOnlyNulls(current: Sample, i: nat, k: string)
    requires CleanReferences(current).Ok? && "externalReferences" in current
    requires i < |current["externalReferences"].items|
    ensures var stored := current["externalReferences"].items[i].fields;
      var clean := CleanReferences(current).value.items[i].fields;
      (k in clean ==> clean[k] != JNull) &&
      (k in clean <==> k in stored && stored[k] != JNull) &&
      (k in clean ==> clean[k] == stored[k])
  {
  }

  /**
   * `convert_sample_data_to_curation_object`: `current` is the sample as
   * BioSamples holds it, curations included.  References and relationships
   * are replaced wholesale.
   */
  method CurationObject(sub: Submitter, future: Sample, current: Sample) returns (r: Result<Curation>)
    ensures r.Ok? <==>
      CleanReferences(current).Ok? && Characteristics(future).Ok? && Characteristics(current).Ok? &&
      forall a :: !Unreadable(sub.allowRemoval, Characteristics(future).value, Characteristics(current).value, a)
    ensures r.Ok? ==>
      IsDiff(sub.allowRemoval, Characteristics(future).value, Characteristics(current).value,
             r.value.attributesPre, r.value.attributesPost) &&
      r.value.externalReferencesPre == CleanReferences(current).value &&
      r.value.externalReferencesPost == GetOr(future, "externalReferences", JList([])) &&
      r.value.relationshipsPre == GetOr(current, "relationships", JList([])) &&
      r.value.relationshipsPost == GetOr(future, "relationships", JList([])) &&
      r.value.sample == (if "accession" in future then Some(future["accession"]) else None)
  {
    var refs := CleanReferences(current);
    if refs.Err? {
      return Err(refs.error);
    }
    var fc := Characteristics(future);
    if fc.Err? {
      return Err(fc.error);
    }
    var cc := Characteristics(current);
    if cc.Err? {
      return Err(cc.error);
    }
    var diff := DiffAttributes(sub.allowRemoval, fc.value, cc.value);
    if diff.Err? {
      return Err(diff.error);
    }
    r := Ok(Curation(diff.value.0, diff.value.1,
                     refs.value, GetOr(future, "externalReferences", JList([])),
                     GetOr(current, "relationships", JList([])), GetOr(future, "relationships", JList([])),
                     if "accession" in future then Some(future["accession"]) else None));
  }

  /**
   * An added characteristic is posted only, a changed one is both removed
   * and posted, a removed one is listed as removed only with `allow_removal`,
   * and an unchanged one is in neither list.
   */
  lemma {:induction false} DiffClassifiesCharacteristics(allowRemoval: bool, future: map<string, Json>, current: map<string, Json>,
                                                          pre: seq<Attribute>, post: seq<Attribute>, a: string)
    requires IsDiff(allowRemoval, future, current, pre, post)
    ensures a in future && a !in current ==> a in Kinds(post) && a !in Kinds(pre)
    ensures a in future && a in current && future[a] != current[a] ==> a in Kinds(post) && a in Kinds(pre)
    ensures a !in future && a in current ==> a !in Kinds(post) && (a in Kinds(pre) <==> allowRemoval)
    ensures a in future && a in current && future[a] == current[a] ==> a !in Kinds(post) && a !in Kinds(pre)
  {
    assert a in Kinds(pre) <==> InPre(allowRemoval, future, current, a);
    assert a in Kinds(post) <==> InPost(future, current, a);
  }

  // ---------------------------------------------------------------------
  // Mapping spreadsheet keys to BioSamples fields

  /** `map_key`: the mapped name, or the key itself when the mapping does not know it. */
  function MapKey(key: string, mapping: map<string, string>): (r: string)
    ensures key in mapping ==> r == mapping[key]
    ensures key !in mapping ==> r == key
  {
    if key in mapping then mapping[key] else key
  }

  /** Mapping a key that is not a mapping value twice gives the same name as once, when no name maps onward. */
  lemma {:induction false} MapKeyIdempotent(key: string, mapping: map<string, string>)
    requires forall k :: k in mapping ==> mapping[k] !in mapping
    ensures MapKey(MapKey(key, mapping), mapping) == MapKey(key, mapping)
  {
    if key in mapping {
      assert mapping[key] !in mapping;
    }
  }

  /** What `apply_mapping` is given as key: one name, or a list of names each applied in turn. */
  datatype MappedKey = Name(name: string) | Names(names: seq<string>)

  predicate KeyTruthy(key: MappedKey)
  {
    match key
    case Name(n) => n != ""
    case Names(ns) => ns != []
  }

  /** The characteristics text format: `[{'text': value}]`. */
  function TextEntry(value: Json): Json
  {
    JList([JObj(map["text" := value])])
  }

  const CharacteristicsPrefix := "characteristics."

  /**
   * The descent of `apply_mapping` as written: after stepping into each key
   * but the last, it assigns the last key in the dictionary just reached, so
   * every level below the top receives the entry.
   */
  function WalkAsWritten(node: Json, keys: seq<string>, last: string, entry: Json): Result<Json>
    decreases |keys|
  {
    if keys == [] then Ok(node)
    else match MemberOf(node, keys[0])
      case Err(e) => Err(e)
      case Ok(found) =>
        if !found then Err("KeyError")
        else if !node.JObj? then Err("TypeError")
        else
          var child := node.fields[keys[0]];
          if !child.JObj? then Err("TypeError")
          else match WalkAsWritten(JObj(child.fields[last := entry]), keys[1..], last, entry)
            case Err(e) => Err(e)
            case Ok(c) => Ok(JObj(node.fields[keys[0] := c]))
  }

  /** The descent as intended: step into each key but the last, then assign the last key once, at the bottom. */
  function Walk(node: Json, keys: seq<string>, last: string, entry: Json): (r: Result<Json>)
    ensures r.Ok? ==> r.value.JObj?
    decreases |keys|
  {
    if keys == [] then
      if node.JObj? then Ok(JObj(node.fields[last := entry])) else Err("TypeError")
    else match MemberOf(node, keys[0])
      case Err(e) => Err(e)
      case Ok(found) =>
        if !found then Err("KeyError")
        else if !node.JObj? then Err("TypeError")
        else match Walk(node.fields[keys[0]], keys[1..], last, entry)
          case Err(e) => Err(e)
          case Ok(c) => Ok(JObj(node.fields[keys[0] := c]))
  }

  /** A dotted characteristics key split into the dictionaries to descend and the key to assign. */
  function DottedPath(key: string): (seq<string>, string)
  {
    var parts := Split(key, '.');
    if parts == [] then ([], "") else (parts[..|parts| - 1], parts[|parts| - 1])
  }

  /** `apply_mapping` for one name, with the descent written as the source has it. */
  function ApplyNameAsWritten(data: Sample, name: string, value: Json): Result<Sample>
  {
    if name == "" || !Truthy(value) then Ok(data)
    else if StartsWith(name, CharacteristicsPrefix) then
      var (keys, last) := DottedPath(name);
      match WalkAsWritten(JObj(data), keys, last, TextEntry(value))
      case Err(e) => Err(e)
      case Ok(n) => if n.JObj? then Ok(n.fields) else Err("TypeError")
    else Ok(data[name := value])
  }

  /** `apply_mapping` for one name, with the entry assigned once at the bottom of the descent. */
  function ApplyName(data: Sample, name: string, value: Json): Result<Sample>
  {
    if name == "" || !Truthy(value) then Ok(data)
    else if StartsWith(name, CharacteristicsPrefix) then
      var (keys, last) := DottedPath(name);
      match Walk(JObj(data), keys, last, TextEntry(value))
      case Err(e) => Err(e)
      case Ok(n) => Ok(n.fields)
    else Ok(data[name := value])
  }

  /** Each name of the list applied in turn to the result of the previous ones. */
  function ApplyNames(data: Sample, names: seq<string>, value: Json): Result<Sample>
    decreases |names|
  {
    if names == [] then Ok(data)
    else match ApplyName(data, names[0], value)
      case Err(e) => Err(e)
      case Ok(d) => ApplyNames(d, names[1..], value)
  }

  /** `apply_mapping(bsd_data, map_key, value)`, on the corrected descent. */
  method ApplyMapping(data: Sample, key: MappedKey, value: Json) returns (r: Result<Sample>)
    ensures !KeyTruthy(key) || !Truthy(value) ==> r == Ok(data)
    ensures key.Name? ==> r == ApplyName(data, key.name, value)
    ensures key.Names? && Truthy(value) ==> r == ApplyNames(data, key.names, value)
  {
    if !KeyTruthy(key) || !Truthy(value) {
      return Ok(data);
    }
    match key
    case Name(n) =>
      r := ApplyName(data, n, value);
    case Names(ns) =>
      var d := data;
      for i := 0 to |ns|
        invariant ApplyNames(data, ns, value) == ApplyNames(d, ns[i..], value)
      {
        assert ns[i..][1..] == ns[i + 1..];
        var step := ApplyName(d, ns[i], value);
        if step.Err? {
          return Err(step.error);
        }
        d := step.value;
      }
      assert ns[|ns|..] == [];
      r := Ok(d);
  }

  /** After a successful descent the full dotted path reads back the entry. */
  lemma {:induction false} WalkStoresEntry(node: Json, keys: seq<string>, last: string, entry: Json)
    requires Walk(node, keys, last, entry).Ok?
    ensures GetIn(Walk(node, keys, last, entry).value, keys + [last]) == Some(entry)
    decreases |keys|
  {
    if keys != [] {
      assert (keys + [last])[0] == keys[0];
      assert (keys + [last])[1..] == keys[1..] + [last];
      WalkStoresEntry(node.fields[keys[0]], keys[1..], last, entry);
    }
  }

  /** A 'characteristics.' key stores `[{'text': value}]` at its dotted path; any other key is set as is. */
  lemma ApplyNameStores(data: Sample, name: string, value: Json)
    requires name != "" && Truthy(value)
    requires ApplyName(data, name, value).Ok?
    ensures StartsWith(name, CharacteristicsPrefix) ==>
      var (keys, last) := DottedPath(name);
      Get(ApplyName(data, name, value).value, keys + [last]) == Some(TextEntry(value))
    ensures !StartsWith(name, CharacteristicsPrefix) ==> ApplyName(data, name, value).value == data[name := value]
  {
    if StartsWith(name, CharacteristicsPrefix) {
      var (keys, last) := DottedPath(name);
      WalkStoresEntry(JObj(data), keys, last, TextEntry(value));
    }
  }

  /** With one dictionary to descend (`characteristics.<name>`), the loop as written does what was intended. */
  lemma AsWrittenAgreesOnOneLevel(node: Json, k: string, last: string, entry: Json)
    ensures WalkAsWritten(node, [k], last, entry) == Walk(node, [k], last, entry)
  {
    assert [k][1..] == [];
  }

  /**
   * With a nested key such as `characteristics.a.b` the loop as written also
   * assigns `characteristics['b']`, a characteristic nobody asked for.
   */
  lemma AsWrittenNestedKeyWritesTwice(name: string)
    requires StartsWith(name, CharacteristicsPrefix)
    requires DottedPath(name) == (["characteristics", "a"], "b")
    ensures var data: Sample := map["characteristics" := JObj(map["a" := JObj(map[])])];
      var value := JStr("v");
      var asWritten := ApplyNameAsWritten(data, name, value);
      var intended := ApplyName(data, name, value);
      asWritten.Ok? && intended.Ok? &&
      Get(asWritten.value, ["characteristics", "b"]) == Some(TextEntry(value)) &&
      Get(intended.value, ["characteristics", "b"]) == None
  {
    var data: Sample := map["characteristics" := JObj(map["a" := JObj(map[])])];
    var value := JStr("v");
    var entry := TextEntry(value);
    assert |name| >= |CharacteristicsPrefix|;
    NestedWalkAsWritten(entry);
    NestedWalk(entry);
    var both := map["a" := JObj(map["b" := entry]), "b" := entry];
    var fixed := map["a" := JObj(map["b" := entry])];
    assert ApplyNameAsWritten(data, name, value) == Ok(map["characteristics" := JObj(both)]);
    assert ApplyName(data, name, value) == Ok(map["characteristics" := JObj(fixed)]);
    assert ["characteristics", "b"][1..] == ["b"] && ["b"][1..] == [];
    assert GetIn(JObj(both), ["b"]) == Some(entry);
    assert GetIn(JObj(fixed), ["b"]) == None;
  }

  lemma NestedWalkAsWritten(entry: Json)
    ensures WalkAsWritten(JObj(map["characteristics" := JObj(map["a" := JObj(map[])])]), ["characteristics", "a"], "b", entry)
      == Ok(JObj(map["characteristics" := JObj(map["a" := JObj(map["b" := entry]), "b" := entry])]))
  {
    var top := map["characteristics" := JObj(map["a" := JObj(map[])])];
    var written := map["a" := JObj(map[]), "b" := entry];
    var leaf := map["b" := entry];
    assert map["a" := JObj(map[])]["b" := entry] == written;
    assert map[]["b" := entry] == leaf;
    assert ["characteristics", "a"][1..] == ["a"] && ["a"][1..] == [];
    assert WalkAsWritten(JObj(leaf), [], "b", entry) == Ok(JObj(leaf));
    var both := map["a" := JObj(leaf), "b" := entry];
    assert written["a" := JObj(leaf)] == both;
    assert WalkAsWritten(JObj(written), ["a"], "b", entry) == Ok(JObj(both));
    assert top["characteristics" := JObj(both)] == map["characteristics" := JObj(both)];
  }

  lemma NestedWalk(entry: Json)
    ensures Walk(JObj(map["characteristics" := JObj(map["a" := JObj(map[])])]), ["characteristics", "a"], "b", entry)
      == Ok(JObj(map["characteristics" := JObj(map["a" := JObj(map["b" := entry])])]))
  {
    var top := map["characteristics" := JObj(map["a" := JObj(map[])])];
    var inner := map["a" := JObj(map[])];
    var leaf := map["b" := entry];
    assert map[]["b" := entry] == leaf;
    assert ["characteristics", "a"][1..] == ["a"] && ["a"][1..] == [];
    assert Walk(JObj(map[]), [], "b", entry) == Ok(JObj(leaf));
    assert inner["a" := JObj(leaf)] == map["a" := JObj(leaf)];
    assert Walk(JObj(inner), ["a"], "b", entry) == Ok(JObj(map["a" := JObj(leaf)]));
    assert top["characteristics" := JObj(map["a" := JObj(leaf)])] == map["characteristics" := JObj(map["a" := JObj(leaf)])];
  }

  /** The dotted key of the example splits into the dictionaries to descend and the key to assign. */
  lemma NestedKeyParts()
    ensures StartsWith("characteristics.a.b", CharacteristicsPrefix)
    ensures DottedPath("characteristics.a.b") == (["characteristics", "a"], "b")
  {
    var parts := ["characteristics", "a", "b"];
    SplitJoin(parts, '.');
    assert Join(parts, ".") == "characteristics.a.b";
    assert parts[..2] == ["characteristics", "a"];
  }
}
