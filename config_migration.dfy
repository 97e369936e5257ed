/**
 * The upgrade of a version 0.x ELOAD configuration to version 1: the
 * per-submission assembly and VCF fields move under
 * `submission.analyses.<alias>`, the validated VCF list and the brokered VCF
 * index files follow, and the ENA analysis accession is keyed by the alias.
 * Reading the metadata spreadsheet is not modelled: its analysis aliases are a
 * parameter.
 */
module AnalysisFieldNames {
  /** The four fields that move are different keys; proved here, away from the rest of the model. */
  lemma Distinct()
    ensures "assembly_accession" != "assembly_fasta" && "assembly_accession" != "assembly_report"
    ensures "assembly_accession" != "vcf_files" && "assembly_fasta" != "assembly_report"
    ensures "assembly_fasta" != "vcf_files" && "assembly_report" != "vcf_files"
  {
  }
}

module ConfigMigration {
  import opened Wrappers
  import opened JsonValues
  import opened SubmissionConfig
  import AnalysisFieldNames

  /** The fields that moved from `submission` into each analysis. */
  const AnalysisFields: seq<string> := ["assembly_accession", "assembly_fasta", "assembly_report", "vcf_files"]

  /** `submission.<f>` of the configuration. */
  function SubmissionField(content: map<string, Json>, f: string): Option<Json>
  {
    Get(content, ["submission", f])
  }

  /** The analysis entry built from the old `submission` section (a missing field becomes None). */
  function AnalysisData(content: map<string, Json>): Json
  {
    JObj(map[
      "assembly_accession" := SubmissionField(content, "assembly_accession").GetOr(JNull),
      "assembly_fasta" := SubmissionField(content, "assembly_fasta").GetOr(JNull),
      "assembly_report" := SubmissionField(content, "assembly_report").GetOr(JNull),
      "vcf_files" := SubmissionField(content, "vcf_files").GetOr(JNull)])
  }

  /**
   * `get_analysis_alias_from_metadata`: the alias of the only analysis of the
   * metadata spreadsheet the configuration names; no spreadsheet, or a number
   * of analyses other than one, raises ValueError.
   */
  function AliasFromMetadata(content: map<string, Json>, spreadsheetAliases: seq<string>): (r: Result<string>)
    ensures r.Ok? ==> r.value in spreadsheetAliases
    ensures r.Ok? <==> (Get(content, ["submission", "metadata_spreadsheet"]).Some? &&
      Truthy(Get(content, ["submission", "metadata_spreadsheet"]).value) && |spreadsheetAliases| == 1)
  {
    var sheet := Get(content, ["submission", "metadata_spreadsheet"]);
    if sheet.Some? && Truthy(sheet.value) && |spreadsheetAliases| == 1 then Ok(spreadsheetAliases[0])
    else Err("ValueError")
  }

  /** The alias the upgrade uses: the one given when it is truthy, else the spreadsheet's. */
  function ChosenAlias(content: map<string, Json>, analysisAlias: Option<string>, spreadsheetAliases: seq<string>): Result<string>
  {
    if analysisAlias.Some? && analysisAlias.value != "" then Ok(analysisAlias.value)
    else AliasFromMetadata(content, spreadsheetAliases)
  }

  /** `eload_cfg.pop('submission', field)`: one old field taken out of the `submission` section. */
  method PopSubmissionField(cfg: EloadConfig, f: string) returns (r: Result<Json>)
    requires "submission" in cfg.content
    modifies cfg
    ensures cfg.configFile == old(cfg.configFile)
    ensures "submission" in cfg.content
    ensures SameExcept(old(cfg.content), cfg.content, "submission")
    ensures r.Ok? <==> old(cfg.content)["submission"].JObj?
    ensures r.Err? ==> cfg.content == old(cfg.content)
    ensures r.Ok? ==> r.value == SubmissionField(old(cfg.content), f).GetOr(JNull)
    ensures r.Ok? ==> cfg.content["submission"].JObj? && SubmissionField(cfg.content, f) == None
    ensures r.Ok? ==> forall g :: g != f ==> SubmissionField(cfg.content, g) == SubmissionField(old(cfg.content), g)
  {
    ghost var before := cfg.content;
    PopPathNested(before, "submission", f, JNull);
    r := cfg.Pop(["submission", f], JNull);
    if r.Ok? {
      PopPathOutside(before, ["submission", f], JNull);
      forall g | g != f
        ensures SubmissionField(cfg.content, g) == SubmissionField(before, g)
      {
        assert ["submission", f][1] != ["submission", g][1];
        PopInKeepsOthers(JObj(before), ["submission", f], JNull, ["submission", g]);
      }
    }
  }

  /** Four pops of different fields in turn: each reads its field as it first was, and all four end up absent. */
  lemma FourPops(c0: map<string, Json>, c1: map<string, Json>, c2: map<string, Json>, c3: map<string, Json>,
                 c4: map<string, Json>, f1: string, f2: string, f3: string, f4: string)
    requires f1 != f2 && f1 != f3 && f1 != f4 && f2 != f3 && f2 != f4 && f3 != f4
    requires SubmissionField(c1, f1) == None && forall g :: g != f1 ==> SubmissionField(c1, g) == SubmissionField(c0, g)
    requires SubmissionField(c2, f2) == None && forall g :: g != f2 ==> SubmissionField(c2, g) == SubmissionField(c1, g)
    requires SubmissionField(c3, f3) == None && forall g :: g != f3 ==> SubmissionField(c3, g) == SubmissionField(c2, g)
    requires SubmissionField(c4, f4) == None && forall g :: g != f4 ==> SubmissionField(c4, g) == SubmissionField(c3, g)
    ensures SubmissionField(c1, f2) == SubmissionField(c0, f2)
    ensures SubmissionField(c2, f3) == SubmissionField(c0, f3)
    ensures SubmissionField(c3, f4) == SubmissionField(c0, f4)
    ensures SubmissionField(c4, f1) == None && SubmissionField(c4, f2) == None && SubmissionField(c4, f3) == None
  {
  }

  /** The `analysis_data` dictionary: the four old fields popped from `submission`, in order. */
  method PopAnalysisData(cfg: EloadConfig) returns (r: Result<Json>)
    requires "submission" in cfg.content
    modifies cfg
    ensures cfg.configFile == old(cfg.configFile)
    ensures "submission" in cfg.content
    ensures SameExcept(old(cfg.content), cfg.content, "submission")
    ensures r.Ok? <==> old(cfg.content)["submission"].JObj?
    ensures r.Ok? ==> r.value == AnalysisData(old(cfg.content)) && cfg.content["submission"].JObj?
    ensures r.Ok? ==> forall f | f in AnalysisFields :: SubmissionField(cfg.content, f) == None
  {
    ghost var c0 := cfg.content;
    AnalysisFieldNames.Distinct();
    var accession := PopSubmissionField(cfg, "assembly_accession");
    if accession.Err? {
      return Err(accession.error);
    }
    ghost var c1 := cfg.content;
    var fasta := PopSubmissionField(cfg, "assembly_fasta");
    ghost var c2 := cfg.content;
    var report := PopSubmissionField(cfg, "assembly_report");
    ghost var c3 := cfg.content;
    var vcfs := PopSubmissionField(cfg, "vcf_files");
    assert fasta.Ok? && report.Ok? && vcfs.Ok?;
    FourPops(c0, c1, c2, c3, cfg.content, "assembly_accession", "assembly_fasta", "assembly_report", "vcf_files");
    r := Ok(JObj(map[
      "assembly_accession" := accession.value,
      "assembly_fasta" := fasta.value,
      "assembly_report" := report.value,
      "vcf_files" := vcfs.value]));
  }

  /**
   * The first part of the upgrade: the four old fields are popped from
   * `submission` and set again as `submission.analyses.<alias>`.  It fails
   * exactly when `submission` is not a dictionary.
   */
  method UpgradeSubmission(cfg: EloadConfig, alias: string) returns (r: Result<Json>)
    requires "submission" in cfg.content
    modifies cfg
    ensures cfg.configFile == old(cfg.configFile)
    ensures "submission" in cfg.content
    ensures SameExcept(old(cfg.content), cfg.content, "submission")
    ensures r.Ok? <==> old(cfg.content)["submission"].JObj?
    ensures r.Ok? ==> r.value == JObj(map[alias := AnalysisData(old(cfg.content))])
    ensures r.Ok? ==> Get(cfg.content, ["submission", "analyses"]) == Some(r.value)
    ensures r.Ok? ==> forall f | f in AnalysisFields :: SubmissionField(cfg.content, f) == None
  {
    var data := PopAnalysisData(cfg);
    if data.Err? {
      return Err(data.error);
    }
    ghost var c1 := cfg.content;
    var analyses := JObj(map[alias := data.value]);
    assert c1 != map[] && WithVersion(c1, cfg.version) == c1;
    var written := cfg.Set(["submission", "analyses"], analyses);
    assert ["submission", "analyses"][1..] == ["analyses"];
    assert written.Ok?;
    SetPathOutside(c1, ["submission", "analyses"], analyses);
    forall f | f in AnalysisFields
      ensures SubmissionField(cfg.content, f) == None
    {
      assert SubmissionField(c1, f) == None;
      assert ["submission", "analyses"][1] != ["submission", f][1];
      SetInKeepsOthers(JObj(c1), ["submission", "analyses"], analyses, ["submission", f]);
    }
    r := Ok(analyses);
  }

  /**
   * `if 'validation' in eload_cfg`: the validated VCF list is popped and the
   * analyses are set under `validation.valid`.
   */
  method UpgradeValidation(cfg: EloadConfig, analyses: Json) returns (r: Result<()>)
    requires "validation" in cfg.content
    modifies cfg
    ensures cfg.configFile == old(cfg.configFile)
    ensures "validation" in cfg.content
    ensures SameExcept(old(cfg.content), cfg.content, "validation")
    ensures r.Ok? ==> Get(cfg.content, ["validation", "valid", "vcf_files"]) == None
    ensures r.Ok? ==> Get(cfg.content, ["validation", "valid", "analyses"]) == Some(analyses)
  {
    ghost var c0 := cfg.content;
    var popped := cfg.Pop(["validation", "valid", "vcf_files"], JNull);
    if popped.Err? {
      return Err(popped.error);
    }
    PopPathOutside(c0, ["validation", "valid", "vcf_files"], JNull);
    ghost var c1 := cfg.content;
    assert c1 != map[] && WithVersion(c1, cfg.version) == c1;
    var written := cfg.Set(["validation", "valid", "analyses"], analyses);
    if written.Err? {
      return Err(written.error);
    }
    SetPathOutside(c1, ["validation", "valid", "analyses"], analyses);
    assert ["validation", "valid", "analyses"][2] != ["validation", "valid", "vcf_files"][2];
    SetInKeepsOthers(JObj(c1), ["validation", "valid", "analyses"], analyses, ["validation", "valid", "vcf_files"]);
    r := Ok(());
  }

  /** The brokered analysis: the analysis data with its VCF files replaced by the brokered VCF index files. */
  function BrokeredAnalyses(alias: string, content: map<string, Json>, brokeredVcfs: Json): Json
  {
    var data := AnalysisData(content);
    JObj(map[alias := JObj(data.fields["vcf_files" := brokeredVcfs])])
  }

  /**
   * `if 'brokering' in eload_cfg`: the brokered VCF files move into
   * `brokering.analyses.<alias>`, and the ENA analysis accession is keyed by
   * the alias.  Calling `.items()` on a brokered VCF entry that is not a
   * dictionary (None when it is missing) raises AttributeError.
   */
  method UpgradeBrokering(cfg: EloadConfig, alias: string, data: Json) returns (r: Result<()>)
    requires "brokering" in cfg.content
    requires data.JObj?
    modifies cfg
    ensures cfg.configFile == old(cfg.configFile)
    ensures "brokering" in cfg.content
    ensures SameExcept(old(cfg.content), cfg.content, "brokering")
    ensures var vcfs := Get(old(cfg.content), ["brokering", "vcf_files"]);
      old(cfg.content)["brokering"].JObj? && (vcfs.None? || !vcfs.value.JObj?) ==> r == Err("AttributeError")
    ensures r.Ok? ==> Get(cfg.content, ["brokering", "vcf_files"]) == None
    ensures r.Ok? ==> Get(old(cfg.content), ["brokering", "vcf_files"]).Some?
    ensures r.Ok? ==> (Get(cfg.content, ["brokering", "analyses"]) ==
      Some(JObj(map[alias := JObj(data.fields["vcf_files" := Get(old(cfg.content), ["brokering", "vcf_files"]).value])])))
    ensures r.Ok? ==> (Get(cfg.content, ["brokering", "ena", "ANALYSIS"]) ==
      Some(JObj(map[alias := Get(old(cfg.content), ["brokering", "ena", "ANALYSIS"]).GetOr(JNull)])))
  {
    r := MoveBrokeredVcfs(cfg, alias, data);
    if r.Err? {
      return;
    }
    r := KeyAccessionByAlias(cfg, alias);
  }

  /** First half of the brokering upgrade: `brokering.vcf_files` becomes `brokering.analyses.<alias>.vcf_files`. */
  method MoveBrokeredVcfs(cfg: EloadConfig, alias: string, data: Json) returns (r: Result<()>)
    requires "brokering" in cfg.content
    requires data.JObj?
    modifies cfg
    ensures cfg.configFile == old(cfg.configFile)
    ensures "brokering" in cfg.content
    ensures SameExcept(old(cfg.content), cfg.content, "brokering")
    ensures var vcfs := Get(old(cfg.content), ["brokering", "vcf_files"]);
      old(cfg.content)["brokering"].JObj? && (vcfs.None? || !vcfs.value.JObj?) ==> r == Err("AttributeError")
    ensures r.Ok? ==> Get(cfg.content, ["brokering", "vcf_files"]) == None
    ensures r.Ok? ==> Get(old(cfg.content), ["brokering", "vcf_files"]).Some?
    ensures r.Ok? ==> (Get(cfg.content, ["brokering", "analyses"]) ==
      Some(JObj(map[alias := JObj(data.fields["vcf_files" := Get(old(cfg.content), ["brokering", "vcf_files"]).value])])))
    ensures r.Ok? ==> Get(cfg.content, ["brokering", "ena", "ANALYSIS"]) == Get(old(cfg.content), ["brokering", "ena", "ANALYSIS"])
  {
    ghost var c0 := cfg.content;
    var vcfs := cfg.Pop(["brokering", "vcf_files"], JNull);
    if vcfs.Err? {
      return Err(vcfs.error);
    }
    if !vcfs.value.JObj? {
      return Err("AttributeError");
    }
    PopPathOutside(c0, ["brokering", "vcf_files"], JNull);
    ghost var c1 := cfg.content;
    var brokered := JObj(map[alias := JObj(data.fields["vcf_files" := vcfs.value])]);
    assert c1 != map[] && WithVersion(c1, cfg.version) == c1;
    var written := cfg.Set(["brokering", "analyses"], brokered);
    if written.Err? {
      return Err(written.error);
    }
    SetPathOutside(c1, ["brokering", "analyses"], brokered);
    var ena := ["brokering", "ena", "ANALYSIS"];
    assert ["brokering", "analyses"][1] != ena[1];
    SetInKeepsOthers(JObj(c1), ["brokering", "analyses"], brokered, ena);
    assert ["brokering", "vcf_files"][1] != ena[1];
    PopInKeepsOthers(JObj(c0), ["brokering", "vcf_files"], JNull, ena);
    assert ["brokering", "analyses"][1] != ["brokering", "vcf_files"][1];
    SetInKeepsOthers(JObj(c1), ["brokering", "analyses"], brokered, ["brokering", "vcf_files"]);
    r := Ok(());
  }

  /** Second half of the brokering upgrade: the ENA analysis accession is re-keyed by the alias. */
  method KeyAccessionByAlias(cfg: EloadConfig, alias: string) returns (r: Result<()>)
    requires "brokering" in cfg.content
    modifies cfg
    ensures cfg.configFile == old(cfg.configFile)
    ensures "brokering" in cfg.content
    ensures SameExcept(old(cfg.content), cfg.content, "brokering")
    ensures r.Ok? ==> (Get(cfg.content, ["brokering", "ena", "ANALYSIS"]) ==
      Some(JObj(map[alias := Get(old(cfg.content), ["brokering", "ena", "ANALYSIS"]).GetOr(JNull)])))
    ensures r.Ok? ==> Get(cfg.content, ["brokering", "analyses"]) == Get(old(cfg.content), ["brokering", "analyses"])
    ensures r.Ok? ==> Get(cfg.content, ["brokering", "vcf_files"]) == Get(old(cfg.content), ["brokering", "vcf_files"])
  {
    ghost var c2 := cfg.content;
    var ena := ["brokering", "ena", "ANALYSIS"];
    var accession := cfg.Pop(ena, JNull);
    if accession.Err? {
      return Err(accession.error);
    }
    PopPathOutside(c2, ena, JNull);
    ghost var c3 := cfg.content;
    assert c3 != map[] && WithVersion(c3, cfg.version) == c3;
    var path := ena + [alias];
    var written := cfg.Set(path, accession.value);
    if written.Err? {
      return Err(written.error);
    }
    SetPathOutside(c3, path, accession.value);
    SetInCreates(JObj(c3), ena, alias, accession.value);
    assert ena[1] != ["brokering", "analyses"][1];
    PopInKeepsOthers(JObj(c2), ena, JNull, ["brokering", "analyses"]);
    assert path[1] != ["brokering", "analyses"][1];
    SetInKeepsOthers(JObj(c3), path, accession.value, ["brokering", "analyses"]);
    assert ena[1] != ["brokering", "vcf_files"][1];
    PopInKeepsOthers(JObj(c2), ena, JNull, ["brokering", "vcf_files"]);
    assert path[1] != ["brokering", "vcf_files"][1];
    SetInKeepsOthers(JObj(c3), path, accession.value, ["brokering", "vcf_files"]);
    r := Ok(());
  }

  /** `submission.analyses` holds the analysis under its alias and the old fields are gone. */
  ghost predicate SubmissionUpgraded(c: map<string, Json>, alias: string, data: Json)
  {
    Get(c, ["submission", "analyses"]) == Some(JObj(map[alias := data])) &&
    forall f | f in AnalysisFields :: SubmissionField(c, f) == None
  }

  /** `validation.valid` lists the analyses instead of the VCF files. */
  ghost predicate ValidationUpgraded(c: map<string, Json>, alias: string, data: Json)
  {
    Get(c, ["validation", "valid", "vcf_files"]) == None &&
    Get(c, ["validation", "valid", "analyses"]) == Some(JObj(map[alias := data]))
  }

  /**
   * The brokered VCF files of `before` now sit in `brokering.analyses.<alias>`,
   * and the ENA analysis accession of `before` is keyed by the alias.
   */
  ghost predicate BrokeringUpgraded(c: map<string, Json>, alias: string, data: Json, before: map<string, Json>)
    requires data.JObj?
  {
    var vcfs := Get(before, ["brokering", "vcf_files"]);
    vcfs.Some? &&
    Get(c, ["brokering", "vcf_files"]) == None &&
    Get(c, ["brokering", "analyses"]) == Some(JObj(map[alias := JObj(data.fields["vcf_files" := vcfs.value])])) &&
    Get(c, ["brokering", "ena", "ANALYSIS"]) == Some(JObj(map[alias := Get(before, ["brokering", "ena", "ANALYSIS"]).GetOr(JNull)]))
  }

  lemma SubmissionUpgradedKept(a: map<string, Json>, b: map<string, Json>, key: string, alias: string, data: Json)
    requires SameExcept(a, b, key) && key != "submission"
    requires SubmissionUpgraded(a, alias, data)
    ensures SubmissionUpgraded(b, alias, data)
  {
    GetOutside(a, b, key, ["submission", "analyses"]);
    forall f | f in AnalysisFields ensures SubmissionField(b, f) == None {
      GetOutside(a, b, key, ["submission", f]);
    }
  }

  lemma ValidationUpgradedKept(a: map<string, Json>, b: map<string, Json>, key: string, alias: string, data: Json)
    requires SameExcept(a, b, key) && key != "validation"
    requires ValidationUpgraded(a, alias, data)
    ensures ValidationUpgraded(b, alias, data)
  {
    GetOutside(a, b, key, ["validation", "valid", "vcf_files"]);
    GetOutside(a, b, key, ["validation", "valid", "analyses"]);
  }

  lemma BrokeringSectionKept(a: map<string, Json>, b: map<string, Json>, key: string)
    requires SameExcept(a, b, key) && key != "brokering"
    ensures Get(a, ["brokering", "vcf_files"]) == Get(b, ["brokering", "vcf_files"])
    ensures Get(a, ["brokering", "ena", "ANALYSIS"]) == Get(b, ["brokering", "ena", "ANALYSIS"])
  {
    GetOutside(a, b, key, ["brokering", "vcf_files"]);
    GetOutside(a, b, key, ["brokering", "ena", "ANALYSIS"]);
  }

  lemma BrokeringUpgradedKept(a: map<string, Json>, b: map<string, Json>, key: string, alias: string, data: Json, before: map<string, Json>)
    requires SameExcept(a, b, key) && key != "brokering"
    requires data.JObj?
    requires BrokeringUpgraded(a, alias, data, before)
    ensures BrokeringUpgraded(b, alias, data, before)
  {
    BrokeringSectionKept(a, b, key);
    GetOutside(a, b, key, ["brokering", "analyses"]);
  }

  /**
   * `upgrade_version_0_1`: without a `submission` section, or without an
   * alias (none given and none from the spreadsheet), raises ValueError and
   * leaves the configuration as it was; otherwise moves the fields section by
   * section, and on success records the current version.
   */
  method UpgradeVersion01(cfg: EloadConfig, analysisAlias: Option<string>, spreadsheetAliases: seq<string>) returns (r: Result<()>)
    modifies cfg
    ensures cfg.configFile == old(cfg.configFile)
    ensures "submission" !in old(cfg.content) ==> r == Err("ValueError") && cfg.content == old(cfg.content)
    ensures ChosenAlias(old(cfg.content), analysisAlias, spreadsheetAliases).Err? ==>
      r.Err? && cfg.content == old(cfg.content)
    ensures r.Ok? ==> Get(cfg.content, ["version"]) == Some(JStr(cfg.version))
    ensures r.Ok? ==> var alias := ChosenAlias(old(cfg.content), analysisAlias, spreadsheetAliases);
      var data := AnalysisData(old(cfg.content));
      alias.Ok? &&
      SubmissionUpgraded(cfg.content, alias.value, data) &&
      ("validation" in old(cfg.content) ==> ValidationUpgraded(cfg.content, alias.value, data)) &&
      ("brokering" in old(cfg.content) ==> BrokeringUpgraded(cfg.content, alias.value, data, old(cfg.content)))
  {
    ghost var c0 := cfg.content;
    if "submission" !in cfg.content {
      return Err("ValueError");
    }
    var chosen := ChosenAlias(cfg.content, analysisAlias, spreadsheetAliases);
    if chosen.Err? {
      return Err(chosen.error);
    }
    var alias := chosen.value;
    var sub := UpgradeSubmission(cfg, alias);
    if sub.Err? {
      return Err(sub.error);
    }
    var analyses := sub.value;
    ghost var data := AnalysisData(c0);
    ghost var c1 := cfg.content;
    assert SubmissionUpgraded(c1, alias, data);
    assert "validation" in c1 <==> "validation" in c0 by {
      assert "validation" in c1 - {"submission"} <==> "validation" in c0 - {"submission"};
    }
    assert "brokering" in c1 <==> "brokering" in c0 by {
      assert "brokering" in c1 - {"submission"} <==> "brokering" in c0 - {"submission"};
    }
    BrokeringSectionKept(c0, c1, "submission");
    if "validation" in cfg.content {
      var v := UpgradeValidation(cfg, analyses);
      if v.Err? {
        return Err(v.error);
      }
      SubmissionUpgradedKept(c1, cfg.content, "validation", alias, data);
      BrokeringSectionKept(c1, cfg.content, "validation");
      assert "brokering" in cfg.content <==> "brokering" in c1 by {
        assert "brokering" in cfg.content - {"validation"} <==> "brokering" in c1 - {"validation"};
      }
    }
    ghost var c2 := cfg.content;
    assert "validation" in c0 ==> ValidationUpgraded(c2, alias, data);
    if "brokering" in cfg.content {
      var b := UpgradeBrokering(cfg, alias, analyses.fields[alias]);
      if b.Err? {
        return Err(b.error);
      }
      assert BrokeringUpgraded(cfg.content, alias, data, c2);
      SubmissionUpgradedKept(c2, cfg.content, "brokering", alias, data);
      if "validation" in c0 {
        ValidationUpgradedKept(c2, cfg.content, "brokering", alias, data);
      }
    }
    ghost var c3 := cfg.content;
    assert "brokering" in c0 ==> BrokeringUpgraded(c3, alias, data, c0);
    assert c3 != map[] && WithVersion(c3, cfg.version) == c3;
    var written := cfg.Set(["version"], JStr(cfg.version));
    if written.Err? {
      return Err(written.error);
    }
    SetPathOutside(c3, ["version"], JStr(cfg.version));
    SubmissionUpgradedKept(c3, cfg.content, "version", alias, data);
    if "validation" in c0 {
      ValidationUpgradedKept(c3, cfg.content, "version", alias, data);
    }
    if "brokering" in c0 {
      BrokeringUpgradedKept(c3, cfg.content, "version", alias, data, c0);
    }
    r := Ok(());
  }
}
