/**
 * Pieces of the conversion of an EVA submission JSON into ENA's JSON: link
 * parsing, file objects, the grouping of samples and files by analysis, and
 * the project and submission aliases.  The check that a project exists in
 * ENA is a parameter; the date of today is an input.
 */
module JsonToEnaJson {
  import opened Wrappers
  import opened Text
  import opened Collections
  import opened EloadUtils

  // ---------------------------------------------------------------------
  // get_link

  datatype Link =
    | UrlLink(caption: string, url: string)
    | XrefLink(db: string, id: Option<string>, xrefCaption: Option<string>)

  /** `re.match(r'^(ftp:|http:|file:|https:)', link)`. */
  predicate IsUrl(link: string)
  {
    StartsWith(link, "ftp:") || StartsWith(link, "http:") || StartsWith(link, "file:") || StartsWith(link, "https:")
  }

  /**
   * `get_link`: a URL is split on its first '|' into URL and label, the label
   * defaulting to the URL; anything else is split on ':' at most twice into
   * database, identifier and label.
   */
  function GetLink(link: string): Link
  {
    if IsUrl(link) then
      var (url, caption) := SplitOnce(link, '|');
      UrlLink(caption.GetOr(url), url)
    else
      match SplitOnce(link, ':')
      case (db, None) => XrefLink(db, None, None)
      case (db, Some(rest)) =>
        var (id, caption) := SplitOnce(rest, ':');
        XrefLink(db, Some(id), caption)
  }

  /** The text a link is written as in the submission. */
  function LinkText(link: Link): string
  {
    match link
    case UrlLink(caption, url) => url + "|" + caption
    case XrefLink(db, id, caption) =>
      db + (if id.Some? then ":" + id.value + (if caption.Some? then ":" + caption.value else "") else "")
  }

  /** The URL schemes, without their ':'. */
  const Schemes: set<string> := {"ftp", "http", "file", "https"}

  /**
   * Links that can be written: a URL without '|'; a database that is not a
   * URL scheme, and a database and identifier without ':'; a label only
   * after an identifier.
   */
  predicate WellFormed(link: Link)
  {
    match link
    case UrlLink(_, url) => IsUrl(url) && '|' !in url
    case XrefLink(db, id, caption) =>
      db !in Schemes && ':' !in db && (id.Some? ==> ':' !in id.value) && (id.None? ==> caption.None?)
  }

  /** Parsing the text of a well-formed link gives the link back; a cross-reference label may hold ':'. */
  lemma LinkRoundTrip(link: Link)
    requires WellFormed(link)
    ensures GetLink(LinkText(link)) == link
  {
    match link
    case UrlLink(caption, url) => UrlLinkRoundTrip(caption, url);
    case XrefLink(db, id, caption) => XrefLinkRoundTrip(db, id, caption);
  }

  lemma UrlLinkRoundTrip(caption: string, url: string)
    requires WellFormed(UrlLink(caption, url))
    ensures GetLink(LinkText(UrlLink(caption, url))) == UrlLink(caption, url)
  {
    assert url + "|" + caption == url + ['|'] + caption;
    UrlExtended(url, "|" + caption);
    SplitOnceAt(url, caption, '|');
  }

  lemma XrefLinkRoundTrip(db: string, id: Option<string>, caption: Option<string>)
    requires WellFormed(XrefLink(db, id, caption))
    ensures GetLink(LinkText(XrefLink(db, id, caption))) == XrefLink(db, id, caption)
  {
    var text := LinkText(XrefLink(db, id, caption));
    NotUrlWithoutColon(db, text);
    if id.None? {
      SplitOnceAbsent(db, ':');
    } else {
      var rest := id.value + (if caption.Some? then ":" + caption.value else "");
      assert text == db + [':'] + rest;
      SplitOnceAt(db, rest, ':');
      if caption.Some? {
        assert rest == id.value + [':'] + caption.value;
        SplitOnceAt(id.value, caption.value, ':');
      } else {
        assert rest == id.value;
        SplitOnceAbsent(id.value, ':');
      }
    }
  }

  /** A cross-reference database named like a URL scheme is read back as a URL. */
  lemma SchemeDatabaseIsUrl()
    ensures WellFormed(XrefLink("ftp", Some("x"), None)) == false
    ensures GetLink(LinkText(XrefLink("ftp", Some("x"), None))).UrlLink?
  {
    assert LinkText(XrefLink("ftp", Some("x"), None)) == "ftp:x";
    assert StartsWith("ftp:x", "ftp:");
  }

  lemma UrlExtended(url: string, t: string)
    requires IsUrl(url)
    ensures IsUrl(url + t)
  {
    assert forall n :: 0 <= n <= |url| ==> (url + t)[..n] == url[..n];
  }

  /** A text that starts with a colon-free database name other than a scheme is not a URL. */
  lemma NotUrlWithoutColon(db: string, text: string)
    requires db !in Schemes && ':' !in db && StartsWith(text, db)
    requires text == db || text[|db|] == ':'
    ensures !IsUrl(text)
  {
    assert "ftp:"[..3] == "ftp" && "http:"[..4] == "http" && "file:"[..4] == "file" && "https:"[..5] == "https";
    NoColonPrefix(db, text, "ftp:");
    NoColonPrefix(db, text, "http:");
    NoColonPrefix(db, text, "file:");
    NoColonPrefix(db, text, "https:");
  }

  lemma NoColonPrefix(db: string, text: string, p: string)
    requires ':' !in db && StartsWith(text, db)
    requires text == db || text[|db|] == ':'
    requires |p| >= 1 && p[|p| - 1] == ':' && forall i :: 0 <= i < |p| - 1 ==> p[i] != ':'
    requires db != p[..|p| - 1]
    ensures !StartsWith(text, p)
  {
    assert forall i :: 0 <= i < |db| ==> text[i] == db[i] && db[i] != ':';
  }

  /** A URL without '|' is its own label. */
  lemma UrlLabelDefaultsToUrl(link: string)
    requires IsUrl(link) && '|' !in link
    ensures GetLink(link) == UrlLink(link, link)
  {
    SplitOnceAbsent(link, '|');
  }

  // ---------------------------------------------------------------------
  // _get_file_obs

  /** A file entry of the EVA JSON; an absent key is None. */
  datatype EvaFile = EvaFile(fileName: Option<string>, md5: Option<string>, analysisAlias: Option<string>)

  datatype FileObject = FileObject(fileName: string, fileType: Option<string>, checksumMethod: Option<string>, checksum: Option<string>)

  /** The file type by suffix: vcf, then tabix for a name ending 'tbi', then csi; otherwise none. */
  function FileType(name: string): Option<string>
  {
    if IsVcfFile(name) then Some("vcf")
    else if EndsWith(name, "tbi") then Some("tabix")
    else if EndsWith(name, "csi") then Some("csi")
    else None
  }

  /** `_get_file_obs`: a file without a name raises KeyError; the checksum fields appear only with an md5. */
  function FileObs(file: EvaFile): Result<FileObject>
  {
    match file.fileName
    case None => Err("KeyError")
    case Some(name) =>
      Ok(FileObject(name, FileType(name),
                    if file.md5.Some? then Some("MD5") else None,
                    file.md5))
  }

  lemma FileObsFacts(file: EvaFile)
    ensures FileObs(file).Ok? <==> file.fileName.Some?
    ensures FileObs(file).Ok? ==> var o := FileObs(file).value;
      o.fileName == file.fileName.value &&
      (o.fileType == Some("vcf") <==> IsVcfFile(o.fileName)) &&
      (o.fileType == Some("tabix") <==> !IsVcfFile(o.fileName) && EndsWith(o.fileName, "tbi")) &&
      (o.fileType == Some("csi") <==> !IsVcfFile(o.fileName) && !EndsWith(o.fileName, "tbi") && EndsWith(o.fileName, "csi")) &&
      (o.fileType.None? <==> !IsVcfFile(o.fileName) && !EndsWith(o.fileName, "tbi") && !EndsWith(o.fileName, "csi")) &&
      (o.checksumMethod == Some("MD5") <==> file.md5.Some?) && (o.checksumMethod.None? <==> file.md5.None?) &&
      o.checksum == file.md5
  {
  }

  // ---------------------------------------------------------------------
  // _samples_per_analysis and _files_per_analysis

  /** A sample entry of the EVA JSON: the analyses it belongs to, and its identifiers. */
  datatype EvaSample = EvaSample(analysisAliases: seq<string>, bioSampleAccession: Option<string>,
                                 accession: Option<string>, sampleInVcf: Option<string>)

  /** One (stripped alias, sample) pair per alias the sample names. */
  function AliasPairs(sample: EvaSample): seq<(string, EvaSample)>
  {
    seq(|sample.analysisAliases|, j requires 0 <= j < |sample.analysisAliases| => (Strip(sample.analysisAliases[j]), sample))
  }

  function SamplePairs(samples: seq<EvaSample>): seq<(string, EvaSample)>
  {
    if samples == [] then [] else SamplePairs(samples[..|samples| - 1]) + AliasPairs(samples[|samples| - 1])
  }

  /** `_samples_per_analysis`: each sample is appended to the list of every stripped alias it names. */
  method SamplesPerAnalysis(samples: seq<EvaSample>) returns (groups: map<string, seq<EvaSample>>)
    ensures groups == GroupBy(SamplePairs(samples))
  {
    groups := map[];
    for i := 0 to |samples|
      invariant groups == GroupBy(SamplePairs(samples[..i]))
    {
      assert samples[..i + 1][..i] == samples[..i];
      groups := AddSample(groups, SamplePairs(samples[..i]), samples[i]);
    }
    assert samples[..|samples|] == samples;
  }

  /** The inner loop of `_samples_per_analysis`: the sample appended under each of its stripped aliases. */
  method AddSample(groups: map<string, seq<EvaSample>>, ghost before: seq<(string, EvaSample)>, sample: EvaSample)
    returns (groups': map<string, seq<EvaSample>>)
    requires groups == GroupBy(before)
    ensures groups' == GroupBy(before + AliasPairs(sample))
  {
    groups' := groups;
    var aliases := sample.analysisAliases;
    assert before + AliasPairs(sample)[..0] == before;
    for j := 0 to |aliases|
      invariant groups' == GroupBy(before + AliasPairs(sample)[..j])
    {
      var key := Strip(aliases[j]);
      var pair := (key, sample);
      assert AliasPairs(sample)[..j + 1] == AliasPairs(sample)[..j] + [pair];
      GroupByAppend(before + AliasPairs(sample)[..j], pair);
      ConcatAssoc(before, AliasPairs(sample)[..j], [pair]);
      groups' := groups'[key := (if key in groups' then groups'[key] else []) + [sample]];
    }
    assert AliasPairs(sample)[..|aliases|] == AliasPairs(sample);
  }

  /** Some alias of `sample` strips to `key`. */
  predicate Names(sample: EvaSample, key: string)
  {
    exists j :: 0 <= j < |sample.analysisAliases| && Strip(sample.analysisAliases[j]) == key
  }

  lemma AliasPairsMembers(sample: EvaSample, key: string, other: EvaSample)
    ensures (key, other) in AliasPairs(sample) <==> other == sample && Names(sample, key)
  {
    if other == sample && Names(sample, key) {
      var j :| 0 <= j < |sample.analysisAliases| && Strip(sample.analysisAliases[j]) == key;
      assert AliasPairs(sample)[j] == (key, other);
    }
  }

  /** A sample is paired with a key exactly when it is one of the samples and one of its aliases strips to that key. */
  lemma {:induction false} SamplePairsMembers(samples: seq<EvaSample>, key: string, sample: EvaSample)
    ensures (key, sample) in SamplePairs(samples) <==> sample in samples && Names(sample, key)
  {
    if samples != [] {
      var init := samples[..|samples| - 1];
      var last := samples[|samples| - 1];
      assert samples == init + [last];
      SamplePairsMembers(init, key, sample);
      AliasPairsMembers(last, key, sample);
    }
  }

  /** Each sample is listed under every stripped alias it names, and only there. */
  lemma SampleListedUnderItsAliases(samples: seq<EvaSample>, key: string, sample: EvaSample)
    ensures (key in GroupBy(SamplePairs(samples)) && sample in GroupBy(SamplePairs(samples))[key]) <==>
      sample in samples && Names(sample, key)
  {
    var pairs := SamplePairs(samples);
    SamplePairsMembers(samples, key, sample);
    ValuesForMembers(pairs, key, sample);
    if (key, sample) in pairs {
      var i :| 0 <= i < |pairs| && pairs[i] == (key, sample);
      assert key in KeysOf(pairs);
    }
  }

  /** The stripped analysis alias of a file, '' when it has none. */
  function FileKey(file: EvaFile): string
  {
    Strip(file.analysisAlias.GetOr(""))
  }

  function FilePairs(files: seq<EvaFile>): seq<(string, EvaFile)>
  {
    seq(|files|, i requires 0 <= i < |files| => (FileKey(files[i]), files[i]))
  }

  /** `_files_per_analysis`: each file is appended to the list of its stripped alias. */
  method FilesPerAnalysis(files: seq<EvaFile>) returns (groups: map<string, seq<EvaFile>>)
    ensures groups == GroupBy(FilePairs(files))
  {
    groups := map[];
    for i := 0 to |files|
      invariant groups == GroupBy(FilePairs(files[..i]))
    {
      var key := FileKey(files[i]);
      assert FilePairs(files[..i + 1]) == FilePairs(files[..i]) + [(key, files[i])];
      GroupByAppend(FilePairs(files[..i]), (key, files[i]));
      groups := groups[key := (if key in groups then groups[key] else []) + [files[i]]];
    }
    assert files[..|files|] == files;
  }

  /** A file is listed under its own stripped alias and under no other. */
  lemma FileListedUnderItsAlias(files: seq<EvaFile>, key: string, file: EvaFile)
    ensures (key in GroupBy(FilePairs(files)) && file in GroupBy(FilePairs(files))[key]) <==>
      exists i :: 0 <= i < |files| && files[i] == file && FileKey(file) == key
  {
    var pairs := FilePairs(files);
    ValuesForMembers(pairs, key, file);
    if (key, file) in pairs {
      var i :| 0 <= i < |pairs| && pairs[i] == (key, file);
      assert key in KeysOf(pairs);
    }
    if exists i :: 0 <= i < |files| && files[i] == file && FileKey(file) == key {
      var i :| 0 <= i < |files| && files[i] == file && FileKey(file) == key;
      assert pairs[i] == (key, file);
    }
  }

  // ---------------------------------------------------------------------
  // existing_project, _project_alias and the submission object

  /**
   * `existing_project`: a non-empty project accession must look like one
   * and exist in ENA, otherwise an assertion fails; an absent one is None.
   */
  function ExistingProject(projectAccession: Option<string>, existsInEna: string -> bool): Result<Option<string>>
  {
    match projectAccession
    case Some(a) =>
      if a != [] && !CheckProjectFormat(a) then Err("AssertionError")
      else if a != [] && !existsInEna(a) then Err("AssertionError")
      else Ok(projectAccession)
    case None => Ok(None)
  }

  /** `_project_alias`, and the submission alias built the same way. */
  function ProjectAlias(existingProject: Option<string>, submissionId: string): string
  {
    match existingProject
    case Some(p) => p + "_" + submissionId
    case None => submissionId
  }

  lemma ProjectAliasFacts(existingProject: Option<string>, submissionId: string, otherId: string)
    ensures EndsWith(ProjectAlias(existingProject, submissionId), submissionId)
    ensures existingProject.Some? ==> StartsWith(ProjectAlias(existingProject, submissionId), existingProject.value + "_")
    ensures existingProject.None? ==> ProjectAlias(existingProject, submissionId) == submissionId
    ensures ProjectAlias(existingProject, submissionId) == ProjectAlias(existingProject, otherId) ==> submissionId == otherId
  {
    var a, b := ProjectAlias(existingProject, submissionId), ProjectAlias(existingProject, otherId);
    if a == b && existingProject.Some? {
      var n := |existingProject.value + "_"|;
      assert a[n..] == submissionId && b[n..] == otherId;
    }
  }

  /** An accession that is present but empty does not stop the conversion, and it still counts as an existing project. */
  lemma EmptyAccessionCountsAsExisting(submissionId: string, existsInEna: string -> bool)
    ensures ExistingProject(Some(""), existsInEna) == Ok(Some(""))
    ensures ProjectAlias(Some(""), submissionId) == "_" + submissionId
  {
  }

  datatype EnaSubmission = EnaSubmission(alias: string, holdUntilDate: string, centreName: Option<string>)

  /**
   * `_create_ena_submission_json_obj`: the alias as for the project, the
   * hold date given in the project or else `defaultHoldDate` (today plus
   * three days), and the centre only when it is non-empty.
   */
  function SubmissionObject(existingProject: Option<string>, submissionId: string, holdDate: Option<string>,
                            centre: Option<string>, defaultHoldDate: string): EnaSubmission
  {
    EnaSubmission(ProjectAlias(existingProject, submissionId),
                  if holdDate.Some? && holdDate.value != [] then holdDate.value else defaultHoldDate,
                  if centre.Some? && centre.value != [] then centre else None)
  }

  lemma SubmissionObjectFacts(existingProject: Option<string>, submissionId: string, holdDate: Option<string>,
                              centre: Option<string>, defaultHoldDate: string)
    ensures var s := SubmissionObject(existingProject, submissionId, holdDate, centre, defaultHoldDate);
      s.alias == ProjectAlias(existingProject, submissionId) &&
      (s.holdUntilDate == defaultHoldDate || (holdDate.Some? && s.holdUntilDate == holdDate.value)) &&
      (holdDate.None? || holdDate == Some("") ==> s.holdUntilDate == defaultHoldDate) &&
      (s.centreName.Some? <==> centre.Some? && centre.value != []) &&
      (s.centreName.Some? ==> s.centreName == centre)
  {
  }
}
