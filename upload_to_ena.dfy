/**
 * Uploading an ELOAD to ENA: the FTP timeout heuristic, which VCF files
 * actually go over FTP, reading the XML and JSON receipts of the submission
 * endpoint, and polling the asynchronous endpoint until it answers.  The FTP
 * listing and sizes, the HTTP answers and the parsed documents are inputs.
 */
module UploadToEna {
  import opened Wrappers
  import opened Text
  import opened JsonValues
  import opened XmlTree

  // ---------------------------------------------------------------------
  // FTP upload

  /** `min(max(int(size / 10**7), 30), 3600)`: ten megabytes a second, between half a minute and an hour. */
  function TimeoutFor(maxSize: nat): (r: int)
    ensures 30 <= r <= 3600
    ensures 30 <= maxSize / 10000000 <= 3600 ==> r == maxSize / 10000000
    ensures maxSize / 10000000 < 30 ==> r == 30
    ensures maxSize / 10000000 > 3600 ==> r == 3600
  {
    var t := maxSize / 10000000;
    var atLeast := if t > 30 then t else 30;
    if atLeast < 3600 then atLeast else 3600
  }

  function MaxOf(sizes: seq<nat>): (m: nat)
    requires sizes != []
    ensures m in sizes && forall s :: s in sizes ==> s <= m
  {
    if |sizes| == 1 then sizes[0]
    else
      var rest := MaxOf(sizes[1..]);
      assert forall s :: s in sizes ==> s == sizes[0] || s in sizes[1..];
      if sizes[0] >= rest then sizes[0] else rest
  }

  /** The connection timeout for a batch of files; `max([])` raises ValueError on an empty batch. */
  function FtpTimeout(sizes: seq<nat>): (r: Result<int>)
    ensures r.Err? <==> sizes == []
    ensures r.Ok? ==> 30 <= r.value <= 3600
  {
    if sizes == [] then Err("ValueError") else Ok(TimeoutFor(MaxOf(sizes)))
  }

  /** A local file to upload: its path and size. */
  datatype LocalFile = LocalFile(path: string, size: nat)

  /** A file is skipped when the directory listing taken before the uploads has it with the same size. */
  predicate AlreadyThere(f: LocalFile, listing: set<string>, remoteSize: map<string, nat>)
  {
    var name := Basename(f.path);
    name in listing && name in remoteSize && remoteSize[name] == f.size
  }

  /** The names sent over FTP, in order. */
  function ToUpload(files: seq<LocalFile>, listing: set<string>, remoteSize: map<string, nat>): (r: seq<string>)
    ensures |r| <= |files|
  {
    if files == [] then []
    else
      var last := files[|files| - 1];
      ToUpload(files[..|files| - 1], listing, remoteSize) +
        (if AlreadyThere(last, listing, remoteSize) then [] else [Basename(last.path)])
  }

  /** Whether the submission directory is created, and which files are stored. */
  datatype FtpSession = FtpSession(createdDirectory: bool, stored: seq<string>)

  /**
   * `upload_vcf_files_to_ena_ftp` once connected: create the submission
   * directory when the root listing lacks it, then store every file not
   * already there with the same size.
   */
  method UploadVcfFiles(submissionId: string, rootListing: set<string>, files: seq<LocalFile>,
                        listing: set<string>, remoteSize: map<string, nat>)
    returns (r: FtpSession)
    ensures r.createdDirectory <==> submissionId !in rootListing
    ensures r.stored == ToUpload(files, listing, remoteSize)
  {
    var stored: seq<string> := [];
    for i := 0 to |files|
      invariant stored == ToUpload(files[..i], listing, remoteSize)
    {
      assert files[..i + 1][..i] == files[..i];
      var name := Basename(files[i].path);
      if name in listing && name in remoteSize && remoteSize[name] == files[i].size {
        continue;
      }
      stored := stored + [name];
    }
    assert files[..|files|] == files;
    r := FtpSession(submissionId !in rootListing, stored);
  }

  /** Each stored name is a file that was not already there; each file not already there is stored. */
  lemma {:induction false} ToUploadMeaning(files: seq<LocalFile>, listing: set<string>, remoteSize: map<string, nat>, name: string)
    ensures name in ToUpload(files, listing, remoteSize) <==>
      exists f :: f in files && Basename(f.path) == name && !AlreadyThere(f, listing, remoteSize)
  {
    if files != [] {
      var init := files[..|files| - 1];
      ToUploadMeaning(init, listing, remoteSize, name);
      assert forall f :: f in files <==> f in init || f == files[|files| - 1];
    }
  }

  // ---------------------------------------------------------------------
  // XML receipt

  /** What a receipt yields: the error messages, the analysis aliases with their accessions, and the other accessioned objects. */
  datatype XmlReceipt = XmlReceipt(errors: seq<Option<string>>, analyses: map<string, string>, accessions: map<string, string>)

  function ErrorTexts(messages: seq<Element>): (r: seq<Option<string>>)
    ensures |r| <= |messages|
  {
    if messages == [] then []
    else (if messages[0].tag == "ERROR" then [messages[0].text] else []) + ErrorTexts(messages[1..])
  }

  /**
   * The accessioned children of the receipt: an ANALYSIS maps its alias to
   * its accession (KeyError without an alias); any other tag maps to its
   * accession; later entries win.
   */
  function Accessioned(children: seq<Element>): Result<(map<string, string>, map<string, string>)>
  {
    if children == [] then Ok((map[], map[]))
    else
      var c := children[|children| - 1];
      match Accessioned(children[..|children| - 1])
      case Err(e) => Err(e)
      case Ok(acc) =>
        if "accession" !in c.attrib then Ok(acc)
        else if c.tag == "ANALYSIS" then
          if "alias" in c.attrib then Ok((acc.0[c.attrib["alias"] := c.attrib["accession"]], acc.1)) else Err("KeyError")
        else Ok((acc.0, acc.1[c.tag := c.attrib["accession"]]))
  }

  /**
   * `parse_ena_xml_receipt`: None stands for a receipt that does not parse,
   * which yields a single error and nothing else.  The first MESSAGES child
   * must exist (IndexError otherwise); its ERROR children are the errors.
   */
  function ParseXmlReceipt(text: string, receipt: Option<Element>): (r: Result<XmlReceipt>)
    ensures receipt.None? ==> r == Ok(XmlReceipt([Some("Cannot parse ENA receipt: " + text)], map[], map[]))
    ensures r.Ok? && receipt.Some? ==> "ANALYSIS" !in r.value.accessions
  {
    match receipt
    case None => Ok(XmlReceipt([Some("Cannot parse ENA receipt: " + text)], map[], map[]))
    case Some(root) =>
      var messages := TagFilter(root.children, "MESSAGES");
      if messages == [] then Err("IndexError")
      else
        match Accessioned(root.children)
        case Err(e) => Err(e)
        case Ok(acc) =>
          AccessionedNeverAnalysis(root.children);
          Ok(XmlReceipt(ErrorTexts(messages[0].children), acc.0, acc.1))
  }

  lemma {:induction false} AccessionedNeverAnalysis(children: seq<Element>)
    ensures Accessioned(children).Ok? ==> "ANALYSIS" !in Accessioned(children).value.1
  {
    if children != [] {
      AccessionedNeverAnalysis(children[..|children| - 1]);
    }
  }

  /** Two receipt children that would write the same entry: two ANALYSIS with one alias, or two other elements with one tag. */
  predicate SameEntry(c: Element, d: Element)
  {
    c.tag == d.tag && (c.tag == "ANALYSIS" ==> Attr(c, "alias") == Attr(d, "alias"))
  }

  /**
   * The receipt entry of a tag is the accession of its last accessioned
   * element, and an analysis alias maps to the accession of the last ANALYSIS
   * with that alias.
   */
  lemma {:induction false} AccessionedLastWins(children: seq<Element>, i: nat)
    requires i < |children| && "accession" in children[i].attrib && Accessioned(children).Ok?
    requires forall j :: i < j < |children| && "accession" in children[j].attrib ==> !SameEntry(children[i], children[j])
    ensures var acc := Accessioned(children).value;
      var c := children[i];
      (c.tag != "ANALYSIS" ==> c.tag in acc.1 && acc.1[c.tag] == c.attrib["accession"]) &&
      (c.tag == "ANALYSIS" ==> "alias" in c.attrib && c.attrib["alias"] in acc.0 && acc.0[c.attrib["alias"]] == c.attrib["accession"])
  {
    var init := children[..|children| - 1];
    if i < |children| - 1 {
      assert init[i] == children[i];
      assert forall j :: i < j < |init| ==> init[j] == children[j];
      AccessionedLastWins(init, i);
    }
  }

  // ---------------------------------------------------------------------
  // JSON receipt

  /** What a JSON receipt yields: errors, and the ANALYSIS, PROJECT and SUBMISSION entries that were found. */
  datatype JsonReceipt = JsonReceipt(errors: seq<Json>, analyses: Option<map<string, string>>, project: Option<Json>, submission: Option<Json>)

  function Failed(text: string): string
  {
    "Cannot parse ENA json receipt: " + text
  }

  /**
   * `messages['error']` as the list `extend` adds (a string adds its
   * characters), or None where Python raises; a dictionary, whose keys
   * `extend` would add, also gives None.
   */
  function MessageErrors(messages: Json): Option<seq<Json>>
  {
    match messages
    case JObj(fields) =>
      if "error" !in fields then Some([])
      else (match fields["error"]
        case JList(items) => Some(items)
        case JStr(s) => Some(seq(|s|, i requires 0 <= i < |s| => JStr([s[i]])))
        case _ => None)
    case JList(items) => if JStr("error") in items then None else Some([])
    case JStr(s) => if Contains(s, "error") then None else Some([])
    case _ => None
  }

  /** `{a['alias']: a['accession'] for a in analyses}`, later analyses winning. */
  function AliasMap(analyses: seq<Json>): Option<map<string, string>>
  {
    if analyses == [] then Some(map[])
    else
      var a := analyses[|analyses| - 1];
      match AliasMap(analyses[..|analyses| - 1])
      case None => None
      case Some(m) =>
        if a.JObj? && "alias" in a.fields && "accession" in a.fields && a.fields["alias"].JStr? && a.fields["accession"].JStr?
        then Some(m[a.fields["alias"].s := a.fields["accession"].s])
        else None
  }

  /** The aliases are exactly those of the analyses, each mapped to the accession of the last analysis with it. */
  lemma {:induction false} AliasMapMeaning(analyses: seq<Json>, alias: string)
    requires AliasMap(analyses).Some?
    ensures forall i :: 0 <= i < |analyses| ==> analyses[i].JObj? && "alias" in analyses[i].fields && analyses[i].fields["alias"].JStr?
    ensures alias in AliasMap(analyses).value <==> exists i :: 0 <= i < |analyses| && analyses[i].fields["alias"] == JStr(alias)
  {
    if analyses != [] {
      var init := analyses[..|analyses| - 1];
      AliasMapMeaning(init, alias);
      assert forall i :: 0 <= i < |init| ==> init[i] == analyses[i];
    }
  }

  function ProjectAccession(projects: Json): Option<Json>
  {
    if projects.JList? && projects.items != [] && projects.items[0].JObj? && "accession" in projects.items[0].fields
    then Some(projects.items[0].fields["accession"]) else None
  }

  function SubmissionAccession(submission: Json): Option<Json>
  {
    if submission.JObj? && "accession" in submission.fields then Some(submission.fields["accession"]) else None
  }

  /**
   * `parse_ena_json_receipt`: None stands for text that is not JSON.  Any
   * failure, parsing included, adds the single message 'Cannot parse ENA json
   * receipt: ' + text after the errors already collected.
   */
  function ParseJsonReceipt(text: string, receipt: Option<Json>): (r: JsonReceipt)
    ensures receipt.None? ==> r == JsonReceipt([JStr(Failed(text))], None, None, None)
    ensures r.analyses.Some? ==> (receipt.Some? && receipt.value.JObj? && "analyses" in receipt.value.fields &&
      receipt.value.fields["analyses"].JList? && r.analyses == AliasMap(receipt.value.fields["analyses"].items))
    ensures r.project.Some? ==> (receipt.Some? && receipt.value.JObj? && "projects" in receipt.value.fields &&
      r.project == ProjectAccession(receipt.value.fields["projects"]))
    ensures receipt.Some? && receipt.value.JObj? && "messages" !in receipt.value.fields ==>
      r == JsonReceipt([JStr(Failed(text))], None, None, None)
    ensures (receipt.Some? && receipt.value.JObj? && "messages" in receipt.value.fields &&
      receipt.value.fields["messages"].JObj? && "error" in receipt.value.fields["messages"].fields &&
      receipt.value.fields["messages"].fields["error"].JList?) ==>
        var items := receipt.value.fields["messages"].fields["error"].items;
        r.errors == items || r.errors == items + [JStr(Failed(text))]
  {
    var failed := JsonReceipt([JStr(Failed(text))], None, None, None);
    if receipt.None? || !receipt.value.JObj? || "messages" !in receipt.value.fields then failed
    else
      var fields := receipt.value.fields;
      match MessageErrors(fields["messages"])
      case None => failed
      case Some(errors) =>
        var analyses := if "analyses" in fields && fields["analyses"].JList? then AliasMap(fields["analyses"].items) else None;
        var project := if "projects" in fields then ProjectAccession(fields["projects"]) else None;
        var submission := if "submission" in fields then SubmissionAccession(fields["submission"]) else None;
        if ("analyses" in fields && analyses.None?) || ("projects" in fields && project.None?) || ("submission" in fields && submission.None?)
        then JsonReceipt(errors + [JStr(Failed(text))], None, None, None)
        else JsonReceipt(errors, analyses, project, submission)
  }

  // ---------------------------------------------------------------------
  // Polling the asynchronous endpoint

  /**
   * The polling loop of `monitor_results`: the `n`-th answer's status is
   * `status(n)`; while it is 202 (accepted, not processed), time out once more
   * than `timeout` seconds have been waited, otherwise wait and ask again.
   */
  function Poll(status: nat -> int, n: nat, lapsed: int, timeout: int, wait: nat): Result<nat>
    requires wait > 0
    decreases if lapsed > timeout then 0 else timeout - lapsed + 1
  {
    if status(n) != 202 then Ok(n)
    else if lapsed > timeout then Err("TimeoutError")
    else Poll(status, n + 1, lapsed + wait, timeout, wait)
  }

  /** The number of the last answer that may still come back 202 without timing out. */
  function LastPoll(timeout: int, wait: nat): nat
    requires wait > 0
  {
    if timeout < 0 then 0 else timeout / wait + 1
  }

  /**
   * Polling times out exactly when the answers up to the first one asked
   * after more than `timeout` seconds are all 202; otherwise it ends at the
   * first answer that is not 202.
   */
  lemma {:induction false} PollMeaning(status: nat -> int, n: nat, timeout: int, wait: nat)
    requires wait > 0 && n <= LastPoll(timeout, wait)
    ensures var r := Poll(status, n, n * wait, timeout, wait);
      (r.Err? <==> forall k :: n <= k <= LastPoll(timeout, wait) ==> status(k) == 202) &&
      (r.Ok? ==> (n <= r.value <= LastPoll(timeout, wait) && status(r.value) != 202 &&
        forall k :: n <= k < r.value ==> status(k) == 202))
    decreases LastPoll(timeout, wait) - n
  {
    if status(n) != 202 {
    } else if n * wait > timeout {
      assert n == LastPoll(timeout, wait) by { LastPollIsFirstLate(n, timeout, wait); }
    } else {
      LastPollIsFirstLate(n, timeout, wait);
      assert (n + 1) * wait == n * wait + wait;
      PollMeaning(status, n + 1, timeout, wait);
    }
  }

  lemma LastPollIsFirstLate(n: nat, timeout: int, wait: nat)
    requires wait > 0 && n <= LastPoll(timeout, wait)
    ensures n * wait > timeout <==> n == LastPoll(timeout, wait)
  {
    if timeout >= 0 {
      var q := timeout / wait;
      assert q * wait <= timeout < (q + 1) * wait;
      if n <= q {
        assert n * wait <= q * wait;
      }
    }
  }

  /** `monitor_results`' loop over the successive answers of the poll link. */
  method MonitorResults(status: nat -> int, timeout: int, wait: nat) returns (r: Result<nat>)
    requires wait > 0
    ensures r == Poll(status, 0, 0, timeout, wait)
  {
    var n: nat := 0;
    var lapsed := 0;
    while status(n) == 202
      invariant lapsed == n * wait
      invariant Poll(status, n, lapsed, timeout, wait) == Poll(status, 0, 0, timeout, wait)
      decreases if lapsed > timeout then 0 else timeout - lapsed + 1
    {
      if lapsed > timeout {
        return Err("TimeoutError");
      }
      lapsed := lapsed + wait;
      n := n + 1;
    }
    r := Ok(n);
  }
}
