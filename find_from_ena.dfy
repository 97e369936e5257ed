/**
 * Reading what ENA holds about a project: the action a submission performed
 * and its hold date, the study description with its fallback to the project
 * description, the analysis description and types, and the sample alias
 * lookup split into chunks.  The database and portal queries are inputs: the
 * XML documents as parsed trees, the portal search as a function.
 */
module FindFromEna {
  import opened Wrappers
  import opened XmlTree

  // ---------------------------------------------------------------------
  // Submission actions

  /** An action: the tag of the ACTION child, and its `schema` and `source` attributes where present. */
  datatype Action = Action(kind: string, schema: Option<string>, source: Option<string>)

  function ActionOf(child: Element): (a: Action)
    ensures a.kind == child.tag
    ensures a.schema.Some? <==> "schema" in child.attrib
    ensures a.source.Some? <==> "source" in child.attrib
  {
    Action(child.tag, Attr(child, "schema"), Attr(child, "source"))
  }

  /** The children of every ACTION element, in document order. */
  function ActionChildren(actions: seq<Element>): seq<Element>
  {
    if actions == [] then [] else actions[0].children + ActionChildren(actions[1..])
  }

  /** The actions the children describe: every child that is not a HOLD. */
  function Actions(children: seq<Element>): (r: seq<Action>)
    ensures forall a :: a in r ==> a.kind != "HOLD"
    ensures forall a :: a in r <==> exists c :: c in children && c.tag != "HOLD" && a == ActionOf(c)
  {
    if children == [] then []
    else
      var rest := Actions(children[1..]);
      assert forall c :: c in children[1..] ==> c in children;
      assert forall c :: c in children ==> c == children[0] || c in children[1..];
      (if children[0].tag == "HOLD" then [] else [ActionOf(children[0])]) + rest
  }

  /** The hold date: the `HoldUntilDate` of the last HOLD child, None when there is none. */
  function HoldDate(children: seq<Element>): Option<string>
  {
    if children == [] then None
    else
      var last := children[|children| - 1];
      if last.tag == "HOLD" then Attr(last, "HoldUntilDate") else HoldDate(children[..|children| - 1])
  }

  /** The hold date comes from a HOLD child, and no later child is a HOLD. */
  lemma {:induction false} HoldDateFromLastHold(children: seq<Element>)
    ensures HoldDate(children).Some? ==> exists i :: (0 <= i < |children| && children[i].tag == "HOLD" &&
      HoldDate(children) == Attr(children[i], "HoldUntilDate") &&
      forall j :: i < j < |children| ==> children[j].tag != "HOLD")
  {
    if children != [] && children[|children| - 1].tag != "HOLD" {
      var init := children[..|children| - 1];
      HoldDateFromLastHold(init);
      if HoldDate(init).Some? {
        var i :| 0 <= i < |init| && init[i].tag == "HOLD" && HoldDate(init) == Attr(init[i], "HoldUntilDate") &&
          forall j :: i < j < |init| ==> init[j].tag != "HOLD";
        assert children[i] == init[i];
        assert forall j :: i < j < |init| ==> children[j] == init[j];
      }
    }
  }

  function WithSchema(actions: seq<Action>, schema: string): seq<Action>
  {
    if actions == [] then []
    else (if actions[0].schema == Some(schema) then [actions[0]] else []) + WithSchema(actions[1..], schema)
  }

  function Others(actions: seq<Action>): seq<Action>
  {
    if actions == [] then []
    else
      (if actions[0].schema != Some("project") && actions[0].schema != Some("analysis") then [actions[0]] else [])
      + Others(actions[1..])
  }

  /** The action a submission stands for: its first project action, else its first analysis action, else its first other action. */
  function ChooseAction(actions: seq<Action>): Option<Action>
  {
    var project, analysis, other := WithSchema(actions, "project"), WithSchema(actions, "analysis"), Others(actions);
    if project != [] then Some(project[0])
    else if analysis != [] then Some(analysis[0])
    else if other != [] then Some(other[0])
    else None
  }

  /** The index of the first action with the schema, if any. */
  function FirstWith(actions: seq<Action>, schema: string): (r: Option<nat>)
    ensures r.Some? ==> (r.value < |actions| && actions[r.value].schema == Some(schema) &&
      forall j :: 0 <= j < r.value ==> actions[j].schema != Some(schema))
    ensures r.None? ==> forall j :: 0 <= j < |actions| ==> actions[j].schema != Some(schema)
  {
    if actions == [] then None
    else if actions[0].schema == Some(schema) then Some(0)
    else match FirstWith(actions[1..], schema)
      case None => None
      case Some(i) => Some(i + 1)
  }

  lemma {:induction false} WithSchemaFirst(actions: seq<Action>, schema: string)
    ensures WithSchema(actions, schema) == [] <==> FirstWith(actions, schema).None?
    ensures WithSchema(actions, schema) != [] ==> WithSchema(actions, schema)[0] == actions[FirstWith(actions, schema).value]
  {
    if actions != [] {
      WithSchemaFirst(actions[1..], schema);
    }
  }

  lemma {:induction false} OthersFirst(actions: seq<Action>)
    requires FirstWith(actions, "project").None? && FirstWith(actions, "analysis").None?
    ensures Others(actions) == actions
  {
    if actions != [] {
      assert actions[0].schema != Some("project") && actions[0].schema != Some("analysis");
      OthersFirst(actions[1..]);
    }
  }

  /**
   * The chosen action is the first project action when there is one; failing
   * that the first analysis action; failing that the first action; and there
   * is none only when there are no actions.
   */
  lemma ChooseActionPriority(actions: seq<Action>)
    ensures var r := ChooseAction(actions);
      (r.None? <==> actions == []) &&
      (FirstWith(actions, "project").Some? ==> r == Some(actions[FirstWith(actions, "project").value])) &&
      (FirstWith(actions, "project").None? && FirstWith(actions, "analysis").Some? ==>
        r == Some(actions[FirstWith(actions, "analysis").value])) &&
      (FirstWith(actions, "project").None? && FirstWith(actions, "analysis").None? && actions != [] ==>
        r == Some(actions[0]))
  {
    WithSchemaFirst(actions, "project");
    WithSchemaFirst(actions, "analysis");
    if FirstWith(actions, "project").None? && FirstWith(actions, "analysis").None? {
      OthersFirst(actions);
    }
    if actions != [] && FirstWith(actions, "project").None? && FirstWith(actions, "analysis").Some? {
      assert WithSchema(actions, "analysis") != [];
    }
  }

  /** What `_parse_actions_and_alias_from_submission_xml` returns: the alias, the hold date and the action. */
  datatype SubmissionActions = SubmissionActions(alias: Option<string>, holdDate: Option<string>, action: Option<Action>)

  function ParseSubmission(root: Element): (r: SubmissionActions)
    ensures r.action.Some? ==> r.action.value.kind != "HOLD"
  {
    var submission := FindFirst(root, "SUBMISSION");
    var children := ActionChildren(FindAll(root, "ACTION"));
    var actions := Actions(children);
    ChooseActionIn(actions);
    SubmissionActions(
      if submission.Some? then Attr(submission.value, "alias") else None,
      HoldDate(children),
      ChooseAction(actions))
  }

  lemma ChooseActionIn(actions: seq<Action>)
    ensures ChooseAction(actions).Some? ==> ChooseAction(actions).value in actions
  {
    ChooseActionPriority(actions);
    if FirstWith(actions, "project").Some? {
      assert actions[FirstWith(actions, "project").value] in actions;
    } else if FirstWith(actions, "analysis").Some? {
      assert actions[FirstWith(actions, "analysis").value] in actions;
    }
  }

  // ---------------------------------------------------------------------
  // Descriptions

  /**
   * `_parse_study_description_from_xml` and its project counterpart: the text
   * of the element at `path` below the root, '' when the document is absent
   * (None, '' or 'None') or has no such element; None when the element has no text.
   */
  function DescriptionAt(doc: Option<Element>, path: seq<string>): Option<string>
  {
    match doc
    case None => Some("")
    case Some(root) =>
      match FindPath(root, path)
      case None => Some("")
      case Some(e) => e.text
  }

  const StudyDescriptionPath: seq<string> := ["STUDY", "DESCRIPTOR", "STUDY_DESCRIPTION"]
  const ProjectDescriptionPath: seq<string> := ["PROJECT", "DESCRIPTION"]

  /** Python truthiness of an optional string. */
  predicate Present(s: Option<string>)
  {
    s.Some? && s.value != ""
  }

  /** The study description of a project, falling back to the project description when it is empty. */
  function StudyDescription(studyXml: Option<Element>, projectXml: Option<Element>): (r: Option<string>)
    ensures Present(DescriptionAt(studyXml, StudyDescriptionPath)) ==> r == DescriptionAt(studyXml, StudyDescriptionPath)
    ensures !Present(DescriptionAt(studyXml, StudyDescriptionPath)) ==> r == DescriptionAt(projectXml, ProjectDescriptionPath)
    ensures studyXml.None? && projectXml.None? ==> r == Some("")
  {
    var study := DescriptionAt(studyXml, StudyDescriptionPath);
    if Present(study) then study else DescriptionAt(projectXml, ProjectDescriptionPath)
  }

  /** The texts of the children of `e` with the tag, as a set. */
  function ChildTexts(e: Element, tag: string): set<Option<string>>
  {
    set c | c in e.children && c.tag == tag :: c.text
  }

  function GrandchildTexts(types: seq<Element>, tag: string): set<Option<string>>
  {
    if types == [] then {} else ChildTexts(types[0], tag) + GrandchildTexts(types[1..], tag)
  }

  /** The description and the experiment types and platforms named under the first ANALYSIS_TYPE. */
  datatype AnalysisInfo = AnalysisInfo(description: Option<string>, experimentTypes: set<Option<string>>, platforms: set<Option<string>>)

  function ParseAnalysis(root: Element): (r: AnalysisInfo)
    ensures FindFirst(root, "ANALYSIS_TYPE").None? ==> r.experimentTypes == {} && r.platforms == {}
  {
    var description := match FindFirst(root, "DESCRIPTION") case None => None case Some(d) => d.text;
    match FindFirst(root, "ANALYSIS_TYPE")
    case None => AnalysisInfo(description, {}, {})
    case Some(t) =>
      AnalysisInfo(description, GrandchildTexts(t.children, "EXPERIMENT_TYPE"), GrandchildTexts(t.children, "PLATFORM"))
  }

  /** An experiment type is listed exactly when some child of the first ANALYSIS_TYPE has an EXPERIMENT_TYPE child with that text. */
  lemma {:induction false} GrandchildTextsMeaning(types: seq<Element>, tag: string, x: Option<string>)
    ensures x in GrandchildTexts(types, tag) <==>
      exists i, c :: 0 <= i < |types| && c in types[i].children && c.tag == tag && c.text == x
  {
    if types != [] {
      GrandchildTextsMeaning(types[1..], tag, x);
      if x in GrandchildTexts(types[1..], tag) {
        var i, c :| 0 <= i < |types[1..]| && c in types[1..][i].children && c.tag == tag && c.text == x;
        assert types[i + 1] == types[1..][i];
      }
      if exists i, c :: 0 <= i < |types| && c in types[i].children && c.tag == tag && c.text == x {
        var i, c :| 0 <= i < |types| && c in types[i].children && c.tag == tag && c.text == x;
        if i > 0 {
          assert types[1..][i - 1] == types[i];
        } else {
          assert x in ChildTexts(types[0], tag);
        }
      }
    }
  }

  // ---------------------------------------------------------------------
  // Sample aliases, by chunks of accessions

  const ChunkSize: nat := 100

  /** The accession list cut into consecutive chunks of at most `size`. */
  function Chunks(accessions: seq<string>, size: nat): (r: seq<seq<string>>)
    requires size > 0
    ensures forall c :: c in r ==> 0 < |c| <= size
    decreases |accessions|
  {
    if accessions == [] then []
    else if |accessions| <= size then [accessions]
    else [accessions[..size]] + Chunks(accessions[size..], size)
  }

  function Flatten<T>(xss: seq<seq<T>>): seq<T>
  {
    if xss == [] then [] else xss[0] + Flatten(xss[1..])
  }

  /** Putting the chunks back together gives the accession list. */
  lemma {:induction false} ChunksFlatten(accessions: seq<string>, size: nat)
    requires size > 0
    ensures Flatten(Chunks(accessions, size)) == accessions
    decreases |accessions|
  {
    if |accessions| > size {
      ChunksFlatten(accessions[size..], size);
      assert accessions[..size] + accessions[size..] == accessions;
    }
  }

  /** The answers of the portal search for each chunk, concatenated. */
  function ChunkAnswers(chunks: seq<seq<string>>, search: seq<string> -> seq<(string, string)>): seq<(string, string)>
  {
    if chunks == [] then [] else search(chunks[0]) + ChunkAnswers(chunks[1..], search)
  }

  /**
   * `find_sample_aliases_per_accessions`: one portal search per chunk of 100
   * accessions, the (accession, alias) answers concatenated in order.
   */
  method FindSampleAliasesPerAccessions(accessions: seq<string>, search: seq<string> -> seq<(string, string)>)
    returns (results: seq<(string, string)>)
    ensures results == ChunkAnswers(Chunks(accessions, ChunkSize), search)
  {
    assert accessions[0..] == accessions;
    results := [];
    var i := 0;
    while i < |accessions|
      invariant 0 <= i <= |accessions|
      invariant results + Pending(accessions[i..], search) == Pending(accessions, search)
      decreases |accessions| - i
    {
      var end := if i + ChunkSize <= |accessions| then i + ChunkSize else |accessions|;
      var chunk := accessions[i..end];
      ChunkAnswersStep(accessions, i, end, search);
      results := results + search(chunk);
      i := end;
    }
    assert accessions[i..] == [];
  }

  /** The answers still to come for the accessions not yet searched. */
  ghost function Pending(rest: seq<string>, search: seq<string> -> seq<(string, string)>): seq<(string, string)>
  {
    ChunkAnswers(Chunks(rest, ChunkSize), search)
  }

  lemma ChunkAnswersStep(accessions: seq<string>, i: nat, end: nat, search: seq<string> -> seq<(string, string)>)
    requires i < end <= |accessions| && end == (if i + ChunkSize <= |accessions| then i + ChunkSize else |accessions|)
    ensures Pending(accessions[i..], search) == search(accessions[i..end]) + Pending(accessions[end..], search)
  {
    ChunksStep(accessions[i..], ChunkSize);
    assert accessions[i..][..end - i] == accessions[i..end];
    assert accessions[i..][end - i..] == accessions[end..];
  }

  lemma ChunksStep(rest: seq<string>, size: nat)
    requires size > 0 && rest != []
    ensures var n := if size <= |rest| then size else |rest|;
      Chunks(rest, size) == [rest[..n]] + Chunks(rest[n..], size)
  {
    if |rest| <= size {
      assert rest[..|rest|] == rest;
    }
  }
}
