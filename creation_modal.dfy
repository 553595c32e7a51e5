/** The two-level topic tree of the structure editor and its three
    editors. Each editor works on a deep copy of the structure it is given
    and hands the copy back, so here each one is a function from the old
    tree value to the new one. */
module StructureTree {
  import opened Wrappers
  import opened SeqEdit

  /** A subtopic. The generated ones carry no id; added ones do. */
  datatype Child = Child(title: string, id: Option<int>)

  /** A topic with its optional list of subtopics. */
  datatype Topic = Topic(title: string, id: int, children: Option<seq<Child>>)

  const NewItemTitle := "Novo Tópico"

  /** The subtopics of `t`, an absent list read as empty. */
  function Kids(t: Topic): seq<Child> {
    if t.children.Some? then t.children.value else []
  }

  /** The item `idx` (when `subIdx` is None) or its child `subIdx` exists. */
  predicate IsAddress(s: seq<Topic>, idx: nat, subIdx: Option<nat>) {
    idx < |s| && (subIdx.Some? ==> s[idx].children.Some? && subIdx.value < |s[idx].children.value|)
  }

  function TitleAt(s: seq<Topic>, idx: nat, subIdx: Option<nat>): string
    requires IsAddress(s, idx, subIdx)
  {
    if subIdx.None? then s[idx].title else s[idx].children.value[subIdx.value].title
  }

  /** The tree with every title blanked: what is left is its shape and ids. */
  function Skeleton(s: seq<Topic>): seq<Topic> {
    seq(|s|, i requires 0 <= i < |s| => SkeletonTopic(s[i]))
  }

  function SkeletonTopic(t: Topic): Topic {
    Topic("", t.id, if t.children.Some? then Some(SkeletonKids(t.children.value)) else None)
  }

  function SkeletonKids(kids: seq<Child>): seq<Child> {
    seq(|kids|, j requires 0 <= j < |kids| => kids[j].(title := ""))
  }

  /** `handleTitleChange(newTitle, idx, subIdx)`. */
  function Retitled(s: seq<Topic>, newTitle: string, idx: nat, subIdx: Option<nat>): seq<Topic>
    requires IsAddress(s, idx, subIdx)
  {
    match subIdx
    case None => s[idx := s[idx].(title := newTitle)]
    case Some(c) =>
      var kids := s[idx].children.value;
      s[idx := s[idx].(children := Some(kids[c := kids[c].(title := newTitle)]))]
  }

  /** Renaming changes the title at the given address and no other title,
      and leaves the shape and the ids of the tree as they were. */
  lemma RetitledChangesOneTitle(s: seq<Topic>, newTitle: string, idx: nat, subIdx: Option<nat>)
    requires IsAddress(s, idx, subIdx)
    ensures var r := Retitled(s, newTitle, idx, subIdx);
      Skeleton(r) == Skeleton(s)
      && (forall i: nat, c: Option<nat> {:trigger IsAddress(s, i, c)} :: IsAddress(s, i, c) <==> IsAddress(r, i, c))
      && TitleAt(r, idx, subIdx) == newTitle
      && forall i: nat, c: Option<nat> {:trigger IsAddress(s, i, c)} :: IsAddress(s, i, c) && (i, c) != (idx, subIdx) ==> TitleAt(r, i, c) == TitleAt(s, i, c)
  {
    var r := Retitled(s, newTitle, idx, subIdx);
    assert |Skeleton(r)| == |Skeleton(s)|;
    forall i | 0 <= i < |s| ensures SkeletonTopic(r[i]) == SkeletonTopic(s[i]) {
      if i == idx && subIdx.Some? {
        var kids := s[idx].children.value;
        var rk := r[idx].children.value;
        assert |rk| == |kids|;
        assert SkeletonKids(rk) == SkeletonKids(kids);
      }
    }
  }

  /** Renaming back to the old title undoes a rename. */
  lemma RetitleBack(s: seq<Topic>, newTitle: string, idx: nat, subIdx: Option<nat>)
    requires IsAddress(s, idx, subIdx)
    ensures IsAddress(Retitled(s, newTitle, idx, subIdx), idx, subIdx)
    ensures Retitled(Retitled(s, newTitle, idx, subIdx), TitleAt(s, idx, subIdx), idx, subIdx) == s
  {
    var r := Retitled(s, newTitle, idx, subIdx);
    if subIdx.Some? {
      var c := subIdx.value;
      var kids := s[idx].children.value;
      var rk := r[idx].children.value;
      assert rk == kids[c := kids[c].(title := newTitle)];
      assert rk[c := rk[c].(title := kids[c].title)] == kids;
      assert r[idx].(children := Some(kids)) == s[idx];
    } else {
      assert r[idx].(title := s[idx].title) == s[idx];
    }
  }

  /** `addItem(pIdx)`: a new item titled 'Novo Tópico' with id `newId`,
      appended at the top level, or to the children of item `pIdx`, whose
      list is created when absent. */
  function WithItemAdded(s: seq<Topic>, pIdx: Option<nat>, newId: int): seq<Topic>
    requires pIdx.Some? ==> pIdx.value < |s|
  {
    match pIdx
    case None => s + [Topic(NewItemTitle, newId, None)]
    case Some(p) => s[p := s[p].(children := Some(Kids(s[p]) + [Child(NewItemTitle, Some(newId))]))]
  }

  /** `removeItem(pIdx, cIdx)`: drops item `pIdx`, or only its child `cIdx`. */
  function WithItemRemoved(s: seq<Topic>, pIdx: nat, cIdx: Option<nat>): seq<Topic>
    requires IsAddress(s, pIdx, cIdx)
  {
    match cIdx
    case None => RemoveAt(s, pIdx)
    case Some(c) => s[pIdx := s[pIdx].(children := Some(RemoveAt(s[pIdx].children.value, c)))]
  }

  /** A top-level add puts one 'Novo Tópico' item at the end and keeps the
      rest; removing that last item gives the old tree back. */
  lemma AddTopLevelThenRemove(s: seq<Topic>, newId: int)
    ensures var r := WithItemAdded(s, None, newId);
      |r| == |s| + 1 && r[..|s|] == s && r[|s|].title == NewItemTitle
      && IsAddress(r, |s|, None) && WithItemRemoved(r, |s|, None) == s
  {
    var r := WithItemAdded(s, None, newId);
    assert r[..|s|] == s;
    assert RemoveAt(r, |s|) == r[..|s|] + r[|s| + 1..];
  }

  /** Adding a child to item `p` touches only that item: its title and id
      stay, one 'Novo Tópico' child is appended to its (possibly new) list,
      and removing that child again leaves the tree as before, except that
      a list that was absent is now present and empty. */
  lemma AddChildThenRemove(s: seq<Topic>, p: nat, newId: int)
    requires p < |s|
    ensures var r := WithItemAdded(s, Some(p), newId);
      |r| == |s| && (forall i :: 0 <= i < |s| && i != p ==> r[i] == s[i])
      && r[p].title == s[p].title && r[p].id == s[p].id
      && r[p].children.Some? && r[p].children.value == Kids(s[p]) + [Child(NewItemTitle, Some(newId))]
      && IsAddress(r, p, Some(|Kids(s[p])|))
      && WithItemRemoved(r, p, Some(|Kids(s[p])|)) == s[p := s[p].(children := Some(Kids(s[p])))]
  {
    var kids := Kids(s[p]) + [Child(NewItemTitle, Some(newId))];
    RemoveInsert(Kids(s[p]), |Kids(s[p])|, Child(NewItemTitle, Some(newId)));
    assert InsertAt(Kids(s[p]), |Kids(s[p])|, Child(NewItemTitle, Some(newId))) == kids;
  }

  /** Removing a top-level item keeps the others in order; putting it back
      at its position restores the tree. */
  lemma RemoveTopLevel(s: seq<Topic>, p: nat)
    requires p < |s|
    ensures var r := WithItemRemoved(s, p, None);
      |r| == |s| - 1
      && (forall j :: 0 <= j < |r| ==> r[j] == s[if j < p then j else j + 1])
      && InsertAt(r, p, s[p]) == s
  {
    InsertRemove(s, p);
  }

  /** Removing a child touches only its parent's child list, which loses
      exactly that child and keeps the others in order. */
  lemma RemoveChild(s: seq<Topic>, p: nat, c: nat)
    requires IsAddress(s, p, Some(c))
    ensures var r := WithItemRemoved(s, p, Some(c));
      |r| == |s| && (forall i :: 0 <= i < |s| && i != p ==> r[i] == s[i])
      && r[p].title == s[p].title && r[p].id == s[p].id && r[p].children.Some?
      && InsertAt(r[p].children.value, c, s[p].children.value[c]) == s[p].children.value
  {
    InsertRemove(s[p].children.value, c);
  }

  /** A topic as the structure generator returns it: no id yet. */
  datatype Draft = Draft(title: string, children: Option<seq<Child>>)

  /** `tech.map((t, i) => ({ ...t, id: Date.now() + i }))`. The clock is
      read anew for every topic: `clock[i]` is the reading taken while
      topic `i` is mapped. */
  function Stamped(tech: seq<Draft>, clock: seq<int>): (r: seq<Topic>)
    requires |clock| == |tech|
    ensures |r| == |tech|
    ensures forall i :: 0 <= i < |r| ==> r[i] == Topic(tech[i].title, clock[i] + i, tech[i].children)
  {
    seq(|tech|, i requires 0 <= i < |tech| => Topic(tech[i].title, clock[i] + i, tech[i].children))
  }

  /** A clock that never runs backwards gives the generated topics strictly
      increasing, hence pairwise different, ids. */
  lemma StampedIdsDistinct(tech: seq<Draft>, clock: seq<int>)
    requires |clock| == |tech|
    requires forall i, j :: 0 <= i <= j < |clock| ==> clock[i] <= clock[j]
    ensures forall i, j :: 0 <= i < j < |tech| ==> Stamped(tech, clock)[i].id < Stamped(tech, clock)[j].id
    ensures forall i, j :: 0 <= i < j < |tech| ==> Stamped(tech, clock)[i].id != Stamped(tech, clock)[j].id
  {
    var r := Stamped(tech, clock);
    forall i, j | 0 <= i < j < |tech| ensures r[i].id < r[j].id {
      assert clock[i] <= clock[j];
    }
  }

  /** The ids rely on the clock: a reading that goes back by one gives two
      topics the same id. */
  lemma StampedIdsCollideOnBackwardClock(a: Draft, b: Draft, t: int)
    ensures Stamped([a, b], [t, t - 1])[0].id == Stamped([a, b], [t, t - 1])[1].id
  {
  }
}

/** The creation dialog: the state fields the dialog keeps and the steps
    its two generation actions take. The remote generation calls are not
    part of the model: their outcomes are parameters of the methods that
    continue after them. */
module CreationDialog {
  import opened Wrappers
  import opened Text
  import opened SeqEdit
  import opened TeamContext
  import opened StructureTree
  import opened SourceDedup

  datatype Step = Form | Loading | Review | Generating

  const BlankNameError := "Por favor, informe o nome do projeto."
  const AnalysingMessage := "Analisando arquitetura (Gemini 3 Pro Reasoning)..."
  const AnalysisErrorPrefix := "Erro ao analisar: "
  const WritingErrorPrefix := "Erro na escrita final: "

  /** The document the final generation returns. */
  datatype GeneratedDocument = GeneratedDocument(title: string, content: string, sources: seq<Source>)

  /** The type tag of an uploaded file: 'json' exactly for names ending
      in ".json". */
  function FileKindOf(name: string): (k: FileKind)
    ensures k == Json <==> EndsWith(name, ".json")
  {
    if EndsWith(name, ".json") then Json else PlainText
  }

  /** The step changes the dialog makes: form to loading, loading to review
      or back to form, review to generating and generating back to review. */
  predicate Allowed(from: Step, to: Step) {
    from == to
    || (from == Form && to == Loading) || (from == Loading && to == Review)
    || (from == Loading && to == Form) || (from == Review && to == Generating)
    || (from == Generating && to == Review)
  }

  class CreationModal {
    var projectName: string
    var description: string
    var technicalStructure: seq<Topic>
    var generationStep: Step
    var loadingMessage: string
    var streamingContent: string
    var error: string
    var teamData: TeamData

    /** Once the dialog has left the form, the project has a non-blank
        name, which can no longer change. The dialog never puts a
        description into `teamData`: the one typed in is kept in its own
        field. */
    predicate Valid()
      reads this
    {
      (generationStep != Form ==> Trim(projectName) != "") && |teamData.description| == 0
    }

    constructor ()
      ensures Valid()
      ensures projectName == "" && description == "" && technicalStructure == []
      ensures generationStep == Form && loadingMessage == "" && streamingContent == "" && error == ""
      ensures teamData == TeamData("", [], "")
    {
      projectName := "";
      description := "";
      technicalStructure := [];
      generationStep := Form;
      loadingMessage := "";
      streamingContent := "";
      error := "";
      teamData := TeamData("", [], "");
    }

    /** The project-name input, shown only on the form. */
    method SetProjectName(name: string)
      requires Valid() && generationStep == Form
      modifies this
      ensures Valid()
      ensures projectName == name
      ensures unchanged(this`description, this`technicalStructure, this`generationStep, this`loadingMessage)
      ensures unchanged(this`streamingContent, this`error, this`teamData)
    {
      projectName := name;
    }

    /** The description textarea. */
    method SetDescription(text: string)
      requires Valid()
      modifies this
      ensures Valid()
      ensures description == text && teamData == old(teamData)
      ensures unchanged(this`projectName, this`technicalStructure, this`generationStep, this`loadingMessage)
      ensures unchanged(this`streamingContent, this`error)
    {
      description := text;
    }

    /** The pasted-code textarea: only `pastedCode` of `teamData` changes. */
    method SetPastedCode(code: string)
      requires Valid()
      modifies this
      ensures Valid()
      ensures teamData == old(teamData).(pastedCode := code)
      ensures unchanged(this`projectName, this`description, this`technicalStructure, this`generationStep)
      ensures unchanged(this`loadingMessage, this`streamingContent, this`error)
    {
      teamData := teamData.(pastedCode := code);
    }

    /** The reader callback of `handleFileUpload` for one file: the file is
        appended with the type its name calls for. */
    method AddUploadedFile(name: string, content: string)
      requires Valid()
      modifies this
      ensures Valid()
      ensures teamData == old(teamData).(uploadedFiles := old(teamData).uploadedFiles + [UploadedFile(name, content, FileKindOf(name))])
      ensures unchanged(this`projectName, this`description, this`technicalStructure, this`generationStep)
      ensures unchanged(this`loadingMessage, this`streamingContent, this`error)
    {
      teamData := teamData.(uploadedFiles := teamData.uploadedFiles + [UploadedFile(name, content, FileKindOf(name))]);
    }

    /** `removeFile(index)`. */
    method RemoveFile(index: int)
      requires Valid()
      modifies this
      ensures Valid()
      ensures teamData == old(teamData).(uploadedFiles := WithoutIndex(old(teamData).uploadedFiles, index))
      ensures 0 <= index < |old(teamData).uploadedFiles| ==> teamData.uploadedFiles == RemoveAt(old(teamData).uploadedFiles, index)
      ensures !(0 <= index < |old(teamData).uploadedFiles|) ==> teamData == old(teamData)
      ensures unchanged(this`projectName, this`description, this`technicalStructure, this`generationStep)
      ensures unchanged(this`loadingMessage, this`streamingContent, this`error)
    {
      WithoutIndexIsRemoveAt(teamData.uploadedFiles, index);
      teamData := teamData.(uploadedFiles := WithoutIndex(teamData.uploadedFiles, index));
    }

    /** The first half of `handleGenerateStructures`, up to the remote call:
        a blank name only sets the error; otherwise the error is cleared and
        the dialog shows the loading step. */
    method StartStructures() returns (started: bool)
      requires Valid() && generationStep == Form
      modifies this
      ensures Valid() && Allowed(old(generationStep), generationStep)
      ensures started <==> Trim(projectName) != ""
      ensures !started ==> error == BlankNameError && generationStep == Form
      ensures started ==> error == "" && generationStep == Loading && loadingMessage == AnalysingMessage
      ensures unchanged(this`projectName, this`description, this`technicalStructure, this`teamData, this`streamingContent)
    {
      if Trim(projectName) == "" {
        error := BlankNameError;
        return false;
      }
      error := "";
      generationStep := Loading;
      loadingMessage := AnalysingMessage;
      started := true;
    }

    /** The rest of `handleGenerateStructures`, once the structure call has
        answered (`outcome`): the topics are stamped with ids from the clock
        readings `clock`, one per topic, and reviewed, or the error is shown
        back on the form. */
    method FinishStructures(outcome: Result<seq<Draft>, string>, clock: seq<int>)
      requires Valid() && generationStep == Loading
      requires outcome.Ok? ==> |clock| == |outcome.value|
      modifies this
      ensures Valid() && Allowed(old(generationStep), generationStep)
      ensures outcome.Ok? ==> technicalStructure == Stamped(outcome.value, clock) && generationStep == Review && error == old(error)
      ensures outcome.Err? ==> error == AnalysisErrorPrefix + outcome.error && generationStep == Form && technicalStructure == old(technicalStructure)
      ensures unchanged(this`projectName, this`description, this`teamData, this`streamingContent, this`loadingMessage)
    {
      match outcome
      case Ok(tech) =>
        technicalStructure := Stamped(tech, clock);
        generationStep := Review;
      case Err(message) =>
        error := AnalysisErrorPrefix + message;
        generationStep := Form;
    }

    /** `handleTitleChange` through `setTechnicalStructure`. */
    method ChangeTitle(newTitle: string, idx: nat, subIdx: Option<nat>)
      requires Valid() && IsAddress(technicalStructure, idx, subIdx)
      modifies this
      ensures Valid()
      ensures technicalStructure == Retitled(old(technicalStructure), newTitle, idx, subIdx)
      ensures unchanged(this`projectName, this`description, this`generationStep, this`teamData)
      ensures unchanged(this`loadingMessage, this`streamingContent, this`error)
    {
      technicalStructure := Retitled(technicalStructure, newTitle, idx, subIdx);
    }

    /** `addItem` through `setTechnicalStructure`; `newId` is the clock
        reading used as the new item's id. */
    method AddItem(pIdx: Option<nat>, newId: int)
      requires Valid() && (pIdx.Some? ==> pIdx.value < |technicalStructure|)
      modifies this
      ensures Valid()
      ensures technicalStructure == WithItemAdded(old(technicalStructure), pIdx, newId)
      ensures unchanged(this`projectName, this`description, this`generationStep, this`teamData)
      ensures unchanged(this`loadingMessage, this`streamingContent, this`error)
    {
      technicalStructure := WithItemAdded(technicalStructure, pIdx, newId);
    }

    /** `removeItem` through `setTechnicalStructure`. */
    method RemoveItem(pIdx: nat, cIdx: Option<nat>)
      requires Valid() && IsAddress(technicalStructure, pIdx, cIdx)
      modifies this
      ensures Valid()
      ensures technicalStructure == WithItemRemoved(old(technicalStructure), pIdx, cIdx)
      ensures unchanged(this`projectName, this`description, this`generationStep, this`teamData)
      ensures unchanged(this`loadingMessage, this`streamingContent, this`error)
    {
      technicalStructure := WithItemRemoved(technicalStructure, pIdx, cIdx);
    }

    /** The first half of `handleGenerateFinal`, offered only on review. */
    method StartFinal()
      requires Valid() && generationStep == Review
      modifies this
      ensures Valid() && Allowed(old(generationStep), generationStep)
      ensures generationStep == Generating && streamingContent == ""
      ensures unchanged(this`projectName, this`description, this`technicalStructure, this`teamData)
      ensures unchanged(this`loadingMessage, this`error)
    {
      generationStep := Generating;
      streamingContent := "";
    }

    /** The token callback of the streaming call: the text is appended. */
    method ReceiveToken(token: string)
      requires Valid() && generationStep == Generating
      modifies this
      ensures Valid()
      ensures streamingContent == old(streamingContent) + token
      ensures unchanged(this`projectName, this`description, this`technicalStructure, this`teamData)
      ensures unchanged(this`generationStep, this`loadingMessage, this`error)
    {
      streamingContent := streamingContent + token;
    }

    /** The progress callback of the streaming call. */
    method ReceiveProgress(message: string)
      requires Valid() && generationStep == Generating
      modifies this
      ensures Valid()
      ensures loadingMessage == message
      ensures unchanged(this`projectName, this`description, this`technicalStructure, this`teamData)
      ensures unchanged(this`generationStep, this`streamingContent, this`error)
    {
      loadingMessage := message;
    }

    /** The rest of `handleGenerateFinal`: on success the document is handed
        to the creator and the dialog closes; on failure the error is shown
        and the dialog returns to review. */
    method FinishFinal(outcome: Result<GeneratedDocument, string>) returns (created: Option<GeneratedDocument>, closed: bool)
      requires Valid() && generationStep == Generating
      modifies this
      ensures Valid() && Allowed(old(generationStep), generationStep)
      ensures closed <==> outcome.Ok?
      ensures outcome.Ok? ==> created == Some(outcome.value) && generationStep == Generating
      ensures outcome.Err? ==> created == None && error == WritingErrorPrefix + outcome.error && generationStep == Review
      ensures unchanged(this`projectName, this`description, this`technicalStructure, this`teamData)
      ensures unchanged(this`loadingMessage, this`streamingContent)
    {
      match outcome
      case Ok(document) =>
        created := Some(document);
        closed := true;
      case Err(message) =>
        error := WritingErrorPrefix + message;
        generationStep := Review;
        created := None;
        closed := false;
    }
  }

  /** A file added and then removed at its index leaves the file list as
      it was. */
  lemma UploadThenRemove(files: seq<UploadedFile>, name: string, content: string)
    ensures WithoutIndex(files + [UploadedFile(name, content, FileKindOf(name))], |files|) == files
  {
    var all := files + [UploadedFile(name, content, FileKindOf(name))];
    WithoutIndexIsRemoveAt(all, |files|);
    assert all[..|files|] == files;
  }

  /** What the dialog hands to the prompt builder never has a goal section:
      the context is the files and pasted-code sections, or the fallback
      sentence exactly when there are neither files nor pasted code, even
      if a description was typed in. */
  lemma DialogContextHasNoGoal(t: TeamData)
    requires t.description == ""
    ensures Context(t) == NoContext <==> (t.uploadedFiles == [] && t.pastedCode == "")
    ensures Context(t) == NoContext || Context(t) == FilesSection(t) + PastedCodeSection(t)
  {
    FallbackIff(t);
    assert DescriptionSection(t) == "";
    assert DescriptionSection(t) + FilesSection(t) + PastedCodeSection(t) == FilesSection(t) + PastedCodeSection(t);
  }
}
