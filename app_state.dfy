/** The document list of the application and the list operations the
    top-level component performs on it: create (prepend), update (merge by
    id), delete (filter by id) and the team-and-query filter. */
module DocumentList {
  import opened Wrappers
  import opened Text
  import opened Teams
  import opened SourceDedup

  /** A stored document. `team` is the team's string value, as stored. */
  datatype Doc = Doc(id: string, title: string, content: string, sources: seq<Source>, team: string, createdAt: string)

  /** The fields an update object may carry; absent ones are None. */
  datatype DocUpdate = DocUpdate(
    id: Option<string>, title: Option<string>, content: Option<string>,
    sources: Option<seq<Source>>, team: Option<string>, createdAt: Option<string>)

  function Pick<T>(update: Option<T>, current: T): T {
    if update.Some? then update.value else current
  }

  /** `{ ...doc, ...updates }`: each field the update carries wins. */
  function Merge(doc: Doc, u: DocUpdate): Doc {
    Doc(Pick(u.id, doc.id), Pick(u.title, doc.title), Pick(u.content, doc.content),
        Pick(u.sources, doc.sources), Pick(u.team, doc.team), Pick(u.createdAt, doc.createdAt))
  }

  /** Merging twice is merging once; an empty update changes nothing; a
      field the update leaves out keeps its value. */
  lemma MergeProperties(doc: Doc, u: DocUpdate)
    ensures Merge(Merge(doc, u), u) == Merge(doc, u)
    ensures Merge(doc, DocUpdate(None, None, None, None, None, None)) == doc
    ensures u.title.None? ==> Merge(doc, u).title == doc.title
    ensures u.content.None? ==> Merge(doc, u).content == doc.content
    ensures u.id.None? ==> Merge(doc, u).id == doc.id
  {
  }

  /** `[newDocument, ...documents]`. */
  function Prepend(docs: seq<Doc>, doc: Doc): seq<Doc> {
    [doc] + docs
  }

  /** `documents.map(doc => doc.id === docId ? { ...doc, ...updates } : doc)`. */
  function UpdatedDocs(docs: seq<Doc>, docId: string, u: DocUpdate): (r: seq<Doc>)
    ensures |r| == |docs|
    ensures forall i :: 0 <= i < |docs| && docs[i].id != docId ==> r[i] == docs[i]
    ensures forall i :: 0 <= i < |docs| && docs[i].id == docId ==> r[i] == Merge(docs[i], u)
  {
    seq(|docs|, i requires 0 <= i < |docs| => if docs[i].id == docId then Merge(docs[i], u) else docs[i])
  }

  /** Applying the same update twice is applying it once. */
  lemma UpdateIdempotent(docs: seq<Doc>, docId: string, u: DocUpdate)
    ensures UpdatedDocs(UpdatedDocs(docs, docId, u), docId, u) == UpdatedDocs(docs, docId, u)
  {
    var once := UpdatedDocs(docs, docId, u);
    var twice := UpdatedDocs(once, docId, u);
    forall i | 0 <= i < |docs| ensures twice[i] == once[i] {
      MergeProperties(docs[i], u);
      if docs[i].id == docId && once[i].id == docId {
        assert twice[i] == Merge(Merge(docs[i], u), u);
      }
    }
  }

  /** The list filter `xs.filter(keep)`, walking the list from its start. */
  function Filter<T>(xs: seq<T>, keep: T -> bool): seq<T> {
    if xs == [] then [] else Filter(xs[..|xs| - 1], keep) + (if keep(xs[|xs| - 1]) then [xs[|xs| - 1]] else [])
  }

  /** The filter keeps exactly the elements the test accepts. */
  lemma {:induction false} FilterMembership<T>(xs: seq<T>, keep: T -> bool, x: T)
    ensures x in Filter(xs, keep) <==> x in xs && keep(x)
  {
    if xs != [] {
      var init := xs[..|xs| - 1];
      FilterMembership(init, keep, x);
      assert xs == init + [xs[|xs| - 1]];
    }
  }

  /** Filtering a concatenation filters each part in turn: the kept
      elements stay in their original order. */
  lemma {:induction false} FilterAppend<T>(xs: seq<T>, ys: seq<T>, keep: T -> bool)
    ensures Filter(xs + ys, keep) == Filter(xs, keep) + Filter(ys, keep)
    decreases |ys|
  {
    if ys == [] {
      assert xs + ys == xs;
    } else {
      var init := ys[..|ys| - 1];
      var last := ys[|ys| - 1];
      assert (xs + ys)[..|xs + ys| - 1] == xs + init;
      FilterAppend(xs, init, keep);
      var tail := if keep(last) then [last] else [];
      assert Filter(xs + ys, keep) == Filter(xs, keep) + Filter(init, keep) + tail;
    }
  }

  /** A filter that accepts everything copies the list. */
  lemma {:induction false} FilterAll<T>(xs: seq<T>, keep: T -> bool)
    requires forall x :: x in xs ==> keep(x)
    ensures Filter(xs, keep) == xs
  {
    if xs != [] {
      FilterAll(xs[..|xs| - 1], keep);
      assert xs[..|xs| - 1] + [xs[|xs| - 1]] == xs;
    }
  }

  /** `documents.filter(doc => doc.id !== id)`. */
  function WithoutId(docs: seq<Doc>, id: string): seq<Doc> {
    Filter(docs, (d: Doc) => d.id != id)
  }

  /** Deleting removes every document with the id and keeps every other. */
  lemma WithoutIdMembership(docs: seq<Doc>, id: string, d: Doc)
    ensures d in WithoutId(docs, id) <==> d in docs && d.id != id
  {
    FilterMembership(docs, (x: Doc) => x.id != id, d);
  }

  /** Deleting a freshly created document gives the old list back, when no
      older document carries its id. */
  lemma DeleteAfterCreate(docs: seq<Doc>, doc: Doc)
    requires forall d :: d in docs ==> d.id != doc.id
    ensures WithoutId(Prepend(docs, doc), doc.id) == docs
  {
    FilterAppend([doc], docs, (x: Doc) => x.id != doc.id);
    assert Filter([doc], (x: Doc) => x.id != doc.id) == [] by {
      assert [doc][..0] == [];
    }
    FilterAll(docs, (x: Doc) => x.id != doc.id);
  }

  /** An update that keeps ids does not change what a delete of that id
      leaves behind. */
  lemma DeleteAfterUpdate(docs: seq<Doc>, docId: string, u: DocUpdate)
    requires u.id.None? || u.id == Some(docId)
    ensures WithoutId(UpdatedDocs(docs, docId, u), docId) == WithoutId(docs, docId)
    decreases |docs|
  {
    if docs != [] {
      var init := docs[..|docs| - 1];
      var r := UpdatedDocs(docs, docId, u);
      assert r[..|r| - 1] == UpdatedDocs(init, docId, u);
      DeleteAfterUpdate(init, docId, u);
    }
  }

  /** `d.title.toLowerCase().includes(q) || d.content.toLowerCase().includes(q)`
      for the lower-cased query `q`; `lower` stands for `toLowerCase`. */
  predicate Matches(d: Doc, team: Team, query: string, lower: string -> string) {
    d.team == TeamName(team)
    && (Contains(lower(d.title), lower(query)) || Contains(lower(d.content), lower(query)))
  }

  /** `filteredDocs`. */
  function Filtered(docs: seq<Doc>, team: Team, query: string, lower: string -> string): seq<Doc> {
    Filter(docs, (d: Doc) => Matches(d, team, query, lower))
  }

  /** A document is listed exactly when it belongs to the team and its
      title or content contains the query, both lower-cased. */
  lemma FilteredMembership(docs: seq<Doc>, team: Team, query: string, lower: string -> string, d: Doc)
    ensures d in Filtered(docs, team, query, lower) <==>
      d in docs && d.team == TeamName(team)
      && (Contains(lower(d.title), lower(query)) || Contains(lower(d.content), lower(query)))
  {
    FilterMembership(docs, (x: Doc) => Matches(x, team, query, lower), d);
  }

  /** The empty query matches everything, so it lists every document of the
      team, in order. */
  lemma EmptyQueryListsTeam(docs: seq<Doc>, team: Team, lower: string -> string)
    requires lower("") == ""
    ensures Filtered(docs, team, "", lower) == Filter(docs, (d: Doc) => d.team == TeamName(team))
    decreases |docs|
  {
    if docs != [] {
      var last := docs[|docs| - 1];
      assert StartsWith(lower(last.title), "");
      EmptyQueryListsTeam(docs[..|docs| - 1], team, lower);
    }
  }

  /** A new document that matches the filter is listed first. */
  lemma CreatedDocumentListedFirst(docs: seq<Doc>, doc: Doc, team: Team, query: string, lower: string -> string)
    requires Matches(doc, team, query, lower)
    ensures Filtered(Prepend(docs, doc), team, query, lower) == [doc] + Filtered(docs, team, query, lower)
  {
    var keep := (d: Doc) => Matches(d, team, query, lower);
    FilterAppend([doc], docs, keep);
    assert [doc][..0] == [];
  }
}

/** What the application keeps in the browser's storage and the responsible
    person's name: the save rule of the responsible-name dialog, the load
    effect and the save effect. */
module Persistence {
  import opened Wrappers
  import opened Text
  import opened Teams
  import opened DocumentList

  /** The responsible-name dialog's save: the trimmed name, when it is not
      blank. */
  function SavedName(name: string): (r: Option<string>)
    ensures r.None? <==> AllSpace(name)
    ensures r.Some? ==> r.value != "" && !IsSpace(r.value[0]) && !IsSpace(r.value[|r.value| - 1])
  {
    TrimEmptyIff(name);
    if Trim(name) != "" then Some(Trim(name)) else None
  }

  /** What the browser storage holds. "" stands for a missing item. */
  datatype Storage = Storage(documents: Option<seq<Doc>>, team: string, onboarded: string, responsible: string)

  /** The persisted part of the application state. */
  datatype Snapshot = Snapshot(documents: seq<Doc>, team: Team, responsible: string, showOnboarding: bool)

  /** The load effect: each stored item replaces the state it belongs to
      only when present; the team only when it names a team; onboarding is
      skipped only when both the flag and a responsible name are stored. */
  function Restored(s: Snapshot, st: Storage): (r: Snapshot)
    ensures r.team == (if ParseTeam(st.team).Some? then ParseTeam(st.team).value else s.team)
    ensures r.showOnboarding != s.showOnboarding ==> st.onboarded != "" && st.responsible != "" && !r.showOnboarding
  {
    Snapshot(
      if st.documents.Some? then st.documents.value else s.documents,
      if ParseTeam(st.team).Some? then ParseTeam(st.team).value else s.team,
      if st.responsible != "" then st.responsible else s.responsible,
      if st.onboarded != "" && st.responsible != "" then false else s.showOnboarding)
  }

  /** The save effect: documents, team and responsible name are written;
      the onboarded flag only once onboarding is over. */
  function Persisted(st: Storage, s: Snapshot): Storage {
    Storage(Some(s.documents), TeamName(s.team), if !s.showOnboarding then "true" else st.onboarded, s.responsible)
  }

  /** What was saved after onboarding is what the next load restores. */
  lemma RestoreAfterPersist(st: Storage, s: Snapshot, start: Snapshot)
    requires !s.showOnboarding && s.responsible != ""
    ensures Restored(start, Persisted(st, s)) == s
  {
    ParseTeamName(s.team);
  }
}

/** The top-level component's state fields and its handlers. Ids and
    timestamps come from the clock; they are parameters here. */
module AppState {
  import opened Wrappers
  import opened Teams
  import opened SourceDedup
  import opened DocumentList
  import opened Persistence

  class App {
    var currentTeam: Team
    var documents: seq<Doc>
    var selectedDocument: Option<Doc>
    var showOnboarding: bool
    var isDeleteConfirmOpen: bool
    var docToDelete: Option<Doc>
    var isResponsibleModalOpen: bool
    var lastViewedDocId: Option<string>
    var searchQuery: string
    var responsiblePerson: string

    /** The confirmation dialog is only open for a chosen document. */
    predicate Valid()
      reads this
    {
      isDeleteConfirmOpen ==> docToDelete.Some?
    }

    function Persistent(): Snapshot
      reads this
    {
      Snapshot(documents, currentTeam, responsiblePerson, showOnboarding)
    }

    constructor ()
      ensures Valid()
      ensures Persistent() == Snapshot([], Developers, "", true)
      ensures selectedDocument == None && docToDelete == None && !isDeleteConfirmOpen
      ensures !isResponsibleModalOpen && lastViewedDocId == None && searchQuery == ""
    {
      currentTeam := Developers;
      documents := [];
      selectedDocument := None;
      showOnboarding := true;
      isDeleteConfirmOpen := false;
      docToDelete := None;
      isResponsibleModalOpen := false;
      lastViewedDocId := None;
      searchQuery := "";
      responsiblePerson := "";
    }

    /** The load effect over the stored items `st`. */
    method Restore(st: Storage)
      requires Valid()
      modifies this
      ensures Valid()
      ensures Persistent() == Restored(old(Persistent()), st)
      ensures unchanged(this`selectedDocument, this`isDeleteConfirmOpen, this`docToDelete)
      ensures unchanged(this`isResponsibleModalOpen, this`lastViewedDocId, this`searchQuery)
    {
      if st.documents.Some? {
        documents := st.documents.value;
      }
      var team := ParseTeam(st.team);
      if team.Some? {
        currentTeam := team.value;
      }
      if st.responsible != "" {
        responsiblePerson := st.responsible;
      }
      if st.onboarded != "" && st.responsible != "" {
        showOnboarding := false;
      }
    }

    /** `handleDocumentCreate(title, content, sources = [])`, with `id` and
        `createdAt` the clock readings. */
    method HandleDocumentCreate(title: string, content: string, sources: Option<seq<Source>>, id: string, createdAt: string)
      requires Valid()
      modifies this
      ensures Valid()
      ensures var doc := Doc(id, title, content, if sources.Some? then sources.value else [], TeamName(currentTeam), createdAt);
        documents == Prepend(old(documents), doc) && selectedDocument == Some(doc) && lastViewedDocId == Some(id)
      ensures |documents| == |old(documents)| + 1 && documents[1..] == old(documents)
      ensures sources.None? ==> documents[0].sources == []
      ensures unchanged(this`currentTeam, this`showOnboarding, this`isDeleteConfirmOpen, this`docToDelete)
      ensures unchanged(this`isResponsibleModalOpen, this`searchQuery, this`responsiblePerson)
    {
      var doc := Doc(id, title, content, if sources.Some? then sources.value else [], TeamName(currentTeam), createdAt);
      documents := Prepend(documents, doc);
      selectedDocument := Some(doc);
      lastViewedDocId := Some(id);
    }

    /** `handleDocumentUpdate(docId, updates)`. */
    method HandleDocumentUpdate(docId: string, u: DocUpdate)
      requires Valid()
      modifies this
      ensures Valid()
      ensures documents == UpdatedDocs(old(documents), docId, u)
      ensures old(selectedDocument).Some? && old(selectedDocument).value.id == docId ==> selectedDocument == Some(Merge(old(selectedDocument).value, u))
      ensures !(old(selectedDocument).Some? && old(selectedDocument).value.id == docId) ==> selectedDocument == old(selectedDocument)
      ensures unchanged(this`currentTeam, this`showOnboarding, this`isDeleteConfirmOpen, this`docToDelete)
      ensures unchanged(this`isResponsibleModalOpen, this`lastViewedDocId, this`searchQuery, this`responsiblePerson)
    {
      documents := UpdatedDocs(documents, docId, u);
      if selectedDocument.Some? && selectedDocument.value.id == docId {
        selectedDocument := Some(Merge(selectedDocument.value, u));
      }
    }

    /** The delete button of a document card. */
    method RequestDelete(doc: Doc)
      requires Valid()
      modifies this
      ensures Valid()
      ensures docToDelete == Some(doc) && isDeleteConfirmOpen
      ensures unchanged(this`currentTeam, this`documents, this`selectedDocument, this`showOnboarding)
      ensures unchanged(this`isResponsibleModalOpen, this`lastViewedDocId, this`searchQuery, this`responsiblePerson)
    {
      docToDelete := Some(doc);
      isDeleteConfirmOpen := true;
    }

    /** The confirmation dialog's cancel: it closes and nothing else. */
    method CancelDelete()
      requires Valid()
      modifies this
      ensures Valid()
      ensures !isDeleteConfirmOpen
      ensures unchanged(this`currentTeam, this`documents, this`selectedDocument, this`showOnboarding, this`docToDelete)
      ensures unchanged(this`isResponsibleModalOpen, this`lastViewedDocId, this`searchQuery, this`responsiblePerson)
    {
      isDeleteConfirmOpen := false;
    }

    /** `handleConfirmDelete`. */
    method HandleConfirmDelete()
      requires Valid()
      modifies this
      ensures Valid()
      ensures old(docToDelete).Some? ==> documents == WithoutId(old(documents), old(docToDelete).value.id)
      ensures old(docToDelete).None? ==> documents == old(documents)
      ensures !isDeleteConfirmOpen && docToDelete == None
      ensures unchanged(this`currentTeam, this`selectedDocument, this`showOnboarding)
      ensures unchanged(this`isResponsibleModalOpen, this`lastViewedDocId, this`searchQuery, this`responsiblePerson)
    {
      if docToDelete.Some? {
        documents := WithoutId(documents, docToDelete.value.id);
      }
      isDeleteConfirmOpen := false;
      docToDelete := None;
    }

    /** The responsible-name dialog's save: a non-blank name is stored
        trimmed, and the dialog closes in both cases. */
    method SaveResponsible(name: string)
      requires Valid()
      modifies this
      ensures Valid()
      ensures SavedName(name).Some? ==> responsiblePerson == SavedName(name).value
      ensures SavedName(name).None? ==> responsiblePerson == old(responsiblePerson)
      ensures !isResponsibleModalOpen
      ensures unchanged(this`currentTeam, this`documents, this`selectedDocument, this`showOnboarding)
      ensures unchanged(this`isDeleteConfirmOpen, this`docToDelete, this`lastViewedDocId, this`searchQuery)
    {
      var saved := SavedName(name);
      if saved.Some? {
        responsiblePerson := saved.value;
      }
      isResponsibleModalOpen := false;
    }

    /** `handleCompleteOnboarding(selectedTeam, name)`. */
    method CompleteOnboarding(team: Team, name: string)
      requires Valid()
      modifies this
      ensures Valid()
      ensures Persistent() == old(Persistent()).(team := team, responsible := name, showOnboarding := false)
      ensures unchanged(this`selectedDocument, this`isDeleteConfirmOpen, this`docToDelete)
      ensures unchanged(this`isResponsibleModalOpen, this`lastViewedDocId, this`searchQuery)
    {
      currentTeam := team;
      responsiblePerson := name;
      showOnboarding := false;
    }

    /** `filteredDocs`, with `lower` standing for `toLowerCase`. */
    function FilteredDocs(lower: string -> string): seq<Doc>
      reads this
    {
      Filtered(documents, currentTeam, searchQuery, lower)
    }
  }
}
