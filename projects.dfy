/** The projects page: adding, searching, tag filtering, saving notes and deleting projects. */
module ProjectsPage {
  import opened Wrappers
  import opened Text
  import opened Lists
  import opened Records
  import Tags
  import NotesPanel

  const MAX_TITLE_LENGTH := 100
  const MAX_DESCRIPTION_LENGTH := 500

  /** The add-project form values. */
  datatype ProjectForm = ProjectForm(
    title: string, description: string, url: string, repoUrl: string, tags: seq<string>, imageUrl: string)

  const EMPTY_FORM := ProjectForm("", "", "", "", [], "")

  /** The length bounds of the form schema; the form only submits values that meet them. */
  predicate ValidForm(f: ProjectForm) {
    1 <= |f.title| <= MAX_TITLE_LENGTH && |f.description| <= MAX_DESCRIPTION_LENGTH
  }

  datatype ProjectsState = ProjectsState(
    projects: seq<Project>, search: string, selectedTag: Option<string>,
    adding: bool, form: ProjectForm, tagInput: string)

  /** `handleAddProject`: the stored row goes first, the form is reset and the dialog closes; a failed insert changes nothing. */
  function AddProject(p: ProjectsState, insert: InsertOutcome, signedIn: bool): (r: Step<ProjectsState>)
    requires ValidForm(p.form)
    ensures insert.InsertFailed? ==> r == Step(p, Some(Error("Failed to add project")), false)
    ensures insert.Inserted? ==>
      && |r.state.projects| == |p.projects| + 1
      && r.state.projects[1..] == p.projects
      && (var row := r.state.projects[0];
          row.id == insert.id && row.title == p.form.title && row.tags == p.form.tags
          && row.description == Some(p.form.description) && row.imageUrl == Some(p.form.imageUrl)
          && row.url == Some(p.form.url) && row.repoUrl == Some(p.form.repoUrl)
          && row.notes.None? && row.summary.None?)
      && r.state == p.(projects := r.state.projects, form := EMPTY_FORM, adding := false)
      && r.logsActivity == signedIn
  {
    match insert
    case InsertFailed => Step(p, Some(Error("Failed to add project")), false)
    case Inserted(id) =>
      var f := p.form;
      var row := Project(id, f.title, Some(f.description), Some(f.url), Some(f.repoUrl), Some(f.imageUrl), None, None, f.tags);
      Step(p.(projects := [row] + p.projects, form := EMPTY_FORM, adding := false),
           Some(Success("Project added successfully")), signedIn)
  }

  /** The update `handleSaveNotes` applies to one project: notes, summary and tags, and the image url only when given. */
  function WithNotes(q: Project, notes: string, summary: string, tags: seq<string>, imageUrl: Option<string>): (r: Project)
    ensures r.notes == Some(notes) && r.summary == Some(summary) && r.tags == tags
    ensures r.imageUrl == if imageUrl.Some? then imageUrl else q.imageUrl
    ensures r.id == q.id && r.title == q.title && r.description == q.description
    ensures r.url == q.url && r.repoUrl == q.repoUrl
  {
    var merged := q.(notes := Some(notes), summary := Some(summary), tags := tags);
    if imageUrl.Some? then merged.(imageUrl := imageUrl) else merged
  }

  /** `handleSaveNotes`: once the store accepts the update, only the project with that id is changed. */
  function SaveNotes(projects: seq<Project>, id: string, notes: string, summary: string, tags: seq<string>,
                     imageUrl: Option<string>, update: WriteOutcome, signedIn: bool): (r: Step<seq<Project>>)
    ensures update.WriteFailed? ==> r == Step(projects, Some(Error("Failed to save changes")), false)
    ensures |r.state| == |projects|
    ensures forall i | 0 <= i < |projects| && projects[i].id != id :: r.state[i] == projects[i]
    ensures update.Written? ==> forall i | 0 <= i < |projects| && projects[i].id == id ::
      r.state[i] == WithNotes(projects[i], notes, summary, tags, imageUrl)
    ensures r.logsActivity <==> update.Written? && signedIn
  {
    match update
    case WriteFailed => Step(projects, Some(Error("Failed to save changes")), false)
    case Written =>
      var updated := MapWhere(projects, (q: Project) => q.id == id,
                              (q: Project) => WithNotes(q, notes, summary, tags, imageUrl));
      Step(updated, Some(Success("Changes saved")), signedIn)
  }

  /** `handleDeleteProject`: nothing happens unless the user confirms; then, once the store deletes it, the projects with that id leave the list. */
  function DeleteProject(projects: seq<Project>, id: string, confirmed: bool, delete: WriteOutcome): (r: Step<seq<Project>>)
    ensures !confirmed ==> r == Step(projects, None, false)
    ensures confirmed && delete.WriteFailed? ==> r.state == projects
    ensures confirmed && delete.Written? ==> Subsequence(r.state, projects)
    ensures confirmed && delete.Written? ==> forall q :: q in r.state <==> q in projects && q.id != id
    ensures confirmed && delete.Written? ==> forall q :: multiset(r.state)[q] == if q.id != id then multiset(projects)[q] else 0
    ensures !r.logsActivity
  {
    if !confirmed then Step(projects, None, false)
    else match delete
      case WriteFailed => Step(projects, Some(Error("Failed to delete project")), false)
      case Written => Step(Filter(projects, (q: Project) => q.id != id), Some(Success("Project deleted")), false)
  }

  /** `handleAddTag` of the project form. */
  function AddFormTag(p: ProjectsState, key: string): (r: ProjectsState)
    ensures key != "Enter" || Trim(p.tagInput) == [] ==> r == p
    ensures key == "Enter" && Trim(p.tagInput) != [] ==>
      && r.tagInput == ""
      && r.form.tags == (if Trim(p.tagInput) in p.form.tags then p.form.tags else p.form.tags + [Trim(p.tagInput)])
    ensures r == p.(form := p.form.(tags := r.form.tags), tagInput := r.tagInput)
    ensures NoDuplicates(p.form.tags) ==> NoDuplicates(r.form.tags)
  {
    var edit := Tags.AddTag(key, p.tagInput, p.form.tags);
    p.(form := p.form.(tags := edit.tags), tagInput := edit.input)
  }

  /** `removeTag` of the project form. */
  function RemoveFormTag(p: ProjectsState, tag: string): (r: ProjectsState)
    ensures tag !in r.form.tags
    ensures forall t | t != tag :: t in r.form.tags <==> t in p.form.tags
    ensures forall t | t != tag :: multiset(r.form.tags)[t] == multiset(p.form.tags)[t]
    ensures Subsequence(r.form.tags, p.form.tags)
    ensures r == p.(form := p.form.(tags := r.form.tags))
  {
    p.(form := p.form.(tags := Tags.RemoveTag(p.form.tags, tag)))
  }

  /** `allTags`: every tag of every project, once each, sorted. */
  function AllProjectTags(projects: seq<Project>): (r: seq<string>)
    ensures Text.Sorted(r) && NoDuplicates(r)
    ensures forall t :: t in r <==> exists q | q in projects :: t in q.tags
  {
    var lists := seq(|projects|, i requires 0 <= i < |projects| => projects[i].tags);
    TagListsOfProjects(projects, lists);
    Tags.AllTags(lists)
  }

  lemma TagListsOfProjects(projects: seq<Project>, lists: seq<seq<string>>)
    requires |lists| == |projects| && forall i | 0 <= i < |projects| :: lists[i] == projects[i].tags
    ensures forall t :: t in Tags.AllTags(lists) <==> exists q | q in projects :: t in q.tags
  {
    forall t ensures t in Tags.AllTags(lists) <==> exists q | q in projects :: t in q.tags {
      if exists q | q in projects :: t in q.tags {
        var q :| q in projects && t in q.tags;
        var i :| 0 <= i < |projects| && projects[i] == q;
        assert t in lists[i];
      }
    }
  }

  /** The test inside `filtered`: title, description (missing counts as "") or a tag matches, and the selected tag is one of its tags. */
  predicate ProjectMatches(q: Project, search: string, selectedTag: Option<string>) {
    && (Matches(q.title, search) || Matches(q.description.GetOr(""), search) || exists t | t in q.tags :: Matches(t, search))
    && (Tags.NoTagSelected(selectedTag) || selectedTag.value in q.tags)
  }

  /** `filtered`: the projects that pass the search and tag test, in their order. */
  function FilterProjects(projects: seq<Project>, search: string, selectedTag: Option<string>): (r: seq<Project>)
    ensures Subsequence(r, projects)
    ensures forall q :: q in r <==> q in projects && ProjectMatches(q, search, selectedTag)
    ensures forall q :: multiset(r)[q] == if ProjectMatches(q, search, selectedTag) then multiset(projects)[q] else 0
    ensures !Tags.NoTagSelected(selectedTag) ==> forall q | q in r :: selectedTag.value in q.tags
  {
    Filter(projects, (q: Project) => ProjectMatches(q, search, selectedTag))
  }

  /** With an empty search and no tag selected, every project is shown. */
  lemma EmptySearchShowsAll(projects: seq<Project>)
    ensures FilterProjects(projects, "", None) == projects
  {
    forall q | q in projects ensures ProjectMatches(q, "", None) {
      EmptyQueryMatches(q.title);
    }
    FilterKeepsAll(projects, (q: Project) => ProjectMatches(q, "", None));
  }

  // The notes panel of a project, as the page wires it up (see README, Findings).

  /** As written: the panel opens without the project's screenshot url. */
  function OpenNotesAsWritten(q: Project): (p: NotesPanel.Panel)
    ensures p.imageUrl == "" && p.tags == q.tags && p.notes == q.notes.GetOr("")
  {
    NotesPanel.Open(q.notes.GetOr(""), q.summary.GetOr(""), Some(q.tags), None)
  }

  /** As written: `onSave={(notes, summary, tags) => handleSaveNotes(project.id, notes, summary, tags)}` drops the image url. */
  function SaveFromNotesAsWritten(projects: seq<Project>, id: string, a: NotesPanel.SaveArgs,
                                  update: WriteOutcome, signedIn: bool): (r: Step<seq<Project>>)
    ensures |r.state| == |projects|
    ensures forall i | 0 <= i < |projects| :: r.state[i].imageUrl == projects[i].imageUrl
  {
    SaveNotes(projects, id, a.notes, a.summary, a.tags, None, update, signedIn)
  }

  /** As written, a screenshot uploaded in the panel is never stored: the project keeps its old image url. */
  lemma ScreenshotLostAsWritten(q: Project, url: string)
    requires q.imageUrl != Some(url)
    ensures var panel := NotesPanel.UploadScreenshot(OpenNotesAsWritten(q), Some(url));
      var r := SaveFromNotesAsWritten([q], q.id, NotesPanel.Save(panel), Written, true);
      panel.imageUrl == url && r.state[0].imageUrl != Some(url)
  {
  }

  /** Corrected: the panel opens with the project's screenshot url. */
  function OpenNotes(q: Project): (p: NotesPanel.Panel)
    ensures p.imageUrl == q.imageUrl.GetOr("") && p.tags == q.tags
    ensures p.notes == q.notes.GetOr("") && p.summary == q.summary.GetOr("")
  {
    NotesPanel.Open(q.notes.GetOr(""), q.summary.GetOr(""), Some(q.tags), Some(q.imageUrl.GetOr("")))
  }

  /** Corrected: the panel's image url is forwarded to `handleSaveNotes`. */
  function SaveFromNotes(projects: seq<Project>, id: string, a: NotesPanel.SaveArgs,
                         update: WriteOutcome, signedIn: bool): (r: Step<seq<Project>>)
    ensures |r.state| == |projects|
    ensures update.Written? ==> forall i | 0 <= i < |projects| && projects[i].id == id ::
      r.state[i].imageUrl == Some(a.imageUrl)
    ensures forall i | 0 <= i < |projects| && projects[i].id != id :: r.state[i] == projects[i]
  {
    SaveNotes(projects, id, a.notes, a.summary, a.tags, Some(a.imageUrl), update, signedIn)
  }

  /** Corrected, an uploaded screenshot is stored, and saving without an upload keeps the screenshot the project had. */
  lemma ScreenshotSaved(projects: seq<Project>, i: int, upload: Option<string>)
    requires 0 <= i < |projects|
    ensures var q := projects[i];
      var panel := NotesPanel.UploadScreenshot(OpenNotes(q), upload);
      var r := SaveFromNotes(projects, q.id, NotesPanel.Save(panel), Written, true);
      && (upload.Some? ==> r.state[i].imageUrl == upload)
      && (upload.None? ==> r.state[i].imageUrl.GetOr("") == q.imageUrl.GetOr(""))
  {
  }
}
