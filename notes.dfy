/**
 * The notes panel (`NotesAndResources`) opened for a course, a module or a project: notes, summary,
 * tags, a screenshot url, and the learning resources attached to that entity.
 */
module NotesPanel {
  import opened Wrappers
  import opened Text
  import opened Lists
  import opened Records
  import Tags
  import ResourcesPage

  datatype Panel = Panel(
    notes: string, summary: string, tags: seq<string>, imageUrl: string, tagInput: string,
    resources: seq<LearningResource>, form: ResourcesPage.ResourceForm, addingResource: bool)

  /** The arguments handed to `onSave`. */
  datatype SaveArgs = SaveArgs(notes: string, summary: string, tags: seq<string>, imageUrl: string)

  /** The panel as first rendered, from its props (resources are then fetched); the optional props default to no tags and "". */
  function Open(initialNotes: string, initialSummary: string, initialTags: Option<seq<string>>, initialImageUrl: Option<string>): (p: Panel)
    ensures p.notes == initialNotes && p.summary == initialSummary
    ensures initialTags.Some? ==> p.tags == initialTags.value
    ensures initialTags.None? ==> p.tags == []
    ensures initialImageUrl.Some? ==> p.imageUrl == initialImageUrl.value
    ensures initialImageUrl.None? ==> p.imageUrl == ""
    ensures p.tagInput == "" && p.resources == [] && p.form == ResourcesPage.EMPTY_RESOURCE_FORM && !p.addingResource
  {
    Panel(initialNotes, initialSummary, initialTags.GetOr([]), initialImageUrl.GetOr(""), "", [],
          ResourcesPage.EMPTY_RESOURCE_FORM, false)
  }

  /** The column that ties a resource to the entity: course_id, module_id, or project_id for anything else. */
  function OwnerField(entityType: string): (field: string)
    ensures field in {"course_id", "module_id", "project_id"}
    ensures field == "course_id" <==> entityType == "course"
    ensures field == "module_id" <==> entityType == "module"
  {
    if entityType == "course" then "course_id" else if entityType == "module" then "module_id" else "project_id"
  }

  /** The resource's value in the given owner column. */
  function OwnerOf(r: LearningResource, field: string): Option<string> {
    if field == "course_id" then r.courseId else if field == "module_id" then r.moduleId else r.projectId
  }

  /** The fetch `.eq(field, entityId)` finds this resource. */
  predicate FetchedFor(r: LearningResource, entityType: string, entityId: string) {
    OwnerOf(r, OwnerField(entityType)) == Some(entityId)
  }

  /** The row `handleAddResource` inserts: the form's fields and the entity id in the owner column only. */
  function NewResource(id: string, f: ResourcesPage.ResourceForm, entityType: string, entityId: string): (r: LearningResource)
    ensures FetchedFor(r, entityType, entityId)
    ensures r.id == id && r.title == f.title && r.url == f.url && r.resourceType == f.resourceType
    ensures (if r.courseId.Some? then 1 else 0) + (if r.moduleId.Some? then 1 else 0)
          + (if r.projectId.Some? then 1 else 0) == 1
  {
    var field := OwnerField(entityType);
    LearningResource(id, f.title, f.url, f.resourceType,
      if field == "course_id" then Some(entityId) else None,
      if field == "module_id" then Some(entityId) else None,
      if field == "project_id" then Some(entityId) else None)
  }

  /** `handleAddResource`: an incomplete form is refused; a stored row goes first, the form is reset and activity is logged. */
  function AddResource(p: Panel, entityType: string, entityId: string, insert: InsertOutcome, signedIn: bool): (r: Step<Panel>)
    ensures !ResourcesPage.ResourceFormComplete(p.form) ==> r == Step(p, Some(Error("Please provide a title and URL")), false)
    ensures ResourcesPage.ResourceFormComplete(p.form) && insert.InsertFailed? ==>
      r == Step(p, Some(Error("Failed to add resource")), false)
    ensures ResourcesPage.ResourceFormComplete(p.form) && insert.Inserted? ==>
      && |r.state.resources| == |p.resources| + 1
      && r.state.resources[1..] == p.resources
      && r.state.resources[0] == NewResource(insert.id, p.form, entityType, entityId)
      && FetchedFor(r.state.resources[0], entityType, entityId)
      && r.state == p.(resources := r.state.resources, form := ResourcesPage.ResourceForm("", "", "link"), addingResource := false)
      && r.logsActivity == signedIn
    ensures r.state.notes == p.notes && r.state.summary == p.summary && r.state.tags == p.tags && r.state.imageUrl == p.imageUrl
  {
    if !ResourcesPage.ResourceFormComplete(p.form) then Step(p, Some(Error("Please provide a title and URL")), false)
    else match insert
      case InsertFailed => Step(p, Some(Error("Failed to add resource")), false)
      case Inserted(id) =>
        var row := NewResource(id, p.form, entityType, entityId);
        Step(p.(resources := [row] + p.resources, form := ResourcesPage.EMPTY_RESOURCE_FORM, addingResource := false),
             Some(Success("Resource added")), signedIn)
  }

  /** `handleDeleteResource`: once the store deletes it, the resources with that id leave the panel; the others stay in order. */
  function DeleteResource(p: Panel, id: string, delete: WriteOutcome): (r: Step<Panel>)
    ensures delete.WriteFailed? ==> r.state == p
    ensures delete.Written? ==> Subsequence(r.state.resources, p.resources)
    ensures delete.Written? ==> forall x :: x in r.state.resources <==> x in p.resources && x.id != id
    ensures delete.Written? ==> forall x :: multiset(r.state.resources)[x] == if x.id != id then multiset(p.resources)[x] else 0
    ensures r.state == p.(resources := r.state.resources)
  {
    match delete
    case WriteFailed => Step(p, Some(Error("Failed to delete resource")), false)
    case Written =>
      Step(p.(resources := Filter(p.resources, (x: LearningResource) => x.id != id)), Some(Success("Resource deleted")), false)
  }

  /** `handleAddTag` of the panel. */
  function AddPanelTag(p: Panel, key: string): (r: Panel)
    ensures key != "Enter" || Trim(p.tagInput) == [] ==> r == p
    ensures key == "Enter" && Trim(p.tagInput) != [] ==>
      && r.tagInput == ""
      && r.tags == (if Trim(p.tagInput) in p.tags then p.tags else p.tags + [Trim(p.tagInput)])
    ensures r == p.(tags := r.tags, tagInput := r.tagInput)
    ensures NoDuplicates(p.tags) ==> NoDuplicates(r.tags)
  {
    var edit := Tags.AddTag(key, p.tagInput, p.tags);
    p.(tags := edit.tags, tagInput := edit.input)
  }

  /** `removeTag` of the panel. */
  function RemovePanelTag(p: Panel, tag: string): (r: Panel)
    ensures tag !in r.tags
    ensures forall t | t != tag :: t in r.tags <==> t in p.tags
    ensures forall t | t != tag :: multiset(r.tags)[t] == multiset(p.tags)[t]
    ensures Subsequence(r.tags, p.tags)
    ensures r == p.(tags := r.tags)
  {
    p.(tags := Tags.RemoveTag(p.tags, tag))
  }

  /** A successful screenshot upload replaces the panel's image url with the file's public url; a failed one changes nothing. */
  function UploadScreenshot(p: Panel, publicUrl: Option<string>): (r: Panel)
    ensures publicUrl.Some? ==> r == p.(imageUrl := publicUrl.value)
    ensures publicUrl.None? ==> r == p
    ensures r.notes == p.notes && r.summary == p.summary && r.tags == p.tags && r.resources == p.resources
  {
    match publicUrl
    case Some(url) => p.(imageUrl := url)
    case None => p
  }

  /** "Save All Changes": the panel's current notes, summary, tags and image url, in that order. */
  function Save(p: Panel): (a: SaveArgs)
    ensures a.notes == p.notes && a.summary == p.summary && a.tags == p.tags && a.imageUrl == p.imageUrl
  {
    SaveArgs(p.notes, p.summary, p.tags, p.imageUrl)
  }
}
