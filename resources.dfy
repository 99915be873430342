/** The resources page: the library of learning resources, filtered by type and searched by title or url. */
module ResourcesPage {
  import opened Wrappers
  import opened Text
  import opened Lists
  import opened Records

  /** The filter values, "all" first. */
  const RESOURCE_TYPES: seq<string> := ["all", "link", "video", "tutorial", "document"]

  /** The add-resource form (`newResource`). */
  datatype ResourceForm = ResourceForm(title: string, url: string, resourceType: string)

  const EMPTY_RESOURCE_FORM := ResourceForm("", "", "link")

  /** The guard of both add-resource handlers: title and url must be non-empty. */
  predicate ResourceFormComplete(f: ResourceForm) {
    f.title != "" && f.url != ""
  }

  datatype ResourcesState = ResourcesState(
    resources: seq<LearningResource>, search: string, filter: string, adding: bool, form: ResourceForm)

  /** The types offered in the add form: every filter value except "all". */
  function AddFormTypes(): (r: seq<string>)
    ensures "all" !in r
    ensures forall t | t in RESOURCE_TYPES && t != "all" :: t in r
    ensures Subsequence(r, RESOURCE_TYPES)
  {
    Filter(RESOURCE_TYPES, (t: string) => t != "all")
  }

  /** The test inside `filtered`: title or url matches the search, and the type matches unless the filter is "all". */
  predicate ResourceMatches(r: LearningResource, search: string, filter: string) {
    && (Matches(r.title, search) || Matches(r.url, search))
    && (filter == "all" || r.resourceType == filter)
  }

  /** `filtered`: the resources that pass the search and the type filter, in their order. */
  function FilterResources(resources: seq<LearningResource>, search: string, filter: string): (r: seq<LearningResource>)
    ensures Subsequence(r, resources)
    ensures forall x :: x in r <==> x in resources && ResourceMatches(x, search, filter)
    ensures forall x :: multiset(r)[x] == if ResourceMatches(x, search, filter) then multiset(resources)[x] else 0
    ensures filter != "all" ==> forall x | x in r :: x.resourceType == filter
  {
    Filter(resources, (x: LearningResource) => ResourceMatches(x, search, filter))
  }

  /** The filter "all" with an empty search shows the whole library. */
  lemma AllFilterShowsEverything(resources: seq<LearningResource>)
    ensures FilterResources(resources, "", "all") == resources
  {
    forall x | x in resources ensures ResourceMatches(x, "", "all") {
      EmptyQueryMatches(x.title);
    }
    FilterKeepsAll(resources, (x: LearningResource) => ResourceMatches(x, "", "all"));
  }

  /** `handleAddResource`: an incomplete form is refused; a stored row goes first and the form is reset. */
  function AddResource(p: ResourcesState, insert: InsertOutcome): (r: Step<ResourcesState>)
    ensures !ResourceFormComplete(p.form) ==> r == Step(p, Some(Error("Please provide a title and URL")), false)
    ensures ResourceFormComplete(p.form) && insert.InsertFailed? ==> r == Step(p, Some(Error("Failed to add resource")), false)
    ensures ResourceFormComplete(p.form) && insert.Inserted? ==>
      && r.state.resources == [LearningResource(insert.id, p.form.title, p.form.url, p.form.resourceType, None, None, None)] + p.resources
      && r.state.form == EMPTY_RESOURCE_FORM && !r.state.adding
      && r.state.search == p.search && r.state.filter == p.filter
    ensures !r.logsActivity
  {
    if !ResourceFormComplete(p.form) then Step(p, Some(Error("Please provide a title and URL")), false)
    else match insert
      case InsertFailed => Step(p, Some(Error("Failed to add resource")), false)
      case Inserted(id) =>
        var row := LearningResource(id, p.form.title, p.form.url, p.form.resourceType, None, None, None);
        Step(p.(resources := [row] + p.resources, form := EMPTY_RESOURCE_FORM, adding := false),
             Some(Success("Resource added successfully")), false)
  }

  /** `handleDeleteResource`: once the store deletes it, the resources with that id leave the list; the others stay in order. */
  function DeleteResource(resources: seq<LearningResource>, id: string, delete: WriteOutcome): (r: Step<seq<LearningResource>>)
    ensures delete.WriteFailed? ==> r.state == resources
    ensures delete.Written? ==> Subsequence(r.state, resources)
    ensures delete.Written? ==> forall x :: x in r.state <==> x in resources && x.id != id
    ensures delete.Written? ==> forall x :: multiset(r.state)[x] == if x.id != id then multiset(resources)[x] else 0
  {
    match delete
    case WriteFailed => Step(resources, Some(Error("Failed to delete resource")), false)
    case Written => Step(Filter(resources, (x: LearningResource) => x.id != id), Some(Success("Resource deleted")), false)
  }
}
