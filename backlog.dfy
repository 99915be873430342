/** The backlog page: things to learn or build later, and starting them as a course, a skill or a project. */
module BacklogPage {
  import opened Wrappers
  import opened Text
  import opened Lists

  /** A pending backlog row; url and description may be missing. */
  datatype BacklogItem = BacklogItem(
    id: string, title: string, category: string, priority: string,
    url: Option<string>, description: Option<string>, status: string)

  /** The add/edit dialog's fields. */
  datatype BacklogForm = BacklogForm(title: string, category: string, priority: string, url: string, description: string)

  const PENDING := "pending"
  const DEFAULT_FORM := BacklogForm("", "course", "medium", "", "")

  datatype BacklogState = BacklogState(
    items: seq<BacklogItem>, search: string, adding: bool, editing: Option<BacklogItem>, form: BacklogForm)

  /** `resetForm`: default fields, nothing being edited, dialog closed. */
  function ResetForm(p: BacklogState): (r: BacklogState)
    ensures r.form.title == "" && r.form.category == "course" && r.form.priority == "medium"
    ensures r.form.url == "" && r.form.description == ""
    ensures r.editing.None? && !r.adding && r.items == p.items && r.search == p.search
  {
    p.(form := DEFAULT_FORM, editing := None, adding := false)
  }

  /** `handleEdit`: the dialog opens on the item, a missing url or description showing as "". */
  function Edit(p: BacklogState, item: BacklogItem): (r: BacklogState)
    ensures r.editing == Some(item) && r.adding && r.items == p.items && r.search == p.search
    ensures r.form.title == item.title && r.form.category == item.category && r.form.priority == item.priority
    ensures r.form.url == item.url.GetOr("") && r.form.description == item.description.GetOr("")
  {
    p.(editing := Some(item), adding := true,
       form := BacklogForm(item.title, item.category, item.priority, item.url.GetOr(""), item.description.GetOr("")))
  }

  /** The local copy of an edited item: the form's fields spread over it. */
  function Merge(i: BacklogItem, f: BacklogForm): (r: BacklogItem)
    ensures r.id == i.id && r.status == i.status
    ensures r.title == f.title && r.category == f.category && r.priority == f.priority
    ensures r.url == Some(f.url) && r.description == Some(f.description)
  {
    i.(title := f.title, category := f.category, priority := f.priority, url := Some(f.url), description := Some(f.description))
  }

  /** The row the store returns for a new item: the form's fields with status pending. */
  function NewItem(id: string, f: BacklogForm): (r: BacklogItem)
    ensures r.id == id && r.status == PENDING
    ensures r.title == f.title && r.category == f.category && r.priority == f.priority
    ensures r.url == Some(f.url) && r.description == Some(f.description)
  {
    BacklogItem(id, f.title, f.category, f.priority, Some(f.url), Some(f.description), PENDING)
  }

  /**
   * `handleSaveItem`. An empty title is refused. When an item is being edited, `update` says whether the
   * store accepted the change and only that item is merged; otherwise `insert` says whether the new row
   * was stored and it goes first. Either success resets the form; a failure leaves the page as it was.
   */
  function SaveItem(p: BacklogState, update: WriteOutcome, insert: InsertOutcome, signedIn: bool): (r: Step<BacklogState>)
    ensures p.form.title == "" ==> r == Step(p, Some(Error("Please provide a title")), false)
    ensures p.form.title != "" && p.editing.Some? && update.WriteFailed? ==>
      r == Step(p, Some(Error("Failed to save item")), false)
    ensures p.form.title != "" && p.editing.None? && insert.InsertFailed? ==>
      r == Step(p, Some(Error("Failed to save item")), false)
    ensures p.form.title != "" && p.editing.Some? && update.Written? ==>
      && |r.state.items| == |p.items|
      && (forall i | 0 <= i < |p.items| ::
            r.state.items[i] == if p.items[i].id == p.editing.value.id then Merge(p.items[i], p.form) else p.items[i])
      && r.state == ResetForm(p.(items := r.state.items))
      && r.toast == Some(Success("Item updated")) && !r.logsActivity
    ensures p.form.title != "" && p.editing.None? && insert.Inserted? ==>
      && r.state.items == [NewItem(insert.id, p.form)] + p.items
      && r.state == ResetForm(p.(items := r.state.items))
      && r.toast == Some(Success("Added to backlog")) && r.logsActivity == signedIn
  {
    if p.form.title == "" then Step(p, Some(Error("Please provide a title")), false)
    else if p.editing.Some? then
      match update
      case WriteFailed => Step(p, Some(Error("Failed to save item")), false)
      case Written =>
        var id := p.editing.value.id;
        var items := MapWhere(p.items, (i: BacklogItem) => i.id == id, (i: BacklogItem) => Merge(i, p.form));
        Step(ResetForm(p.(items := items)), Some(Success("Item updated")), false)
    else
      match insert
      case InsertFailed => Step(p, Some(Error("Failed to save item")), false)
      case Inserted(id) =>
        Step(ResetForm(p.(items := [NewItem(id, p.form)] + p.items)), Some(Success("Added to backlog")), signedIn)
  }

  /** Opening an item for editing and saving it untouched keeps what it said; only a missing url or description becomes "". */
  lemma EditThenSaveKeepsItem(p: BacklogState, k: int)
    requires 0 <= k < |p.items| && p.items[k].title != ""
    ensures var edited := Edit(p, p.items[k]);
      var r := SaveItem(edited, Written, InsertFailed, true);
      var q := r.state.items[k];
      && q.id == p.items[k].id && q.title == p.items[k].title && q.category == p.items[k].category
      && q.priority == p.items[k].priority && q.status == p.items[k].status
      && q.url.GetOr("") == p.items[k].url.GetOr("") && q.description.GetOr("") == p.items[k].description.GetOr("")
  {
  }

  /** `handleDeleteItem`: once the store deletes it, the items with that id leave the list. */
  function DeleteItem(items: seq<BacklogItem>, id: string, delete: WriteOutcome): (r: Step<seq<BacklogItem>>)
    ensures delete.WriteFailed? ==> r == Step(items, Some(Error("Failed to remove item")), false)
    ensures delete.Written? ==> Subsequence(r.state, items) && forall i :: i in r.state <==> i in items && i.id != id
    ensures delete.Written? ==> forall i :: multiset(r.state)[i] == if i.id != id then multiset(items)[i] else 0
    ensures !r.logsActivity
  {
    match delete
    case WriteFailed => Step(items, Some(Error("Failed to remove item")), false)
    case Written => Step(Filter(items, (i: BacklogItem) => i.id != id), Some(Success("Removed from backlog")), false)
  }

  /** The row that starting an item creates, by target table. */
  datatype StartRow =
    | CourseRow(title: string, platform: string, status: string, completionPercentage: int)
    | SkillRow(name: string, level: string)
    | ProjectRow(projectTitle: string, description: Option<string>, url: Option<string>)

  /** The table and row `handleStartItem` inserts for the item's category; other categories insert nothing. */
  function StartInsert(item: BacklogItem): (r: Option<(string, StartRow)>)
    ensures item.category == "course" <==> r == Some(("courses", CourseRow(item.title, "Unknown", "in-progress", 0)))
    ensures item.category == "skill" <==> r == Some(("skills", SkillRow(item.title, "beginner")))
    ensures item.category == "project" <==> r == Some(("projects", ProjectRow(item.title, item.description, item.url)))
    ensures r.None? <==> item.category !in {"course", "skill", "project"}
  {
    if item.category == "course" then Some(("courses", CourseRow(item.title, "Unknown", "in-progress", 0)))
    else if item.category == "skill" then Some(("skills", SkillRow(item.title, "beginner")))
    else if item.category == "project" then Some(("projects", ProjectRow(item.title, item.description, item.url)))
    else None
  }

  /**
   * `handleStartItem`: `insert` is the outcome of the insert into the target table (only consulted when
   * `StartInsert` names one) and `delete` that of removing the backlog row. Only when both steps succeed
   * does the item leave the list.
   */
  function StartItem(items: seq<BacklogItem>, item: BacklogItem, insert: WriteOutcome, delete: WriteOutcome,
                     signedIn: bool): (r: Step<seq<BacklogItem>>)
    ensures (StartInsert(item).Some? && insert.WriteFailed?) || delete.WriteFailed? ==>
      r == Step(items, Some(Error("Failed to start item")), false)
    ensures (StartInsert(item).None? || insert.Written?) && delete.Written? ==>
      && Subsequence(r.state, items)
      && (forall i :: i in r.state <==> i in items && i.id != item.id)
      && (forall i :: multiset(r.state)[i] == if i.id != item.id then multiset(items)[i] else 0)
      && r.toast == Some(Success("Started " + item.category + ": " + item.title))
      && r.logsActivity == signedIn
  {
    if StartInsert(item).Some? && insert.WriteFailed? then Step(items, Some(Error("Failed to start item")), false)
    else if delete.WriteFailed? then Step(items, Some(Error("Failed to start item")), false)
    else Step(Filter(items, (i: BacklogItem) => i.id != item.id),
              Some(Success("Started " + item.category + ": " + item.title)), signedIn)
  }

  /** An item of an unmapped category starts the same way whatever an insert would have done, since none is made. */
  lemma UnmappedCategoryOnlyDeletes(items: seq<BacklogItem>, item: BacklogItem, delete: WriteOutcome, signedIn: bool)
    requires item.category !in {"course", "skill", "project"}
    ensures StartItem(items, item, WriteFailed, delete, signedIn) == StartItem(items, item, Written, delete, signedIn)
  {
  }

  /** The test inside `filtered`: title, description (when present) or category contains the search. */
  predicate ItemMatches(i: BacklogItem, search: string) {
    Matches(i.title, search) || (i.description.Some? && Matches(i.description.value, search)) || Matches(i.category, search)
  }

  /** `filtered`: the items matching the search, in their order. */
  function FilterItems(items: seq<BacklogItem>, search: string): (r: seq<BacklogItem>)
    ensures Subsequence(r, items)
    ensures forall i :: i in r <==> i in items && ItemMatches(i, search)
    ensures forall i :: multiset(r)[i] == if ItemMatches(i, search) then multiset(items)[i] else 0
  {
    Filter(items, (i: BacklogItem) => ItemMatches(i, search))
  }

  /** An empty search shows every item. */
  lemma EmptySearchShowsAll(items: seq<BacklogItem>)
    ensures FilterItems(items, "") == items
  {
    forall i | i in items ensures ItemMatches(i, "") {
      EmptyQueryMatches(i.title);
    }
    FilterKeepsAll(items, (i: BacklogItem) => ItemMatches(i, ""));
  }
}
