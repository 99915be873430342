/** The skills page: adding a skill, editing its tags, searching and filtering by tag, and changing its level. */
module Skills {
  import opened Wrappers
  import opened Text
  import opened Lists
  import opened Records
  import Tags

  const MAX_NAME_LENGTH := 50

  /** The add-skill form (`newSkill`). */
  datatype SkillForm = SkillForm(name: string, level: string, tags: seq<string>)

  const EMPTY_FORM := SkillForm("", BEGINNER, [])

  datatype SkillsPage = SkillsPage(
    skills: seq<Skill>, form: SkillForm, tagInput: string,
    search: string, selectedTag: Option<string>, adding: bool)

  datatype NameCheck = NameOk(name: string) | NameMissing | NameTooLong

  /** The guard at the top of `handleAddSkill`: a blank name is missing, more than 50 characters after trimming is too long. */
  function CheckSkillName(name: string): (r: NameCheck)
    ensures r.NameMissing? <==> Trim(name) == []
    ensures r.NameTooLong? <==> |Trim(name)| > MAX_NAME_LENGTH
    ensures r.NameOk? ==> r.name == Trim(name) && 0 < |r.name| <= MAX_NAME_LENGTH
  {
    var trimmed := Trim(name);
    if trimmed == [] then NameMissing
    else if |trimmed| > MAX_NAME_LENGTH then NameTooLong
    else NameOk(trimmed)
  }

  /**
   * `handleAddSkill`: on a valid name, insert the skill with the trimmed name and, when the insert
   * succeeds, put the stored row first, reset the form and close the dialog. `signedIn` tells
   * whether `getUser` found a user (only then is activity logged).
   */
  function AddSkill(p: SkillsPage, insert: InsertOutcome, signedIn: bool): (r: Step<SkillsPage>)
    ensures CheckSkillName(p.form.name).NameMissing? ==>
      r == Step(p, Some(Error("Please provide a skill name")), false)
    ensures CheckSkillName(p.form.name).NameTooLong? ==>
      r == Step(p, Some(Error("Skill name is too long")), false)
    ensures CheckSkillName(p.form.name).NameOk? && insert.InsertFailed? ==>
      r == Step(p, Some(Error("Failed to add skill")), false)
    ensures CheckSkillName(p.form.name).NameOk? && insert.Inserted? ==>
      && |r.state.skills| == |p.skills| + 1
      && r.state.skills[0] == Skill(insert.id, Trim(p.form.name), p.form.level, p.form.tags)
      && r.state.skills[1..] == p.skills
      && 0 < |r.state.skills[0].name| <= MAX_NAME_LENGTH
      && r.state == p.(skills := r.state.skills, form := EMPTY_FORM, adding := false)
      && r.logsActivity == signedIn
      && r.toast == Some(Success("Skill added successfully"))
  {
    match CheckSkillName(p.form.name)
    case NameMissing => Step(p, Some(Error("Please provide a skill name")), false)
    case NameTooLong => Step(p, Some(Error("Skill name is too long")), false)
    case NameOk(trimmed) =>
      match insert
      case InsertFailed => Step(p, Some(Error("Failed to add skill")), false)
      case Inserted(id) =>
        var row := Skill(id, trimmed, p.form.level, p.form.tags);
        Step(p.(skills := [row] + p.skills, form := EMPTY_FORM, adding := false),
             Some(Success("Skill added successfully")), signedIn)
  }

  /** `handleAddTag` of the skill form: the tag rule applied to the form's tags and the tag input. */
  function AddFormTag(p: SkillsPage, key: string): (r: SkillsPage)
    ensures key != "Enter" || Trim(p.tagInput) == [] ==> r == p
    ensures key == "Enter" && Trim(p.tagInput) != [] ==>
      && r.tagInput == ""
      && r.form.tags == (if Trim(p.tagInput) in p.form.tags then p.form.tags else p.form.tags + [Trim(p.tagInput)])
    ensures r == p.(form := p.form.(tags := r.form.tags), tagInput := r.tagInput)
    ensures NoDuplicates(p.form.tags) ==> NoDuplicates(r.form.tags)
  {
    var edit := Tags.AddTag(key, p.tagInput, p.form.tags);
    p.(form := p.form.(tags := edit.tags), tagInput := edit.input)
  }

  /** `removeTag` of the skill form. */
  function RemoveFormTag(p: SkillsPage, tag: string): (r: SkillsPage)
    ensures tag !in r.form.tags
    ensures forall t | t != tag :: t in r.form.tags <==> t in p.form.tags
    ensures forall t | t != tag :: multiset(r.form.tags)[t] == multiset(p.form.tags)[t]
    ensures Subsequence(r.form.tags, p.form.tags)
    ensures r == p.(form := p.form.(tags := r.form.tags))
  {
    p.(form := p.form.(tags := Tags.RemoveTag(p.form.tags, tag)))
  }

  /** `allTags`: every tag of every skill, once each, sorted. */
  function AllSkillTags(skills: seq<Skill>): (r: seq<string>)
    ensures Text.Sorted(r) && NoDuplicates(r)
    ensures forall t :: t in r <==> exists s | s in skills :: t in s.tags
  {
    var lists := seq(|skills|, i requires 0 <= i < |skills| => skills[i].tags);
    TagListsOfSkills(skills, lists);
    Tags.AllTags(lists)
  }

  lemma TagListsOfSkills(skills: seq<Skill>, lists: seq<seq<string>>)
    requires |lists| == |skills| && forall i | 0 <= i < |skills| :: lists[i] == skills[i].tags
    ensures forall t :: t in Tags.AllTags(lists) <==> exists s | s in skills :: t in s.tags
  {
    forall t ensures t in Tags.AllTags(lists) <==> exists s | s in skills :: t in s.tags {
      if exists s | s in skills :: t in s.tags {
        var s :| s in skills && t in s.tags;
        var i :| 0 <= i < |skills| && skills[i] == s;
        assert t in lists[i];
      }
    }
  }

  /** The test inside `filtered`: name or some tag matches the search, and the selected tag, if any, is one of its tags. */
  predicate SkillMatches(s: Skill, search: string, selectedTag: Option<string>) {
    && (Matches(s.name, search) || exists t | t in s.tags :: Matches(t, search))
    && (Tags.NoTagSelected(selectedTag) || selectedTag.value in s.tags)
  }

  /** `filtered`: the skills that pass the search and tag test, in their order. */
  function FilterSkills(skills: seq<Skill>, search: string, selectedTag: Option<string>): (r: seq<Skill>)
    ensures Subsequence(r, skills)
    ensures forall s :: s in r <==> s in skills && SkillMatches(s, search, selectedTag)
    ensures forall s :: multiset(r)[s] == if SkillMatches(s, search, selectedTag) then multiset(skills)[s] else 0
    ensures !Tags.NoTagSelected(selectedTag) ==> forall s | s in r :: selectedTag.value in s.tags
  {
    Filter(skills, (s: Skill) => SkillMatches(s, search, selectedTag))
  }

  /** With an empty search box and no tag selected, every skill is shown. */
  lemma EmptySearchShowsAll(skills: seq<Skill>)
    ensures FilterSkills(skills, "", None) == skills
  {
    forall s | s in skills ensures SkillMatches(s, "", None) {
      EmptyQueryMatches(s.name);
    }
    FilterKeepsAll(skills, (s: Skill) => SkillMatches(s, "", None));
  }

  /**
   * `handleUpdateLevel`: once the store accepts the update, only the skill with that id gets the new
   * level; activity is logged only for a signed-in user reaching "advanced".
   */
  function UpdateLevel(skills: seq<Skill>, id: string, newLevel: string, update: WriteOutcome, signedIn: bool): (r: Step<seq<Skill>>)
    ensures update.WriteFailed? ==> r == Step(skills, Some(Error("Failed to update skill level")), false)
    ensures |r.state| == |skills|
    ensures forall i | 0 <= i < |skills| && skills[i].id != id :: r.state[i] == skills[i]
    ensures forall i | 0 <= i < |skills| && skills[i].id == id && update.Written? ::
      r.state[i] == skills[i].(level := newLevel)
    ensures r.logsActivity <==> update.Written? && signedIn && newLevel == ADVANCED
  {
    match update
    case WriteFailed => Step(skills, Some(Error("Failed to update skill level")), false)
    case Written =>
      var updated := MapWhere(skills, (s: Skill) => s.id == id, (s: Skill) => s.(level := newLevel));
      Step(updated, Some(Success("Skill level updated")), signedIn && newLevel == ADVANCED)
  }

  /** `handleDeleteSkill`: once the store deletes it, the skills with that id leave the list; the others stay in order. */
  function DeleteSkill(skills: seq<Skill>, id: string, delete: WriteOutcome): (r: Step<seq<Skill>>)
    ensures delete.WriteFailed? ==> r.state == skills
    ensures delete.Written? ==> Subsequence(r.state, skills)
    ensures delete.Written? ==> forall s :: s in r.state <==> s in skills && s.id != id
    ensures delete.Written? ==> forall s :: multiset(r.state)[s] == if s.id != id then multiset(skills)[s] else 0
    ensures !r.logsActivity
  {
    match delete
    case WriteFailed => Step(skills, Some(Error("Failed to delete skill")), false)
    case Written => Step(Filter(skills, (s: Skill) => s.id != id), Some(Success("Skill deleted")), false)
  }

  /** `getLevelProgress`: the percentage shown for a level. */
  function LevelProgress(level: string): (pct: int)
    ensures level == BEGINNER ==> pct == 33
    ensures level == INTERMEDIATE ==> pct == 66
    ensures level == ADVANCED ==> pct == 100
    ensures level !in LEVELS ==> pct == 0
    ensures 0 <= pct <= 100
  {
    if level == BEGINNER then 33
    else if level == INTERMEDIATE then 66
    else if level == ADVANCED then 100
    else 0
  }

  /** The percentage grows with the level: a later level in the order never shows less. */
  lemma LevelProgressMonotone(i: int, j: int)
    requires 0 <= i <= j < |LEVELS|
    ensures 0 < LevelProgress(LEVELS[i]) <= LevelProgress(LEVELS[j])
  {
  }
}
