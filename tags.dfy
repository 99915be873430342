/** Tag editing shared by the skill form, the project form and the notes panel, and the tag cloud built from all records. */
module Tags {
  import opened Text
  import opened Lists
  import opened Wrappers

  /** The tag list and the tag input text after a key press in the tag field. */
  datatype TagEdit = TagEdit(tags: seq<string>, input: string)

  /** Enter on a non-blank input appends the trimmed text unless it is already a tag, and clears the input; any other key changes nothing. */
  function AddTag(key: string, input: string, tags: seq<string>): (r: TagEdit)
    ensures key != "Enter" || Trim(input) == [] ==> r == TagEdit(tags, input)
    ensures key == "Enter" && Trim(input) != [] ==>
      && r.input == ""
      && Trim(input) in r.tags
      && |tags| <= |r.tags| <= |tags| + 1
      && r.tags[..|tags|] == tags
      && (Trim(input) in tags ==> r.tags == tags)
    ensures forall t | t in r.tags :: t in tags || t == Trim(input)
    ensures NoDuplicates(tags) ==> NoDuplicates(r.tags)
  {
    var tag := Trim(input);
    if key == "Enter" && tag != [] then
      if tag !in tags then
        AppendFresh(tags, tag);
        TagEdit(tags + [tag], "")
      else TagEdit(tags, "")
    else TagEdit(tags, input)
  }

  /** A tag is stored trimmed, so entering the stored text again adds nothing and only clears the input. */
  lemma ReenteringTagAddsNothing(input: string, tags: seq<string>)
    requires Trim(input) != []
    ensures var e := AddTag("Enter", input, tags);
      AddTag("Enter", Trim(input), e.tags) == TagEdit(e.tags, "")
  {
    TrimIdempotent(input);
  }

  /** `tags.filter(t => t !== tag)`: every copy of `tag` goes, the other tags stay in their order. */
  function RemoveTag(tags: seq<string>, tag: string): (r: seq<string>)
    ensures tag !in r
    ensures forall t | t != tag :: t in r <==> t in tags
    ensures forall t | t != tag :: multiset(r)[t] == multiset(tags)[t]
    ensures Subsequence(r, tags)
    ensures NoDuplicates(tags) ==> NoDuplicates(r)
  {
    var keep := (t: string) => t != tag;
    FilterNoDuplicates(tags, keep);
    Filter(tags, keep)
  }

  /** `Array.from(new Set(lists.flat())).sort()`: every tag of every list, once each, in string order. */
  function AllTags(lists: seq<seq<string>>): (r: seq<string>)
    ensures Sorted(r)
    ensures NoDuplicates(r)
    ensures forall t :: t in r <==> exists i | 0 <= i < |lists| :: t in lists[i]
  {
    var distinct := Dedup(Flatten(lists));
    var r := Sort(distinct);
    PermutationNoDuplicates(distinct, r);
    PermutationSameElements(distinct, r);
    r
  }

  /** The tag filter is off: no tag selected, or the empty string, which JavaScript treats as none. */
  predicate NoTagSelected(selectedTag: Option<string>) {
    selectedTag.None? || selectedTag.value == ""
  }

  /** Removing a tag that was just added takes the list back to what it was. */
  lemma RemoveUndoesAdd(input: string, tags: seq<string>)
    requires Trim(input) != [] && Trim(input) !in tags
    ensures RemoveTag(AddTag("Enter", input, tags).tags, Trim(input)) == tags
  {
    var tag := Trim(input);
    FilterKeepsAll(tags, (t: string) => t != tag);
    assert AddTag("Enter", input, tags).tags == tags + [tag];
    FilterAppendRejected(tags, tag, (t: string) => t != tag);
  }

  lemma {:induction false} FilterAppendRejected(xs: seq<string>, y: string, keep: string -> bool)
    requires !keep(y)
    ensures Filter(xs + [y], keep) == Filter(xs, keep)
  {
    if xs == [] {
      assert [y][1..] == [];
    } else {
      assert (xs + [y])[1..] == xs[1..] + [y];
      FilterAppendRejected(xs[1..], y, keep);
    }
  }
}
