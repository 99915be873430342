# Steromind: a verified model of the activity streak and the page rules

Steromind is a personal learning tracker. Its pages keep skills, projects, courses, learning
resources, a backlog and goals. Most actions a signed-in user takes also record an activity for
the day. From those activity rows the app derives a streak: the number of consecutive days,
ending today or yesterday, on which something was recorded.

This project models two things in Dafny:

- The activity pair, written imperatively as in the source.
  - `Activity.ProgressLogs.LogActivity` is the read-then-write upsert on the `progress_logs` table. It is a class over a map and is proved against the function `Activity.AfterLog`.
  - `Streak.StreakHook.CalculateStreak` is the hook's state update. `Streak.CountRun` is its backward walk, proved against `Streak.RunLength` and the maximal-run predicate `Streak.IsRun`.
  - A lemma connects the two: recording an activity today lengthens the streak by one day (`Streak.RecordingTodayExtendsStreak`).
- The pure rules inside the pages, written as functions over values: validation guards, prepending, removing and updating by id, duplicate-free tag editing, the sorted tag cloud, search and filter predicates, the goal status toggle, the backlog start mapping, the skill-level bar, and the frame's routing decision.
  - Every store call is an injected outcome parameter: `WriteOutcome`, `InsertOutcome`, or `Activity.Fault` for the recorder.
  - Every handler returns a `Step`: the new page state, the toast shown, and whether it records an activity.

Days are whole day numbers, so yesterday is `today - 1`. Strings are `seq<char>`.
`Text.Lower` lowers ASCII letters only. `Text.Sort` orders strings the way JavaScript's default
`.sort()` does, which is the order the tag clouds use. It compares UTF-16 code units, so a character
above U+FFFF, stored as a surrogate pair, sorts before U+E000–U+FFFF. `Text.LexLeIsUnitOrder` proves
that the model's character-by-character order is exactly this code-unit order.

## Model

| member | source | states |
|---|---|---|
| Activity.AfterLog | src/lib/activity.ts:3-39 | With no fault, an existing (user, day) row's value grows by one and a missing row appears with value 1. A thrown lookup, a lost write, or a lookup error other than PGRST116 leaves the table unchanged. A PGRST116 lookup error writes value 1. No other row changes and no other key appears. |
| Activity.ProgressLogs.LogActivity | src/lib/activity.ts:3-39 | The imperative lookup / early-return / update-or-insert produces exactly `AfterLog` of the old table and keeps every value at least 1. Every fault ends in a normal return, so nothing is raised to the caller; the table is a map, so there is at most one row per (user, day). |
| Activity.ProgressLogs.constructor | src/lib/activity.ts:8-13 | An empty table, which satisfies the positive-value invariant. |
| Activity.DaysOf | src/hooks/useStreak.ts:17-21 | The days the query for a user returns are exactly the days for which that user has a row. |
| Activity.LoggingAddsToday | src/lib/activity.ts:20-34 | A successful call adds today to the user's logged days. |
| Activity.LoggingKeepsOtherUsers | src/lib/activity.ts:8-34 | A call for one user, whatever its outcome, leaves every other user's logged days alone. |
| Activity.RepeatedLogsCount | src/lib/activity.ts:20-34 | Starting from no row, n successful calls on one day leave that row with value n, and every other row is unchanged. |
| Streak.RunLength | src/hooks/useStreak.ts:60-68 | The backward walk's count from an anchor is a maximal run (`IsRun`) and never exceeds the number of distinct logged days. |
| Streak.RunUnique | src/hooks/useStreak.ts:60-68 | A maximal run from an anchor has a single length, so the walk's result is determined. |
| Streak.CountRun | src/hooks/useStreak.ts:41-68 | The `while (true)` loop with `break` terminates by `|days| - count`. It returns a maximal run of logged days ending at the anchor, equal to `RunLength`. |
| Streak.Anchor | src/hooks/useStreak.ts:51-58 | There is no anchor exactly when neither today nor yesterday is logged. Otherwise the anchor is today if today is logged, else yesterday, and it is always a logged day. |
| Streak.StreakLength | src/hooks/useStreak.ts:36-70 | The streak is 0 exactly when neither today nor yesterday is logged. It is a maximal run from the anchor and at most the number of distinct logged days. |
| Streak.DaySet | src/hooks/useStreak.ts:39 | The set holds exactly the fetched dates. |
| Streak.StreakIsRun | src/hooks/useStreak.ts:51-68 | For k > 0, the streak is k if and only if the anchor exists and starts a maximal run of k logged days. |
| Streak.LoggingTodayExtends | src/hooks/useStreak.ts:45-68 | Adding a not-yet-logged today lengthens the streak by exactly one. This covers the grace day (yesterday logged) as well as a broken streak. |
| Streak.RecordingTodayExtendsStreak | src/lib/activity.ts:20-34 | A successful `logActivity` for a user with no row today raises that user's streak by exactly one. |
| Streak.ThreeDaysUpToToday | src/hooks/useStreak.ts:58-68 | Days today-2, today-1 and today give a streak of 3. |
| Streak.GraceDay | src/hooks/useStreak.ts:51-58 | Example: days today-1, today-2 and today-3, none today, give a streak of 3. |
| Streak.GraceDayRule | src/hooks/useStreak.ts:51-58 | With today unlogged and yesterday logged, the streak is the run ending at yesterday, at least 1. |
| Streak.BrokenStreak | src/hooks/useStreak.ts:51-55 | Example: days today-2 and today-3 only give a streak of 0. |
| Streak.BrokenStreakRule | src/hooks/useStreak.ts:51-55 | With neither today nor yesterday logged, the streak is 0 whatever older days are logged. |
| Streak.DisconnectedDayIgnored | src/hooks/useStreak.ts:60-68 | Example: days today, today-1 and today-5 give a streak of 2. |
| Streak.DayBeyondGapIgnored | src/hooks/useStreak.ts:60-68 | Logging a day beyond the first gap before the anchor leaves the streak unchanged. |
| Streak.StreakHook.constructor | src/hooks/useStreak.ts:5-7 | The hook starts at streak 0, not logged today, and loading. |
| Streak.StreakHook.CalculateStreak | src/hooks/useStreak.ts:10-72 | With no user or on a fetch error, streak and hasLoggedToday are unchanged. Empty logs give 0 and false. Otherwise the streak is `StreakLength` of the fetched days, and hasLoggedToday becomes true when today is among them (it is never reset here). Loading always ends as false. |
| Text.TrimStart | src/app/skills/page.tsx:70-79 | The result is a suffix of the input that does not start with white space. |
| Text.TrimEnd | src/app/skills/page.tsx:70-79 | The result is a prefix of the input that does not end with white space. |
| Text.Trim | src/app/skills/page.tsx:70-79 | The result is the input with only leading and trailing white space removed: it sits at some position, everything before and after it is white space, and it neither starts nor ends with white space. It is empty exactly when the input is all white space. |
| Text.TrimIdempotent | src/app/skills/page.tsx:110-118 | Trimming twice equals trimming once, so a trimmed tag is stored as typed after trimming. |
| Text.Lower | src/app/skills/page.tsx:126-131 | Same length, each character lowered. |
| Text.LowerIdempotent | src/app/skills/page.tsx:126-131 | Lowering twice equals lowering once. |
| Text.EmptyQueryMatches | src/app/skills/page.tsx:126-131 | The empty search matches every text. |
| Text.TextMatchesItself | src/app/skills/page.tsx:126-131 | Every text matches a search for itself. |
| Text.MatchesIgnoresCase | src/app/skills/page.tsx:127 | Lower-casing the text or the query before the search changes no result. |
| Text.Matches | src/app/skills/page.tsx:127 | Definition of `text.toLowerCase().includes(query.toLowerCase())`: the lowered query occurs in the lowered text. |
| Text.LexTotal | src/app/skills/page.tsx:124 | The UTF-16 code-unit order the default `.sort()` uses is total. |
| Text.LexAntisymmetric | src/app/skills/page.tsx:124 | The UTF-16 code-unit order is antisymmetric: strings that sort both ways are equal. |
| Text.LexTransitive | src/app/skills/page.tsx:124 | The UTF-16 code-unit order is transitive. |
| Text.LexLe | src/app/skills/page.tsx:124 | Definition of the comparison the default `.sort()` makes: character by character on UTF-16 code units, a prefix first. |
| Text.Insert | src/app/skills/page.tsx:124 | Inserting into a sorted list keeps it sorted and adds exactly that element. |
| Text.Sort | src/app/skills/page.tsx:124 | `.sort()` returns a sorted permutation of its input. |
| Text.CodeUnits | src/app/skills/page.tsx:124 | A character below U+10000 is the single code unit of its own value. Above, it is a high surrogate (U+D800–U+DBFF) then a low surrogate (U+DC00–U+DFFF), which decode back to the character. |
| Text.KeyInjective | src/app/skills/page.tsx:124 | Distinct characters have distinct sort keys, so the order is total. |
| Text.DistinctCharsDecide | src/app/skills/page.tsx:124 | At the first differing character, the code units decide the comparison, whatever follows. |
| Text.LexLeIsUnitOrder | src/app/skills/page.tsx:124 | The model's order holds exactly when the first string's UTF-16 code units come no later than the second's, unit by unit, which is the comparison of the default `.sort()`. |
| Text.AstralBeforeHighBmp | src/app/projects/page.tsx:229 | U+1F600 sorts before U+FF21, because its first code unit 0xD83D is smaller than 0xFF21. |
| Lists.Filter | src/app/projects/page.tsx:206 | `Array.filter` keeps, in order, exactly the elements passing the test, with their multiplicities. |
| Lists.FilterKeepsAll | src/app/resources/page.tsx:125-130 | A test every element passes keeps the whole list. |
| Lists.FilterNoDuplicates | src/app/skills/page.tsx:120-122 | Filtering a duplicate-free list leaves it duplicate-free. |
| Lists.MapWhere | src/app/skills/page.tsx:159 | The id-matching `map` keeps length and order, transforms the matching elements and returns the others unchanged. |
| Lists.Flatten | src/app/skills/page.tsx:124 | `flatMap` holds exactly the elements of the inner lists. |
| Lists.Dedup | src/app/skills/page.tsx:124 | `new Set` keeps one copy of each element and the same elements. The order is not stated, because the tag cloud sorts the result next. |
| Lists.PermutationNoDuplicates | src/app/skills/page.tsx:124 | Sorting a duplicate-free list keeps it duplicate-free. |
| Lists.PermutationSameElements | src/app/skills/page.tsx:124 | Sorting keeps the same elements. |
| Tags.AddTag | src/app/skills/page.tsx:110-118 | Enter and a non-blank input append the trimmed tag unless it is already there, and clear the input. Any other key or a blank input changes nothing. The old tags stay as a prefix, and the list stays duplicate-free. |
| Tags.RemoveTag | src/app/skills/page.tsx:120-122 | Every copy of the tag goes; the others keep their order and counts; duplicate-freedom is kept. |
| Tags.AllTags | src/app/skills/page.tsx:124 | The tag cloud is sorted, duplicate-free, and holds exactly the tags of the lists. |
| Tags.ReenteringTagAddsNothing | src/app/skills/page.tsx:110-118 | The stored tag is already trimmed, so entering it again leaves the tags as they are and clears the input. |
| Tags.RemoveUndoesAdd | src/app/projects/page.tsx:214-227 | Removing a tag just added restores the original list. |
| Tags.NoTagSelected | src/app/skills/page.tsx:129 | Definition of `!selectedTag`: no tag, or the empty tag. |
| Goals.Toggle | src/app/goals/page.tsx:62-66 | Completed becomes In Progress at 85; any other status becomes Completed at 100; title, description, deadline and priority are kept. |
| Goals.ToggleStatus | src/app/goals/page.tsx:59-71 | Length, order and ids are kept, goals with another id are unchanged, and the matching goal is toggled. |
| Goals.ToggleTwice | src/app/goals/page.tsx:62-66 | Toggling twice restores every Completed and In Progress status, and a Completed goal at 100 entirely. |
| Skills.CheckSkillName | src/app/skills/page.tsx:70-79 | Missing exactly when the trimmed name is empty; too long exactly when it exceeds 50 characters; otherwise the trimmed name. |
| Skills.AddSkill | src/app/skills/page.tsx:69-108 | Each guard gives its own error toast and no change. A failed insert changes nothing. A stored skill with the trimmed name goes first, the form resets, the dialog closes, and activity is recorded when signed in. The search, the selected tag and the tag input stay as they were. |
| Skills.AddFormTag | src/app/skills/page.tsx:110-118 | Any key but Enter, or a blank input, changes nothing. Enter on a non-blank input clears the input and appends the trimmed tag only if it is absent. Nothing but the form's tags and the input changes, and the tags stay duplicate-free. |
| Skills.RemoveFormTag | src/app/skills/page.tsx:120-122 | Removes every copy of that tag from the form. The other tags keep their order and counts, and nothing else changes. |
| Skills.AllSkillTags | src/app/skills/page.tsx:124 | Sorted, duplicate-free, and exactly the tags some skill has. |
| Skills.FilterSkills | src/app/skills/page.tsx:126-131 | An order-preserving subsequence of the skills whose name or some tag matches the search; with a tag selected, every result has it. Each shown skill appears as often as in the list. |
| Skills.SkillMatches | src/app/skills/page.tsx:127-130 | Definition of the skills filter callback: name or some tag matches the search, and the selected tag, if any, is among the tags. |
| Skills.EmptySearchShowsAll | src/app/skills/page.tsx:126-131 | No search and no tag shows every skill. |
| Skills.UpdateLevel | src/app/skills/page.tsx:150-169 | Only the matching skill's level changes. A failed update changes nothing. Activity is recorded only when the update is stored, a user is signed in and the new level is advanced. |
| Skills.DeleteSkill | src/app/skills/page.tsx:133-148 | After a stored delete, exactly the skills with other ids remain, in order and with their counts. |
| Skills.LevelProgress | src/app/skills/page.tsx:171-178 | beginner 33, intermediate 66, advanced 100, anything else 0. |
| Skills.LevelProgressMonotone | src/app/skills/page.tsx:171-178 | A later level never shows a smaller percentage. |
| SkillLevel.IndexOf | src/components/SkillLevelIndicator.tsx:18 | `indexOf` gives the first position of the value, or -1 exactly when it is absent. |
| SkillLevel.LevelIndex | src/components/SkillLevelIndicator.tsx:17-18 | beginner 0, intermediate 1, advanced 2, and -1 exactly for any other level. |
| SkillLevel.Segments | src/components/SkillLevelIndicator.tsx:40-48 | Three segments, one per level, with segment i filled if and only if i is at most the level's index. |
| SkillLevel.FilledPrefix | src/components/SkillLevelIndicator.tsx:43 | The filled segments form a prefix. |
| SkillLevel.FilledCount | src/components/SkillLevelIndicator.tsx:17-18 | beginner fills 1 segment, intermediate 2, advanced 3, any other level none. |
| SkillLevel.BarAgreesWithProgress | src/components/SkillLevelIndicator.tsx:40-48 | The bar and the skills page's percentage rank levels alike. |
| SkillLevel.BadgeTone | src/components/SkillLevelIndicator.tsx:20-35 | The strong colour for advanced only, the medium one for intermediate only. |
| SkillLevel.Draw | src/components/SkillLevelIndicator.tsx:11-57 | The badge variant shows the level in its tone. The bar variant shows the segments, with the level as a label if and only if showLabel is true. A missing variant means the bar, and a missing showLabel means no label. |
| SkillLevel.DefaultIsUnlabelledBar | src/components/SkillLevelIndicator.tsx:11-16 | With only a level given, the indicator is the bar without a label. |
| ResourcesPage.AddFormTypes | src/app/resources/page.tsx:179 | The add form offers every type except "all", in the list's order. |
| ResourcesPage.FilterResources | src/app/resources/page.tsx:125-130 | An order-preserving subsequence of the resources whose title or url matches the search and whose type equals the filter, unless the filter is "all". Each shown resource appears as often as in the list. |
| ResourcesPage.ResourceMatches | src/app/resources/page.tsx:125-128 | Definition of the resources filter callback: title or url matches the search, and the type equals the filter unless it is "all". |
| ResourcesPage.AllFilterShowsEverything | src/app/resources/page.tsx:128 | The "all" filter with no search shows every resource. |
| ResourcesPage.AddResource | src/app/resources/page.tsx:78-107 | A missing title or url is refused, and a failed insert changes nothing. A stored row goes first, the form resets to link, and the dialog closes. No activity is recorded. |
| ResourcesPage.ResourceFormComplete | src/app/resources/page.tsx:79 | Definition of the guard: both title and url are non-empty. |
| ResourcesPage.DeleteResource | src/app/resources/page.tsx:109-123 | After a stored delete, exactly the resources with other ids remain, in order and with their counts. |
| NotesPanel.Open | src/components/NotesAndResources.tsx:53-73 | The panel starts from its props. Missing tags default to none and a missing image url to ""; no resources yet, an empty resource form, and no tag input. |
| NotesPanel.OwnerField | src/components/NotesAndResources.tsx:96 | course_id for 'course', module_id for 'module', project_id otherwise. |
| NotesPanel.NewResource | src/components/NotesAndResources.tsx:152-162 | The new resource carries the entity id in exactly the owner field, so the panel's fetch finds it. |
| NotesPanel.AddResource | src/components/NotesAndResources.tsx:144-180 | A missing title or url is refused. A stored resource goes first: the new row with the form's title, url and type and the entity id in the owner field. The form resets to title "", url "" and type link, and activity is recorded when signed in. The notes, summary, tags, image url and tag input stay as they were. |
| NotesPanel.DeleteResource | src/components/NotesAndResources.tsx:182-196 | After a stored delete, exactly the resources with other ids remain, in order and with their counts. |
| NotesPanel.AddPanelTag | src/components/NotesAndResources.tsx:75-83 | Any key but Enter, or a blank input, changes nothing. Enter on a non-blank input clears the input and appends the trimmed tag only if it is absent. Nothing else changes, and the tags stay duplicate-free. |
| NotesPanel.RemovePanelTag | src/components/NotesAndResources.tsx:85-87 | Removes every copy of that tag. The other tags keep their order and counts, and nothing else changes. |
| NotesPanel.UploadScreenshot | src/components/NotesAndResources.tsx:113-142 | A successful upload sets the image url to the public url and changes nothing else; a failed one changes nothing. |
| NotesPanel.Save | src/components/NotesAndResources.tsx:428 | The save hands over the current notes, summary, tags and image url unchanged. |
| ProjectsPage.AddProject | src/app/projects/page.tsx:140-171 | A failed insert changes nothing. A stored project goes first with the form's title, description, url, repository url, image url and tags, the form resets, the dialog closes, and activity is recorded when signed in. The search, the selected tag and the tag input stay as they were. |
| ProjectsPage.WithNotes | src/app/projects/page.tsx:176-179 | Notes, summary and tags are replaced. The image url is replaced only when one is given, and every other field is kept. |
| ProjectsPage.SaveNotes | src/app/projects/page.tsx:173-198 | A failed update changes nothing. Otherwise only projects with that id are merged, the rest are unchanged, and activity is recorded when signed in. |
| ProjectsPage.DeleteProject | src/app/projects/page.tsx:200-212 | Nothing happens without confirmation. After a stored delete, exactly the projects with other ids remain, in order and with their counts. |
| ProjectsPage.AddFormTag | src/app/projects/page.tsx:214-223 | Any key but Enter, or a blank input, changes nothing. Enter on a non-blank input clears the input and appends the trimmed tag only if it is absent. Nothing but the form's tags and the input changes, and the tags stay duplicate-free. |
| ProjectsPage.RemoveFormTag | src/app/projects/page.tsx:225-227 | Removes every copy of that tag from the form. The other tags keep their order and counts, and nothing else changes. |
| ProjectsPage.AllProjectTags | src/app/projects/page.tsx:229 | Sorted, duplicate-free, and exactly the tags some project has. |
| ProjectsPage.FilterProjects | src/app/projects/page.tsx:231-237 | An order-preserving subsequence of the projects whose title, description (a missing one as "") or some tag matches the search; with a tag selected, every result has it. Each shown project appears as often as in the list. |
| ProjectsPage.ProjectMatches | src/app/projects/page.tsx:232-236 | Definition of the projects filter callback: title, description (a missing one as "") or some tag matches the search, and the selected tag, if any, is among the tags. |
| ProjectsPage.EmptySearchShowsAll | src/app/projects/page.tsx:231-237 | No search and no tag shows every project. |
| ProjectsPage.OpenNotesAsWritten | src/app/projects/page.tsx:517-525 | As written, the panel opens with image url "". |
| ProjectsPage.SaveFromNotesAsWritten | src/app/projects/page.tsx:524 | As written, saving from the panel never changes any project's image url. |
| ProjectsPage.ScreenshotLostAsWritten | src/app/projects/page.tsx:517-525 | As written, an uploaded screenshot is shown in the panel but lost on save. |
| ProjectsPage.OpenNotes | src/app/projects/page.tsx:517-525 | Corrected: the panel opens with the project's own image url. |
| ProjectsPage.SaveFromNotes | src/app/projects/page.tsx:524 | Corrected: a stored save sets the project's image url to the panel's; other projects are unchanged. |
| ProjectsPage.ScreenshotSaved | src/app/projects/page.tsx:173-198 | Corrected: an uploaded screenshot is stored, and saving without an upload keeps the project's screenshot. |
| BacklogPage.ResetForm | src/app/backlog/page.tsx:91-95 | Defaults title "", category course, priority medium, url and description ""; nothing is being edited; the dialog closes. |
| BacklogPage.Edit | src/app/backlog/page.tsx:168-178 | The form is filled from the item, with a missing url or description shown as "". The item is marked as being edited and the dialog opens. The list and the search stay as they were. |
| BacklogPage.Merge | src/app/backlog/page.tsx:122 | The edited item takes the form's fields and keeps its id and status. |
| BacklogPage.NewItem | src/app/backlog/page.tsx:124-132 | A new item takes the form's fields with status pending. |
| BacklogPage.SaveItem | src/app/backlog/page.tsx:97-150 | An empty title is refused, and a failed store call changes nothing. An edit merges only the item with the edited id. A create puts the pending item first and records activity when signed in. Either success resets the form. |
| BacklogPage.EditThenSaveKeepsItem | src/app/backlog/page.tsx:107-123 | Editing an item and saving it untouched keeps its title, category, priority, status, url and description, with a missing url or description becoming "". |
| BacklogPage.DeleteItem | src/app/backlog/page.tsx:152-166 | After a stored delete, exactly the items with other ids remain, in order and with their counts. |
| BacklogPage.StartInsert | src/app/backlog/page.tsx:186-200 | course gives a courses row (status in-progress, completion 0, platform Unknown); skill gives a skills row (level beginner); project gives a projects row; any other category gives no insert. |
| BacklogPage.StartItem | src/app/backlog/page.tsx:180-226 | A failed insert into the target table, or a failed backlog delete, leaves the list unchanged. Otherwise every row with the item's id leaves the list, the others keeping their order and counts, whatever the category; the toast names the category and title, and activity is recorded when signed in. |
| BacklogPage.UnmappedCategoryOnlyDeletes | src/app/backlog/page.tsx:199-207 | An item of an unmapped category reaches the delete with no insert at all. |
| BacklogPage.FilterItems | src/app/backlog/page.tsx:246-250 | An order-preserving subsequence of the items whose title, description (when present) or category matches the search. Each shown item appears as often as in the list. |
| BacklogPage.ItemMatches | src/app/backlog/page.tsx:246-250 | Definition of the backlog filter callback: title, description when present, or category matches the search. |
| BacklogPage.EmptySearchShowsAll | src/app/backlog/page.tsx:246-250 | An empty search shows every item. |
| CoursesPage.FilterCourses | src/app/courses/page.tsx:49-52 | An order-preserving subsequence: everything under "all", otherwise exactly the courses with that status. |
| CoursesPage.Shown | src/app/courses/page.tsx:49-52 | Definition of the courses filter callback: everything under "all", otherwise a status equal to the filter. |
| CoursesPage.AllShowsEverything | src/app/courses/page.tsx:50 | The "all" filter returns every course. |
| CoursesPage.StatusFiltersPartition | src/app/courses/page.tsx:49-52 | When every status is one of the three filter statuses, the in-progress, completed and backlog views together hold each course exactly as often as the list does; their lengths sum to the list's length. |
| CoursesPage.Initial | src/app/courses/page.tsx:26 | The page starts with the given courses and the filter "all", which is one of the buttons and shows every course. |
| CoursesPage.SelectFilter | src/app/courses/page.tsx:79-82 | A button click sets the filter to that button's value and changes nothing else, so the filter is always one of all, in-progress, completed and backlog. The courses are untouched. |
| Shell.Redirect | src/components/Shell.tsx:25-29 | The only redirect is to /auth/login. |
| Shell.IsAuthPage | src/components/Shell.tsx:22 | Definition of `pathname?.startsWith('/auth')`: a path is present and begins with /auth. |
| Shell.IsLandingPage | src/components/Shell.tsx:23 | Definition of `pathname === '/'`. |
| Shell.Render | src/components/Shell.tsx:31-53 | The spinner shows exactly while loading, and the framed shell only for a signed-in user off the auth pages. |
| Shell.Decide | src/components/Shell.tsx:22-53 | A redirect is issued exactly when nothing is rendered. |
| Shell.DecisionTable | src/components/Shell.tsx:31-53 | Loading gives the spinner. Signed out off the auth and landing pages gives nothing plus a redirect. An auth page is bare. The landing page is bare signed out and framed signed in. |
| Shell.FramedExactlyWhenSignedIn | src/components/Shell.tsx:46-53 | Once loaded, the navigation shows if and only if the user is signed in and not on an auth page. |
| Shell.AuthIsAPrefixTest | src/components/Shell.tsx:22 | "/authx" and "/auth/login" count as auth pages; "/aut", "/dashboard" and a missing path do not. |

## Left out

- All store traffic, authentication, row-level security and PostgREST error codes other than "no rows" (PGRST116) are left out. Each call is an outcome parameter, and a signed-in user is a boolean.
- The user id fallbacks ('00000000-…', 'public') and the `created_at` ordering of fetched lists are not modelled. The model keeps no user id on records and no insertion times.
- Time is not modelled. Real calendar dates, the UTC `toISOString` versus local `setDate` mix, and the DST-sensitive "now minus 86400000 ms" yesterday are all replaced by integer day numbers.
- Activity.AfterLog: a PGRST116 lookup answer is followed by an insert. The map then overwrites whatever row it holds, whereas the real table could end up with a second row for (user, day).
- The lost-update race between two concurrent `logActivity` calls is not modelled; calls are sequential.
- `logActivity` is awaited after the state change in some handlers and before it in others. Handlers only report whether they record an activity, as `logsActivity`.
- Text.IsSpace lists the common white-space characters (space, tab, line breaks, vertical tab, form feed, no-break space, byte-order mark), not every white-space character and line terminator that `trim` removes (U+1680, U+2000–U+200A, U+2028, U+2029, U+202F, U+205F and U+3000 are missing).
- Text.Lower lowers ASCII letters only, not Unicode case folding. String lengths count Dafny characters, not UTF-16 units.
- The zod schema of the project form is only partly modelled, as the precondition `ValidForm` (title 1-100, description at most 500). URL syntax checks are left out.
- Backlog and project fields that JavaScript leaves `undefined` are modelled as `Option` or as "". The backlog edit stores null in the table for an empty url but "" in the page's copy; the model keeps the page's copy.
- The courses page reads `status` as in-progress / completed / backlog. The declared table type in src/lib/supabase.ts says 'enrolled' | 'completed'. The model follows the page.
- The toasts' wording is modelled only where a handler's contract names it; console logging is left out.
- Some pages are left out entirely: the dashboard (fan-out queries, charts, random progress), certificates (storage upload with random names), the auth, landing and layout pages, Navigation, StreakIndicator rendering, and configuration. Markup, animation variants and styling are left out everywhere.
- File upload is an optional public url; file names and storage buckets are not modelled.

## Findings

| source | as written | input that shows it | evidently intended | confidence | as-written member | corrected member |
|---|---|---|---|---|---|---|
| src/app/projects/page.tsx:517-525 | The notes panel is opened without `initialImageUrl`, and its `onSave` forwards only notes, summary and tags to `handleSaveNotes`. The panel's image url is therefore dropped. | Open the notes of a project whose image url is not `u`, upload a screenshot with public url `u`, then save. The panel shows `u`, but the project keeps its old image url. | The panel passes its image url on (`handleSaveNotes` accepts one at src/app/projects/page.tsx:173-179), and it opens with the project's current image url. | not executed | ProjectsPage.ScreenshotLostAsWritten | ProjectsPage.ScreenshotSaved |
