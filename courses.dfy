/** The courses page: a list of courses narrowed by a status filter. */
module CoursesPage {
  import opened Lists
  import opened Records

  const ALL := "all"
  const IN_PROGRESS := "in-progress"
  const COMPLETED := "completed"
  const BACKLOG := "backlog"

  /** The filter buttons, in the order they are shown; the page's filter is always one of them. */
  const COURSE_FILTERS: seq<string> := [ALL, IN_PROGRESS, COMPLETED, BACKLOG]

  /** The test inside `filteredCourses`. */
  predicate Shown(c: Course, filter: string) {
    filter == ALL || c.status == filter
  }

  /** `filteredCourses`: every course under "all", otherwise those whose status is the filter, in order. */
  function FilterCourses(courses: seq<Course>, filter: string): (r: seq<Course>)
    ensures Subsequence(r, courses)
    ensures filter != ALL ==> forall c :: c in r <==> c in courses && c.status == filter
    ensures forall c :: multiset(r)[c] == if Shown(c, filter) then multiset(courses)[c] else 0
  {
    Filter(courses, (c: Course) => Shown(c, filter))
  }

  /** The "all" filter shows every course. */
  lemma AllShowsEverything(courses: seq<Course>)
    ensures FilterCourses(courses, ALL) == courses
  {
    FilterKeepsAll(courses, (c: Course) => Shown(c, ALL));
  }

  /** A status one of the three status buttons selects. */
  predicate Filterable(c: Course) {
    c.status == IN_PROGRESS || c.status == COMPLETED || c.status == BACKLOG
  }

  /** When every course has one of the three filterable statuses, the three status views hold each course exactly once between them. */
  lemma StatusFiltersPartition(courses: seq<Course>)
    requires forall i | 0 <= i < |courses| :: Filterable(courses[i])
    ensures multiset(FilterCourses(courses, IN_PROGRESS)) + multiset(FilterCourses(courses, COMPLETED))
          + multiset(FilterCourses(courses, BACKLOG)) == multiset(courses)
    ensures |FilterCourses(courses, IN_PROGRESS)| + |FilterCourses(courses, COMPLETED)| + |FilterCourses(courses, BACKLOG)| == |courses|
  {
    var views := multiset(FilterCourses(courses, IN_PROGRESS)) + multiset(FilterCourses(courses, COMPLETED))
               + multiset(FilterCourses(courses, BACKLOG));
    forall c ensures views[c] == multiset(courses)[c] {
      if c in courses {
        var i :| 0 <= i < |courses| && courses[i] == c;
        assert Filterable(courses[i]);
      }
    }
    assert views == multiset(courses);
  }

  /** The page's filter state: the courses and the selected button's value. */
  datatype CoursesState = CoursesState(courses: seq<Course>, filter: string)

  /** The filter starts at "all". */
  function Initial(courses: seq<Course>): (p: CoursesState)
    ensures p.courses == courses && p.filter == ALL
    ensures p.filter in COURSE_FILTERS && FilterCourses(p.courses, p.filter) == courses
  {
    AllShowsEverything(courses);
    CoursesState(courses, ALL)
  }

  /** Clicking the filter button at position `button`: the filter only ever takes a value from the button list. */
  function SelectFilter(p: CoursesState, button: nat): (r: CoursesState)
    requires button < |COURSE_FILTERS|
    ensures r == p.(filter := COURSE_FILTERS[button])
    ensures r.filter in COURSE_FILTERS && r.courses == p.courses
    ensures r.filter == ALL ==> FilterCourses(r.courses, r.filter) == p.courses
  {
    var r := p.(filter := COURSE_FILTERS[button]);
    AllShowsEverything(p.courses);
    r
  }
}
