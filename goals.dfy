/** The goals page: a local list of goals whose status the user toggles between completed and in progress. */
module Goals {
  import Lists

  datatype Goal = Goal(
    id: string, title: string, description: string, deadline: string,
    progress: int, status: string, priority: string)

  const COMPLETED := "Completed"
  const IN_PROGRESS := "In Progress"

  /** One goal toggled: a completed goal goes back to in progress at 85%, any other becomes completed at 100%. */
  function Toggle(g: Goal): (t: Goal)
    ensures g.status == COMPLETED ==> t.status == IN_PROGRESS && t.progress == 85
    ensures g.status != COMPLETED ==> t.status == COMPLETED && t.progress == 100
    ensures t.id == g.id && t.title == g.title && t.description == g.description
    ensures t.deadline == g.deadline && t.priority == g.priority
  {
    var isCompleted := g.status == COMPLETED;
    g.(status := if isCompleted then IN_PROGRESS else COMPLETED,
       progress := if isCompleted then 85 else 100)
  }

  /** `toggleStatus(id)`: the goal with that id is toggled, every other goal stays as it was, in place. */
  function ToggleStatus(goals: seq<Goal>, id: string): (r: seq<Goal>)
    ensures |r| == |goals|
    ensures forall i | 0 <= i < |goals| :: r[i].id == goals[i].id
    ensures forall i | 0 <= i < |goals| && goals[i].id != id :: r[i] == goals[i]
    ensures forall i | 0 <= i < |goals| && goals[i].id == id :: r[i] == Toggle(goals[i])
  {
    Lists.MapWhere(goals, (g: Goal) => g.id == id, Toggle)
  }

  /** Toggling twice gives back every status that was completed or in progress, and a completed goal at 100% comes back whole. */
  lemma ToggleTwice(goals: seq<Goal>, id: string)
    requires forall g | g in goals && g.id == id :: g.status == COMPLETED || g.status == IN_PROGRESS
    ensures var r := ToggleStatus(ToggleStatus(goals, id), id);
      && |r| == |goals|
      && (forall i | 0 <= i < |goals| :: r[i].status == goals[i].status)
      && (forall i | 0 <= i < |goals| && goals[i].status == COMPLETED && goals[i].progress == 100 :: r[i] == goals[i])
  {
    var once := ToggleStatus(goals, id);
    var r := ToggleStatus(once, id);
    forall i | 0 <= i < |goals| ensures r[i].status == goals[i].status {
      if goals[i].id == id {
        assert goals[i] in goals;
      }
    }
  }
}
