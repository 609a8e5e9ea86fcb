/**
 * The goals page's list transitions: each handler computes the next list
 * of goals from the current one and hands it to `setGoals`.
 */
module GoalsList {
  import opened Wrappers
  import opened Text
  import opened Dates
  import opened Collections

  datatype Goal = Goal(
    id: string,
    title: string,
    description: string,
    completed: bool,
    dueDate: Option<Instant>,
    progress: int,
    color: string)

  /** The create dialog's fields; the due date is the date input's text and what `new Date` makes of it. */
  datatype GoalForm = GoalForm(title: string, description: string, dueDate: DateText)

  const DefaultColor: string := "bg-emerald-500"

  /** The list the page starts with, its dates read as UTC midnights. */
  const SampleGoals: seq<Goal> := [
    Goal("1", "Complete project proposal", "Finish the draft and send for review", false,
         Some(Valid(1742860800000)), 70, "bg-emerald-500"),
    Goal("2", "Research new technologies", "Complete the tutorial and build a sample app", false,
         Some(Valid(1741996800000)), 45, "bg-blue-500"),
    Goal("3", "Improve presentation skills", "Gather data and create presentation", false,
         Some(Valid(1743811200000)), 30, "bg-orange-500")
  ]

  /** `handleCreateGoal`: refuse a blank title, otherwise append a fresh, incomplete goal. */
  function CreateGoal(goals: seq<Goal>, form: GoalForm, freshId: string): (r: seq<Goal>)
    ensures AllWhitespace(form.title) ==> r == goals
    ensures !AllWhitespace(form.title) ==>
              && |r| == |goals| + 1
              && r[..|goals|] == goals
              && var g := r[|goals|];
              && g.id == freshId && g.title == form.title && g.description == form.description
              && !g.completed && g.progress == 0 && g.color == DefaultColor
              && (g.dueDate.None? <==> form.dueDate.text == "")
              && (g.dueDate.Some? ==> g.dueDate.value == form.dueDate.parsed)
  {
    TrimEmptyIffBlank(form.title);
    if Trim(form.title) == [] then goals
    else
      var g := Goal(freshId, form.title, form.description, false,
                    if form.dueDate.text != "" then Some(form.dueDate.parsed) else None, 0, DefaultColor);
      goals + [g]
  }

  /** One goal as the toggle leaves it when its id matches. */
  function Toggled(g: Goal, id: string): Goal {
    if g.id == id then g.(completed := !g.completed, progress := if g.completed then g.progress else 100) else g
  }

  /** `handleToggleGoal`: flip every goal carrying `id`; completing a goal snaps its progress to 100. */
  function ToggleGoal(goals: seq<Goal>, id: string): (r: seq<Goal>)
    ensures |r| == |goals|
    ensures forall i :: 0 <= i < |goals| && goals[i].id != id ==> r[i] == goals[i]
    ensures forall i :: 0 <= i < |goals| && goals[i].id == id ==>
              && r[i].completed == !goals[i].completed
              && r[i].progress == (if goals[i].completed then goals[i].progress else 100)
              && r[i].(completed := goals[i].completed, progress := goals[i].progress) == goals[i]
  {
    seq(|goals|, i requires 0 <= i < |goals| => Toggled(goals[i], id))
  }

  function IdOf(g: Goal): string {
    g.id
  }

  /** `handleDeleteGoal`: drop every goal carrying `id`, keeping the rest in order. */
  function DeleteGoal(goals: seq<Goal>, id: string): (r: seq<Goal>)
    ensures forall g :: g in r ==> g.id != id
    ensures forall g :: g in goals && g.id != id ==> g in r
    ensures (forall g :: g in goals ==> g.id != id) ==> r == goals
  {
    var r := Filter(goals, LacksId(IdOf, id));
    if forall g :: g in goals ==> g.id != id then
      FilterKeepsAll(goals, LacksId(IdOf, id));
      r
    else
      r
  }

  /** Toggling twice restores every completion flag, but a toggled goal is left at progress 100. */
  lemma ToggleTwice(goals: seq<Goal>, id: string)
    ensures var r := ToggleGoal(ToggleGoal(goals, id), id);
            && |r| == |goals|
            && (forall i :: 0 <= i < |goals| ==> r[i].completed == goals[i].completed)
            && (forall i :: 0 <= i < |goals| && goals[i].id == id ==> r[i].progress == 100)
            && (forall i :: 0 <= i < |goals| && goals[i].id != id ==> r[i] == goals[i])
  {
  }

  /** So toggling twice does not undo a toggle: a goal at 70% comes back at 100%. */
  lemma ToggleTwiceLosesPartialProgress()
    ensures ToggleGoal(ToggleGoal(SampleGoals, "1"), "1") != SampleGoals
  {
    assert ToggleGoal(ToggleGoal(SampleGoals, "1"), "1")[0].progress == 100;
  }

  /** Deleting the id of a goal just created, when no other goal had it, gives back the list before. */
  lemma {:induction false} CreateThenDelete(goals: seq<Goal>, form: GoalForm, freshId: string)
    requires forall g :: g in goals ==> g.id != freshId
    ensures DeleteGoal(CreateGoal(goals, form, freshId), freshId) == goals
  {
    var created := CreateGoal(goals, form, freshId);
    if created == goals {
      DeleteAppended(goals, [], freshId);
      assert goals + [] == goals;
    } else {
      DeleteAppended(goals, [created[|goals|]], freshId);
      assert created == goals + [created[|goals|]];
    }
  }

  lemma DeleteAppended(goals: seq<Goal>, added: seq<Goal>, id: string)
    requires forall g :: g in goals ==> g.id != id
    requires forall g :: g in added ==> g.id == id
    ensures DeleteGoal(goals + added, id) == goals
  {
    assert forall i :: 0 <= i < |goals| ==> LacksId(IdOf, id)(goals[i]) by {
      forall i | 0 <= i < |goals| ensures LacksId(IdOf, id)(goals[i]) {
        assert goals[i] in goals;
      }
    }
    FilterKeepsAll(goals, LacksId(IdOf, id));
    FilterAppend(goals, added, LacksId(IdOf, id));
    var rest := Filter(added, LacksId(IdOf, id));
    if rest != [] {
      assert rest[0] in rest;
    }
  }
}
