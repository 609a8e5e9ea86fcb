/**
 * The dashboard's goals card: creating a goal from its dialog. The colour
 * is drawn from a fixed palette by `Math.random()`, whose value is an input.
 */
module GoalsSummary {
  import opened Wrappers
  import opened Text
  import opened Dates

  datatype Goal = Goal(
    id: string,
    title: string,
    description: Option<string>,
    progress: int,
    color: string,
    dueDate: Option<Instant>)

  datatype GoalForm = GoalForm(title: string, description: string, dueDate: DateText)

  const Palette: seq<string> := ["bg-emerald-500", "bg-blue-500", "bg-orange-500", "bg-purple-500", "bg-pink-500"]

  /** The palette position picked by a random draw `rand` in [0, 1): the whole part of `rand` times the palette size. */
  function PaletteIndex(rand: real): (i: int)
    requires 0.0 <= rand < 1.0
    ensures 0 <= i < |Palette|
    ensures i as real <= rand * 5.0 < i as real + 1.0
  {
    (rand * (|Palette| as real)).Floor
  }

  /** Every colour of the palette can be drawn: the draw i/5 picks colour i. */
  lemma EveryColourReachable(i: int)
    requires 0 <= i < |Palette|
    ensures PaletteIndex(i as real / 5.0) == i
  {
  }

  /** `handleCreateGoal`: refuse a blank title, otherwise append a goal at progress 0 in a palette colour. */
  function CreateGoal(goals: seq<Goal>, form: GoalForm, freshId: string, rand: real): (r: seq<Goal>)
    requires 0.0 <= rand < 1.0
    ensures AllWhitespace(form.title) ==> r == goals
    ensures !AllWhitespace(form.title) ==>
              && |r| == |goals| + 1
              && r[..|goals|] == goals
              && var g := r[|goals|];
              && g.id == freshId && g.title == form.title && g.description == Some(form.description)
              && g.progress == 0
              && g.color in Palette && g.color == Palette[PaletteIndex(rand)]
              && (g.dueDate.None? <==> form.dueDate.text == "")
              && (g.dueDate.Some? ==> g.dueDate.value == form.dueDate.parsed)
  {
    TrimEmptyIffBlank(form.title);
    if Trim(form.title) == [] then goals
    else
      var g := Goal(freshId, form.title, Some(form.description), 0, Palette[PaletteIndex(rand)],
                    if form.dueDate.text != "" then Some(form.dueDate.parsed) else None);
      goals + [g]
  }
}
