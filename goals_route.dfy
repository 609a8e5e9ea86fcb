/**
 * The goals API route: GET, POST and PATCH over a module-level table of
 * goals that lives as long as the server process. Due dates are stored as
 * the timestamp of their ISO string, or null.
 */
module GoalsRoute {
  import opened Wrappers
  import opened Text
  import opened Dates
  import opened Collections
  import opened Http

  datatype Goal = Goal(id: string, title: string, description: string, completed: bool, dueDate: Option<int>)

  /**
   * The fields of a POST or PATCH body; `None` is an absent field. It also
   * stands for `null` where the handlers treat null as falsy: every field in
   * POST, and `id` and `dueDate` in PATCH.
   */
  datatype GoalBody = GoalBody(
    id: Option<string>,
    title: Option<string>,
    description: Option<string>,
    completed: Option<bool>,
    dueDate: Option<DateText>)

  /** The table as the process starts, with the sample dates read as UTC midnights. */
  const SampleGoals: seq<Goal> := [
    Goal("1", "Complete project proposal", "Finish the draft and send for review", false, Some(1742860800000)),
    Goal("2", "Learn Next.js", "Complete the tutorial and build a sample app", true, Some(1741996800000)),
    Goal("3", "Prepare quarterly report", "Gather data and create presentation", false, Some(1743811200000))
  ]

  function CompletedIs(b: bool): Goal -> bool {
    (g: Goal) => g.completed == b
  }

  /** What GET answers: the whole table, or the goals whose flag equals (`completed` == "true"). */
  function ListGoals(goals: seq<Goal>, completed: Option<string>): (r: seq<Goal>)
    ensures completed.None? ==> r == goals
    ensures completed.Some? ==>
              forall g :: g in r <==> g in goals && g.completed == (completed.value == "true")
    ensures |r| <= |goals|
  {
    if completed.None? then goals else Filter(goals, CompletedIs(completed.value == "true"))
  }

  /** `body.dueDate` is truthy. */
  predicate DueDateGiven(body: GoalBody) {
    Given(body.dueDate)
  }

  /** The due date is given but is not a date, so converting it to ISO form throws. */
  predicate DueDateThrows(body: GoalBody) {
    IsoThrows(body.dueDate)
  }

  /** The response and table after POST with a server-chosen `freshId`. */
  function CreateGoal(goals: seq<Goal>, req: Request<GoalBody>, freshId: string): (o: Handled<Goal, Goal>)
    ensures req.Unparseable? ==> o == Handled(Failure(400, InvalidBody), goals)
    ensures req.Json? && !Truthy(req.body.title) ==> o == Handled(Failure(400, "Title is required"), goals)
    ensures req.Json? && Truthy(req.body.title) && DueDateThrows(req.body) ==>
              o == Handled(Failure(400, InvalidBody), goals)
    ensures o.response.Failure? <==>
              req.Unparseable? || !Truthy(req.body.title) || DueDateThrows(req.body)
    ensures o.response.Failure? ==> o.table == goals
    ensures o.response.Success? ==>
              var g := o.response.value;
              && o.response.status == 201
              && o.table == goals + [g]
              && g.id == freshId
              && g.title == req.body.title.value && g.title != ""
              && g.description == req.body.description.GetOr("")
              && g.completed == req.body.completed.GetOr(false)
              && (g.dueDate.None? <==> !DueDateGiven(req.body))
              && (g.dueDate.Some? ==> req.body.dueDate.value.parsed == Valid(g.dueDate.value))
  {
    match req
    case Unparseable => Handled(Failure(400, InvalidBody), goals)
    case Json(body) =>
      if !Truthy(body.title) then Handled(Failure(400, "Title is required"), goals)
      else if DueDateThrows(body) then Handled(Failure(400, InvalidBody), goals)
      else
        var g := Goal(freshId, body.title.value, body.description.GetOr(""), body.completed.GetOr(false),
                      if DueDateGiven(body) then Some(body.dueDate.value.parsed.ms) else None);
        Handled(Success(201, g), goals + [g])
  }

  /** The shallow merge `{ ...old, ...body, dueDate }`: fields present in the body win, the due date is only replaced by a truthy one. */
  function Merge(stored: Goal, body: GoalBody): (g: Goal)
    requires !DueDateThrows(body)
    ensures g.id == body.id.GetOr(stored.id)
    ensures g.title == body.title.GetOr(stored.title) && g.description == body.description.GetOr(stored.description)
    ensures g.completed == body.completed.GetOr(stored.completed)
    ensures !DueDateGiven(body) ==> g.dueDate == stored.dueDate
    ensures DueDateGiven(body) ==> g.dueDate.Some? && body.dueDate.value.parsed == Valid(g.dueDate.value)
  {
    Goal(body.id.GetOr(stored.id), body.title.GetOr(stored.title), body.description.GetOr(stored.description),
         body.completed.GetOr(stored.completed),
         if DueDateGiven(body) then Some(body.dueDate.value.parsed.ms) else stored.dueDate)
  }

  function IdOf(g: Goal): string {
    g.id
  }

  /** The response and table after PATCH. */
  function PatchGoal(goals: seq<Goal>, req: Request<GoalBody>): (o: Handled<Goal, Goal>)
    ensures req.Unparseable? ==> o == Handled(Failure(400, InvalidBody), goals)
    ensures req.Json? && !Truthy(req.body.id) ==> o == Handled(Failure(400, "Goal ID is required"), goals)
    ensures req.Json? && Truthy(req.body.id) && (forall g :: g in goals ==> g.id != req.body.id.value) ==>
              o == Handled(Failure(404, "Goal not found"), goals)
    ensures (req.Json? && Truthy(req.body.id) && DueDateThrows(req.body)
             && exists g :: g in goals && g.id == req.body.id.value)
            ==> o.response == Failure(400, InvalidBody)
    ensures o.response.Success? <==>
              req.Json? && Truthy(req.body.id) && !DueDateThrows(req.body)
              && exists g :: g in goals && g.id == req.body.id.value
    ensures o.response.Failure? ==> o.table == goals
    ensures |o.table| == |goals|
    ensures forall j :: 0 <= j < |goals| ==> o.table[j].id == goals[j].id
    ensures o.response.Success? ==>
              var i := FirstIndex(goals, HasId(IdOf, req.body.id.value));
              && o.response.status == 200
              && 0 <= i
              && !DueDateThrows(req.body)
              && o.table[i] == o.response.value == Merge(goals[i], req.body)
              && forall j :: 0 <= j < |goals| && j != i ==> o.table[j] == goals[j]
  {
    match req
    case Unparseable => Handled(Failure(400, InvalidBody), goals)
    case Json(body) =>
      if !Truthy(body.id) then Handled(Failure(400, "Goal ID is required"), goals)
      else
        var i := FirstIndex(goals, HasId(IdOf, body.id.value));
        if i == -1 then
          assert forall g :: g in goals ==> g.id != body.id.value;
          Handled(Failure(404, "Goal not found"), goals)
        else if DueDateThrows(body) then Handled(Failure(400, InvalidBody), goals)
        else
          var g := Merge(goals[i], body);
          Handled(Success(200, g), goals[i := g])
  }

  /** Asking for completed and for incomplete goals splits the table: every goal is in exactly one answer. */
  lemma {:induction false} ListGoalsPartition(goals: seq<Goal>)
    ensures |ListGoals(goals, Some("true"))| + |ListGoals(goals, Some("false"))| == |goals|
  {
    if goals != [] {
      ListGoalsPartition(goals[1..]);
    }
  }

  /** Any `completed` value other than "true" selects the incomplete goals. */
  lemma ListGoalsOtherValueMeansIncomplete(goals: seq<Goal>, v: string)
    requires v != "true"
    ensures ListGoals(goals, Some(v)) == ListGoals(goals, Some("false"))
  {
  }

  /** Sending the same PATCH twice leaves the table as one PATCH does. */
  lemma PatchIdempotent(goals: seq<Goal>, req: Request<GoalBody>)
    ensures PatchGoal(PatchGoal(goals, req).table, req).table == PatchGoal(goals, req).table
  {
    var once := PatchGoal(goals, req);
    if once.response.Success? {
      var i := FirstIndex(goals, HasId(IdOf, req.body.id.value));
      assert FirstIndex(once.table, HasId(IdOf, req.body.id.value)) == i;
      assert Merge(once.table[i], req.body) == once.table[i];
      assert once.table[i := once.table[i]] == once.table;
    }
  }

  predicate TitlesPresent(goals: seq<Goal>) {
    forall i :: 0 <= i < |goals| ==> goals[i].title != ""
  }

  /** POST keeps every goal titled, since it refuses a falsy title. */
  lemma CreateKeepsTitlesPresent(goals: seq<Goal>, req: Request<GoalBody>, freshId: string)
    requires TitlesPresent(goals)
    ensures TitlesPresent(CreateGoal(goals, req, freshId).table)
  {
  }

  /** PATCH does not check the title: a body `{ id, title: "" }` blanks the title of a stored goal. */
  lemma PatchCanBlankTitle()
    ensures TitlesPresent(SampleGoals)
    ensures !TitlesPresent(PatchGoal(SampleGoals, Json(GoalBody(Some("1"), Some(""), None, None, None))).table)
  {
    var body := GoalBody(Some("1"), Some(""), None, None, None);
    assert FirstIndex(SampleGoals, HasId(IdOf, "1")) == 0;
    assert PatchGoal(SampleGoals, Json(body)).table[0].title == "";
  }

  /** The documented exchanges against the sample table. */
  lemma SampleExchanges(freshId: string)
    ensures CreateGoal(SampleGoals, Json(GoalBody(None, None, None, None, None)), freshId).response
            == Failure(400, "Title is required")
    ensures CreateGoal(SampleGoals, Json(GoalBody(None, Some("X"), None, None, None)), freshId).response
            == Success(201, Goal(freshId, "X", "", false, None))
    ensures PatchGoal(SampleGoals, Json(GoalBody(Some("999"), None, None, None, None))).response
            == Failure(404, "Goal not found")
  {
    assert FirstIndex(SampleGoals, HasId(IdOf, "999")) == -1;
  }

  /** The route's module-level table. */
  class GoalsTable {
    var goals: seq<Goal>

    constructor ()
      ensures goals == SampleGoals
    {
      goals := SampleGoals;
    }

    /** GET: filter a copy by the `completed` query parameter; the table is only read. */
    method Get(completed: Option<string>) returns (resp: Response<seq<Goal>>)
      ensures resp == Success(200, ListGoals(goals, completed))
      ensures completed.None? ==> resp.value == goals
      ensures completed.Some? ==>
                forall g :: g in resp.value <==> g in goals && g.completed == (completed.value == "true")
    {
      var filtered := goals;
      if completed.Some? {
        var isCompleted := completed.value == "true";
        filtered := Filter(goals, CompletedIs(isCompleted));
      }
      resp := Success(200, filtered);
    }

    /** POST: validate, build the goal, push it. */
    method Post(req: Request<GoalBody>, freshId: string) returns (resp: Response<Goal>)
      modifies this
      ensures Handled(resp, goals) == CreateGoal(old(goals), req, freshId)
    {
      if req.Unparseable? {
        return Failure(400, InvalidBody);
      }
      var body := req.body;
      if !Truthy(body.title) {
        return Failure(400, "Title is required");
      }
      if DueDateThrows(body) {
        return Failure(400, InvalidBody);
      }
      var dueDate := if DueDateGiven(body) then Some(body.dueDate.value.parsed.ms) else None;
      var newGoal := Goal(freshId, body.title.value, body.description.GetOr(""), body.completed.GetOr(false), dueDate);
      goals := goals + [newGoal];
      resp := Success(201, newGoal);
    }

    /** PATCH: find the goal by id and overwrite it with the merged record. */
    method Patch(req: Request<GoalBody>) returns (resp: Response<Goal>)
      modifies this
      ensures Handled(resp, goals) == PatchGoal(old(goals), req)
    {
      if req.Unparseable? {
        return Failure(400, InvalidBody);
      }
      var body := req.body;
      if !Truthy(body.id) {
        return Failure(400, "Goal ID is required");
      }
      var goalIndex := FirstIndex(goals, HasId(IdOf, body.id.value));
      if goalIndex == -1 {
        return Failure(404, "Goal not found");
      }
      if DueDateThrows(body) {
        return Failure(400, InvalidBody);
      }
      goals := goals[goalIndex := Merge(goals[goalIndex], body)];
      resp := Success(200, goals[goalIndex]);
    }
  }
}
