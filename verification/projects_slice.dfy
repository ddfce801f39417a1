/** The `projects` slice of the bug tracker's client store: an immutable state
    record `{projects, status, error, sortBy}`, the five reducers that update
    it, the `fetchProjects` thunk that sequences them around a call to the
    projects service, and the `selectProjectById` lookup. */
module ProjectsSlice {
  import opened Wrappers

  /** A project as the server sends it. Only `id` is inspected by the slice;
      the other fields are carried along untouched. */
  datatype Project = Project(id: string, name: string, createdAt: string, updatedAt: string)

  /** A value of the sort preference. Its set of tags belongs to the
      client's type declarations; the slice only needs the initial one. */
  datatype SortValue = SortValue(tag: string)

  const Newest: SortValue := SortValue("newest")

  /** The single combined status of the slice. */
  datatype Status = Idle | Loading | Succeeded | Failed

  datatype ProjectsState = ProjectsState(
    projects: seq<Project>,
    status: Status,
    error: Option<string>,
    sortBy: SortValue)

  /** The slice's initial state. */
  const InitialState: ProjectsState := ProjectsState([], Idle, None, Newest)

  /** The actions the slice's action creators produce, one per reducer. */
  datatype Action =
    | SetProjects(payload: seq<Project>)
    | SetProjectsLoading
    | SetProjectsError(message: string)
    | ClearProjectsError
    | SortProjectsBy(value: SortValue)

  /* ---------- Fields, and what each reducer assigns to them ---------- */

  datatype Field = ProjectsField | StatusField | ErrorField | SortByField

  /** The value held in one field of the record. */
  datatype FieldValue =
    | ProjectsValue(projects: seq<Project>)
    | StatusValue(status: Status)
    | ErrorValue(error: Option<string>)
    | SortByValue(sortBy: SortValue)

  function Get(s: ProjectsState, f: Field): FieldValue {
    match f
    case ProjectsField => ProjectsValue(s.projects)
    case StatusField => StatusValue(s.status)
    case ErrorField => ErrorValue(s.error)
    case SortByField => SortByValue(s.sortBy)
  }

  /** A record is determined by its four fields. */
  lemma Extensionality(s: ProjectsState, t: ProjectsState)
    requires forall f :: Get(s, f) == Get(t, f)
    ensures s == t
  {
    assert Get(s, ProjectsField) == Get(t, ProjectsField);
    assert Get(s, StatusField) == Get(t, StatusField);
    assert Get(s, ErrorField) == Get(t, ErrorField);
    assert Get(s, SortByField) == Get(t, SortByField);
  }

  /** The assignments each reducer makes to its draft, and nothing more: the
      reference against which `Reduce` is checked. Every assigned value
      comes from the action alone, never from the previous state. */
  function Assignment(a: Action): map<Field, FieldValue> {
    match a
    case SetProjects(p) =>
      map[ProjectsField := ProjectsValue(p), StatusField := StatusValue(Succeeded),
          ErrorField := ErrorValue(None)]
    case SetProjectsLoading =>
      map[StatusField := StatusValue(Loading), ErrorField := ErrorValue(None)]
    case SetProjectsError(m) =>
      map[StatusField := StatusValue(Failed), ErrorField := ErrorValue(Some(m))]
    case ClearProjectsError =>
      map[ErrorField := ErrorValue(None)]
    case SortProjectsBy(v) =>
      map[SortByField := SortByValue(v)]
  }

  /** The slice's invariant: an error message is present only in `failed`. */
  predicate ErrorImpliesFailed(s: ProjectsState) {
    s.error.Some? ==> s.status == Failed
  }

  /* ---------- Reducers ---------- */

  /** The slice reducer. Each case is the record update the corresponding
      draft mutation performs. */
  function Reduce(s: ProjectsState, a: Action): (r: ProjectsState)
    ensures forall f :: Get(r, f) == (if f in Assignment(a) then Assignment(a)[f] else Get(s, f))
    ensures ErrorImpliesFailed(s) ==> ErrorImpliesFailed(r)
  {
    match a
    case SetProjects(p) => s.(projects := p, status := Succeeded, error := None)
    case SetProjectsLoading => s.(status := Loading, error := None)
    case SetProjectsError(m) => s.(status := Failed, error := Some(m))
    case ClearProjectsError => s.(error := None)
    case SortProjectsBy(v) => s.(sortBy := v)
  }

  /** Dispatches `acts` in order, starting from `s`, as the store does for
      the actions a thunk dispatches one after another. */
  function DispatchAll(s: ProjectsState, acts: seq<Action>): (r: ProjectsState)
    ensures ErrorImpliesFailed(s) ==> ErrorImpliesFailed(r)
    ensures (forall i :: 0 <= i < |acts| ==> !acts[i].SortProjectsBy?) ==> r.sortBy == s.sortBy
    decreases |acts|
  {
    if |acts| == 0 then s
    else Reduce(DispatchAll(s, acts[..|acts| - 1]), acts[|acts| - 1])
  }

  /** Dispatching two actions applies the reducer twice. */
  lemma DispatchTwo(s: ProjectsState, a: Action, b: Action)
    ensures DispatchAll(s, [a, b]) == Reduce(Reduce(s, a), b)
  {
    assert [a, b][..1] == [a];
    assert [a][..0] == [];
    assert DispatchAll(s, [a]) == Reduce(DispatchAll(s, []), a);
  }

  /* ---------- The fetchProjects thunk ---------- */

  /** How the call to the projects service settled: it resolved with the
      project list, or it threw `failure`. */
  datatype Outcome<E> = Resolved(data: seq<Project>) | Rejected(failure: E)

  /** The actions `fetchProjects` dispatches, in order, for a given outcome of
      the service call; `errorMsg` stands for the helper that turns a thrown
      value into a message. */
  function FetchProjectsActions<E>(outcome: Outcome<E>, errorMsg: E -> string): (acts: seq<Action>)
    ensures |acts| == 2 && acts[0] == SetProjectsLoading
    ensures acts[1].SetProjects? <==> outcome.Resolved?
    ensures acts[1].SetProjectsError? <==> outcome.Rejected?
    ensures outcome.Resolved? ==> acts[1].payload == outcome.data
    ensures outcome.Rejected? ==> acts[1].message == errorMsg(outcome.failure)
  {
    match outcome
    case Resolved(data) => [SetProjectsLoading, SetProjects(data)]
    case Rejected(e) => [SetProjectsLoading, SetProjectsError(errorMsg(e))]
  }

  /** The state after `fetchProjects` has settled. */
  function FetchProjects<E>(s: ProjectsState, outcome: Outcome<E>, errorMsg: E -> string): (r: ProjectsState)
    ensures r.sortBy == s.sortBy
    ensures r.status == Succeeded <==> outcome.Resolved?
    ensures r.status == Failed <==> outcome.Rejected?
    ensures outcome.Resolved? ==> r.projects == outcome.data && r.error == None
    ensures outcome.Rejected? ==>
              r.projects == s.projects && r.error == Some(errorMsg(outcome.failure))
    ensures ErrorImpliesFailed(r)
  {
    var acts := FetchProjectsActions(outcome, errorMsg);
    DispatchTwo(s, acts[0], acts[1]);
    var r := DispatchAll(s, acts);
    assert Get(r, SortByField) == Get(s, SortByField);
    assert outcome.Rejected? ==> Get(r, ProjectsField) == Get(s, ProjectsField);
    r
  }

  /* ---------- Selector ---------- */

  /** Index of the first project whose id is `id`, as `Array.find` scans. */
  function FindIndex(ps: seq<Project>, id: string): (r: Option<nat>)
    ensures r.Some? ==> r.value < |ps| && ps[r.value].id == id
    ensures r.Some? ==> forall j :: 0 <= j < r.value ==> ps[j].id != id
    ensures r.None? <==> forall j :: 0 <= j < |ps| ==> ps[j].id != id
  {
    if |ps| == 0 then None
    else if ps[0].id == id then Some(0)
    else
      match FindIndex(ps[1..], id)
      case None => None
      case Some(k) => Some(k + 1)
  }

  /** The first stored project with the given id, or None. */
  function SelectProjectById(s: ProjectsState, id: string): (r: Option<Project>)
    ensures r.Some? ==> r.value.id == id
    ensures r.Some? ==> exists i :: 0 <= i < |s.projects| && s.projects[i] == r.value
                           && forall j :: 0 <= j < i ==> s.projects[j].id != id
    ensures r.None? <==> forall j :: 0 <= j < |s.projects| ==> s.projects[j].id != id
  {
    match FindIndex(s.projects, id)
    case None => None
    case Some(i) => Some(s.projects[i])
  }
}
