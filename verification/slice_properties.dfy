/** Facts about the projects slice: what each reducer changes and leaves
    alone, how reducers compose, the error/status invariant over every
    dispatch sequence, the two settled outcomes of `fetchProjects`, and the
    first-match behaviour of `selectProjectById`. */
module ProjectsSliceProperties {
  import opened Wrappers
  import opened ProjectsSlice

  /* ---------- Initial state ---------- */

  /** The store starts empty, idle, without an error, sorted by newest; no
      id can be found in it yet, and it satisfies the slice invariant. */
  lemma InitialStateProperties(id: string)
    ensures InitialState.projects == [] && InitialState.status == Idle
    ensures InitialState.error == None && InitialState.sortBy == Newest
    ensures ErrorImpliesFailed(InitialState)
    ensures SelectProjectById(InitialState, id) == None
  {
  }

  /* ---------- Composition of reducers ---------- */

  /** A reducer that assigns at least every field another one assigns
      erases that other reducer's effect entirely. */
  lemma Overwrite(s: ProjectsState, a: Action, b: Action)
    requires Assignment(a).Keys <= Assignment(b).Keys
    ensures Reduce(Reduce(s, a), b) == Reduce(s, b)
  {
    forall f ensures Get(Reduce(Reduce(s, a), b), f) == Get(Reduce(s, b), f) {
      assert Get(Reduce(s, a), f) == (if f in Assignment(a) then Assignment(a)[f] else Get(s, f));
    }
    Extensionality(Reduce(Reduce(s, a), b), Reduce(s, b));
  }

  /** Every reducer is idempotent: dispatching the same action twice is the
      same as dispatching it once. */
  lemma Idempotent(s: ProjectsState, a: Action)
    ensures Reduce(Reduce(s, a), a) == Reduce(s, a)
  {
    Overwrite(s, a, a);
  }

  /** Reducers that assign disjoint sets of fields commute. */
  lemma Commute(s: ProjectsState, a: Action, b: Action)
    requires Assignment(a).Keys !! Assignment(b).Keys
    ensures Reduce(Reduce(s, a), b) == Reduce(Reduce(s, b), a)
  {
    forall f ensures Get(Reduce(Reduce(s, a), b), f) == Get(Reduce(Reduce(s, b), a), f) {
      assert Get(Reduce(s, a), f) == (if f in Assignment(a) then Assignment(a)[f] else Get(s, f));
      assert Get(Reduce(s, b), f) == (if f in Assignment(b) then Assignment(b)[f] else Get(s, f));
    }
    Extensionality(Reduce(Reduce(s, a), b), Reduce(Reduce(s, b), a));
  }

  /* ---------- The five reducers one by one ---------- */

  /** `setProjects` installs the payload, marks success, clears the error,
      keeps `sortBy`, and repeating it changes nothing. */
  lemma SetProjectsEffect(s: ProjectsState, p: seq<Project>)
    ensures Reduce(s, SetProjects(p)).projects == p
    ensures Reduce(s, SetProjects(p)).status == Succeeded
    ensures Reduce(s, SetProjects(p)).error == None
    ensures Reduce(s, SetProjects(p)).sortBy == s.sortBy
    ensures Reduce(Reduce(s, SetProjects(p)), SetProjects(p)) == Reduce(s, SetProjects(p))
  {
    Idempotent(s, SetProjects(p));
  }

  /** `setProjects` replaces the list wholesale: the result does not depend
      on the previous list, status or error, only on `sortBy`. */
  lemma SetProjectsReplacesWholesale(s: ProjectsState, t: ProjectsState, p: seq<Project>)
    requires s.sortBy == t.sortBy
    ensures Reduce(s, SetProjects(p)) == Reduce(t, SetProjects(p))
  {
  }

  /** `setProjectsLoading` marks a request in flight and clears the error;
      the list and the sort preference stay as they were. */
  lemma SetProjectsLoadingEffect(s: ProjectsState)
    ensures Reduce(s, SetProjectsLoading).status == Loading
    ensures Reduce(s, SetProjectsLoading).error == None
    ensures Reduce(s, SetProjectsLoading).projects == s.projects
    ensures Reduce(s, SetProjectsLoading).sortBy == s.sortBy
  {
  }

  /** `setProjectsError` records the failure without touching the list, so
      stale data stays visible: every lookup answers as before. */
  lemma SetProjectsErrorEffect(s: ProjectsState, m: string, id: string)
    ensures Reduce(s, SetProjectsError(m)).status == Failed
    ensures Reduce(s, SetProjectsError(m)).error == Some(m)
    ensures Reduce(s, SetProjectsError(m)).projects == s.projects
    ensures Reduce(s, SetProjectsError(m)).sortBy == s.sortBy
    ensures SelectProjectById(Reduce(s, SetProjectsError(m)), id) == SelectProjectById(s, id)
  {
  }

  /** `clearProjectsError` only clears the error: a `failed` status stays
      `failed`. It is idempotent. */
  lemma ClearProjectsErrorEffect(s: ProjectsState)
    ensures Reduce(s, ClearProjectsError) == s.(error := None)
    ensures Reduce(s, ClearProjectsError).status == s.status
    ensures Reduce(Reduce(s, ClearProjectsError), ClearProjectsError) == Reduce(s, ClearProjectsError)
    ensures s.error == None ==> Reduce(s, ClearProjectsError) == s
  {
    Idempotent(s, ClearProjectsError);
  }

  /** `sortProjectsBy` assigns only the preference: the stored order of the
      projects is untouched. */
  lemma SortProjectsByEffect(s: ProjectsState, v: SortValue)
    ensures Reduce(s, SortProjectsBy(v)).sortBy == v
    ensures Reduce(s, SortProjectsBy(v)).projects == s.projects
    ensures Reduce(s, SortProjectsBy(v)) == s.(sortBy := v)
  {
  }

  /** `sortProjectsBy` commutes with every other reducer. */
  lemma SortProjectsByCommutes(s: ProjectsState, v: SortValue, a: Action)
    requires !a.SortProjectsBy?
    ensures Reduce(Reduce(s, SortProjectsBy(v)), a) == Reduce(Reduce(s, a), SortProjectsBy(v))
  {
    Commute(s, SortProjectsBy(v), a);
  }

  /* ---------- Dispatch sequences ---------- */

  /** Every dispatch sequence preserves the slice invariant. */
  lemma {:induction false} DispatchPreservesInvariant(s: ProjectsState, acts: seq<Action>)
    requires ErrorImpliesFailed(s)
    ensures ErrorImpliesFailed(DispatchAll(s, acts))
    decreases |acts|
  {
    if |acts| > 0 {
      DispatchPreservesInvariant(s, acts[..|acts| - 1]);
    }
  }

  /** In every state reachable from the initial one, a non-null error means
      status `failed`. */
  lemma {:induction false} ReachableErrorImpliesFailed(acts: seq<Action>)
    ensures ErrorImpliesFailed(DispatchAll(InitialState, acts))
  {
    DispatchPreservesInvariant(InitialState, acts);
  }

  /** The converse does not hold: clearing the error after a failure leaves
      a reachable state that is `failed` with no message. */
  lemma FailedWithoutErrorReachable()
    ensures !(forall acts: seq<Action> {:trigger DispatchAll(InitialState, acts)} ::
                DispatchAll(InitialState, acts).status == Failed ==>
                  DispatchAll(InitialState, acts).error.Some?)
  {
    var acts := [SetProjectsError("e"), ClearProjectsError];
    DispatchTwo(InitialState, acts[0], acts[1]);
    assert DispatchAll(InitialState, acts).status == Failed;
    assert DispatchAll(InitialState, acts).error == None;
  }

  /** The index of the last action in `acts` that assigns field `f`. */
  function LastWriter(acts: seq<Action>, f: Field): (r: Option<nat>)
    ensures r.Some? ==> r.value < |acts| && f in Assignment(acts[r.value])
    ensures r.Some? ==> forall j :: r.value < j < |acts| ==> f !in Assignment(acts[j])
    ensures r.None? <==> forall j :: 0 <= j < |acts| ==> f !in Assignment(acts[j])
    decreases |acts|
  {
    if |acts| == 0 then None
    else if f in Assignment(acts[|acts| - 1]) then Some(|acts| - 1)
    else LastWriter(acts[..|acts| - 1], f)
  }

  /** Last write wins, field by field: after a dispatch sequence each field
      holds the value the last action assigning it wrote, or its original
      value when no action assigned it. */
  lemma {:induction false} LastWriteWins(s: ProjectsState, acts: seq<Action>, f: Field)
    ensures LastWriter(acts, f).None? ==> Get(DispatchAll(s, acts), f) == Get(s, f)
    ensures LastWriter(acts, f).Some? ==>
              Get(DispatchAll(s, acts), f) == Assignment(acts[LastWriter(acts, f).value])[f]
    decreases |acts|
  {
    if |acts| > 0 {
      var init := acts[..|acts| - 1];
      LastWriteWins(s, init, f);
      if f !in Assignment(acts[|acts| - 1]) {
        assert LastWriter(acts, f) == LastWriter(init, f);
        if LastWriter(init, f).Some? {
          assert acts[LastWriter(init, f).value] == init[LastWriter(init, f).value];
        }
      }
    }
  }

  /** Stale data survives: as long as no `setProjects` is dispatched, the
      project list is exactly the one the sequence started with, whatever
      loading, error or sort actions happen in between. */
  lemma {:induction false} StaleProjectsSurvive(s: ProjectsState, acts: seq<Action>)
    requires forall i :: 0 <= i < |acts| ==> !acts[i].SetProjects?
    ensures DispatchAll(s, acts).projects == s.projects
  {
    assert forall j :: 0 <= j < |acts| ==> ProjectsField !in Assignment(acts[j]);
    LastWriteWins(s, acts, ProjectsField);
  }

  /** From the initial state, the status stays `idle` exactly as long as
      only `clearProjectsError` and `sortProjectsBy` have been dispatched. */
  lemma {:induction false} IdleUntilStatusWritten(acts: seq<Action>)
    ensures DispatchAll(InitialState, acts).status == Idle <==>
              forall i :: 0 <= i < |acts| ==> acts[i].ClearProjectsError? || acts[i].SortProjectsBy?
    decreases |acts|
  {
    if |acts| > 0 {
      var init := acts[..|acts| - 1];
      IdleUntilStatusWritten(init);
      assert forall i :: 0 <= i < |init| ==> init[i] == acts[i];
    }
  }

  /* ---------- fetchProjects ---------- */

  /** While the service call is pending, the store shows `loading` over the
      unchanged list; once it settles, the state is the two-step reduction
      of `setProjectsLoading` and the outcome's action. */
  lemma FetchProjectsSequence<E>(s: ProjectsState, outcome: Outcome<E>, errorMsg: E -> string)
    ensures DispatchAll(s, FetchProjectsActions(outcome, errorMsg)[..1]).status == Loading
    ensures DispatchAll(s, FetchProjectsActions(outcome, errorMsg)[..1]).projects == s.projects
    ensures FetchProjects(s, outcome, errorMsg) ==
              Reduce(Reduce(s, SetProjectsLoading), FetchProjectsActions(outcome, errorMsg)[1])
  {
    var acts := FetchProjectsActions(outcome, errorMsg);
    assert acts[..1] == [SetProjectsLoading];
    assert DispatchAll(s, acts[..1]) == Reduce(DispatchAll(s, acts[..1][..0]), SetProjectsLoading);
    DispatchTwo(s, acts[0], acts[1]);
  }

  /** A successful fetch ends exactly as a direct `setProjects(result)`
      would: the loading step leaves no trace. */
  lemma FetchSucceededIsSetProjects<E>(s: ProjectsState, data: seq<Project>, errorMsg: E -> string)
    ensures FetchProjects(s, Resolved(data), errorMsg) == Reduce(s, SetProjects(data))
  {
    FetchProjectsSequence(s, Resolved(data), errorMsg);
    Overwrite(s, SetProjectsLoading, SetProjects(data));
  }

  /** A failed fetch ends exactly as a direct `setProjectsError` with the
      normalised message would: the list before the call is kept, so every
      lookup answers as it did before the fetch. */
  lemma FetchFailedIsSetProjectsError<E>(s: ProjectsState, e: E, errorMsg: E -> string, id: string)
    ensures FetchProjects(s, Rejected(e), errorMsg) == Reduce(s, SetProjectsError(errorMsg(e)))
    ensures SelectProjectById(FetchProjects(s, Rejected(e), errorMsg), id) == SelectProjectById(s, id)
  {
    FetchProjectsSequence(s, Rejected(e), errorMsg);
    Overwrite(s, SetProjectsLoading, SetProjectsError(errorMsg(e)));
  }

  /** Dispatching three actions applies the reducer three times. */
  lemma DispatchThree(s: ProjectsState, a: Action, b: Action, c: Action)
    ensures DispatchAll(s, [a, b, c]) == Reduce(Reduce(Reduce(s, a), b), c)
  {
    assert [a, b, c][..2] == [a, b];
    DispatchTwo(s, a, b);
  }

  /** An action dispatched while the service call is pending lands between
      the thunk's two dispatches. A `sortProjectsBy(v)` dispatched there
      survives the settling action: the run ends in the uninterleaved
      result with only `sortBy` replaced by `v`. */
  lemma FetchWithInterleavedSort<E>(s: ProjectsState, outcome: Outcome<E>, errorMsg: E -> string, v: SortValue)
    ensures DispatchAll(s, [SetProjectsLoading, SortProjectsBy(v), FetchProjectsActions(outcome, errorMsg)[1]])
              == FetchProjects(s, outcome, errorMsg).(sortBy := v)
  {
    var settle := FetchProjectsActions(outcome, errorMsg)[1];
    DispatchThree(s, SetProjectsLoading, SortProjectsBy(v), settle);
    Commute(Reduce(s, SetProjectsLoading), SortProjectsBy(v), settle);
    FetchProjectsSequence(s, outcome, errorMsg);
  }

  /* ---------- selectProjectById ---------- */

  /** Only `setProjects` can change what a lookup returns. */
  lemma SelectionUnchangedUnlessSetProjects(s: ProjectsState, a: Action, id: string)
    requires !a.SetProjects?
    ensures SelectProjectById(Reduce(s, a), id) == SelectProjectById(s, id)
  {
    assert Get(Reduce(s, a), ProjectsField) == Get(s, ProjectsField);
  }

  /** Any stored project's id is found, and when ids are unique the lookup
      returns that very project. */
  lemma SelectFindsStoredProject(s: ProjectsState, k: nat)
    requires k < |s.projects|
    ensures SelectProjectById(s, s.projects[k].id).Some?
    ensures (forall i, j :: 0 <= i < j < |s.projects| ==> s.projects[i].id != s.projects[j].id) ==>
              SelectProjectById(s, s.projects[k].id) == Some(s.projects[k])
  {
    var id := s.projects[k].id;
    var r := SelectProjectById(s, id);
    assert r.Some?;
    var i :| 0 <= i < |s.projects| && s.projects[i] == r.value
              && forall j :: 0 <= j < i ==> s.projects[j].id != id;
    assert i <= k;
  }
}
