# Projects slice of the bug-tracker client store

This project models the `projects` slice of the bug tracker's Redux store. The
slice state is a record with four fields:

- `projects`: the list of projects from the last successful fetch;
- `status`: one combined status, one of `idle`, `loading`, `succeeded` or `failed`;
- `error`: a nullable error message;
- `sortBy`: the sort preference.

The model has four parts:

- The state starts from a fixed initial record.
- Five reducers update it: `setProjects`, `setProjectsLoading`,
  `setProjectsError`, `clearProjectsError` and `sortProjectsBy`.
- The `fetchProjects` thunk dispatches `setProjectsLoading`, calls the projects
  service, then dispatches either `setProjects(result)` or
  `setProjectsError(getErrorMsg(e))`.
- The `selectProjectById` selector returns the first stored project with a
  given id.

Each reducer is modelled as a pure function on an immutable record. The Immer
draft mutations in the source amount to record updates that touch only the
fields they assign. `ProjectsSlice.Assignment` is a separate table of those
assignments, one entry per reducer. `ProjectsSlice.Reduce` is proved against
it, field by field. Every composition lemma is derived from that table:
overwrite, idempotence, commutation and last-write-wins.

Two collaborators of the thunk are defined outside the slice, so the thunk takes them as parameters:

- The outcome of the service call is a parameter, `Outcome<E>`. It is either
  `Resolved(data)` or `Rejected(failure)`.
- The message helper `getErrorMsg` is a function parameter, `errorMsg: E -> string`.

Files:

- `wrappers.dfy`: the `Option` type, used for `string | null` and for
  `Array.find`'s `undefined`.
- `projects_slice.dfy`: the state, actions, reducer, dispatch fold, thunk and
  selector.
- `slice_properties.dfy`: the lemmas.

The slice has one combined status. It does not de-duplicate fetched lists,
has no create action, no sorted selector and no request tokens, and puts no
constraint on the error message; the model has none of these either.

## Model

| member | source | states |
|---|---|---|
| ProjectsSlice.Reduce | client/src/redux/slices/projectsSlice.ts:24-43 | each reducer's result agrees with the `Assignment` table on every field that reducer assigns and keeps every other field of the previous state; every reducer preserves "error non-null implies status failed" |
| ProjectsSlice.DispatchAll | client/src/redux/slices/projectsSlice.ts:56-63 | dispatching a sequence of actions one after another, as the thunk does, preserves "error non-null implies status failed", and leaves sortBy unchanged when no sortProjectsBy is among the actions |
| ProjectsSlice.FetchProjectsActions | client/src/redux/slices/projectsSlice.ts:57-63 | the thunk dispatches exactly two actions, setProjectsLoading first. The second is setProjects carrying the service's result exactly when the call resolved, and setProjectsError carrying getErrorMsg of the thrown value exactly when it threw |
| ProjectsSlice.FetchProjects | client/src/redux/slices/projectsSlice.ts:55-65 | for a run with nothing dispatched between its two dispatches: after the thunk settles, sortBy is unchanged. Status is succeeded exactly when the call resolved and failed exactly when it threw. On success the list is the result and the error is null. On failure the list from before the call is kept and the error is the normalised message |
| ProjectsSlice.FindIndex | client/src/redux/slices/projectsSlice.ts:70 | the scan `Array.find` performs: the index returned is the first whose project has the id. None is returned exactly when no project has it |
| ProjectsSlice.SelectProjectById | client/src/redux/slices/projectsSlice.ts:69-71 | returns a stored project with the requested id, and no earlier project has that id. Returns none exactly when no stored project has the id |
| ProjectsSliceProperties.InitialStateProperties | client/src/redux/slices/projectsSlice.ts:14-19 | the initial state (the constant `ProjectsSlice.InitialState`) has an empty list, status idle, null error and sortBy newest. It satisfies the invariant, and no id is found in it |
| ProjectsSliceProperties.Overwrite | client/src/redux/slices/projectsSlice.ts:25-43 | a reducer that assigns every field another assigns erases that other reducer's effect completely |
| ProjectsSliceProperties.Idempotent | client/src/redux/slices/projectsSlice.ts:25-43 | dispatching any of the five actions twice equals dispatching it once |
| ProjectsSliceProperties.Commute | client/src/redux/slices/projectsSlice.ts:25-43 | reducers assigning disjoint field sets commute |
| ProjectsSliceProperties.SetProjectsEffect | client/src/redux/slices/projectsSlice.ts:25-29 | setProjects sets the list to the payload, status succeeded and error null, keeps sortBy, and applying it twice equals applying it once |
| ProjectsSliceProperties.SetProjectsReplacesWholesale | client/src/redux/slices/projectsSlice.ts:25-29 | the result of setProjects is the same from any two states with equal sortBy: the previous list, status and error leave no trace |
| ProjectsSliceProperties.SetProjectsLoadingEffect | client/src/redux/slices/projectsSlice.ts:30-33 | setProjectsLoading sets status loading and error null. The list and sortBy are unchanged |
| ProjectsSliceProperties.SetProjectsErrorEffect | client/src/redux/slices/projectsSlice.ts:34-37 | setProjectsError sets status failed and error to the message. The list and sortBy are unchanged, so every lookup answers as before |
| ProjectsSliceProperties.ClearProjectsErrorEffect | client/src/redux/slices/projectsSlice.ts:38-40 | clearProjectsError changes only the error, to null; the status, including failed, stays. It is idempotent, and a no-op when the error is already null |
| ProjectsSliceProperties.SortProjectsByEffect | client/src/redux/slices/projectsSlice.ts:41-43 | sortProjectsBy assigns only sortBy and leaves the stored project order untouched, for every state |
| ProjectsSliceProperties.SortProjectsByCommutes | client/src/redux/slices/projectsSlice.ts:25-43 | sortProjectsBy commutes with every reducer other than itself, because it assigns a field no other reducer assigns |
| ProjectsSliceProperties.DispatchPreservesInvariant | client/src/redux/slices/projectsSlice.ts:24-43 | any sequence of dispatched actions preserves "error non-null implies status failed" |
| ProjectsSliceProperties.ReachableErrorImpliesFailed | client/src/redux/slices/projectsSlice.ts:14-43 | every state reachable from the initial state satisfies "error non-null implies status failed" |
| ProjectsSliceProperties.FailedWithoutErrorReachable | client/src/redux/slices/projectsSlice.ts:34-40 | the converse fails: setProjectsError followed by clearProjectsError reaches status failed with a null error |
| ProjectsSliceProperties.LastWriteWins | client/src/redux/slices/projectsSlice.ts:25-43 | after any dispatch sequence, each field holds the value written by the last action that assigns it. A field that no action assigns keeps its original value |
| ProjectsSliceProperties.StaleProjectsSurvive | client/src/redux/slices/projectsSlice.ts:30-43 | without a setProjects, no mix of loading, error, clear and sort actions changes the project list |
| ProjectsSliceProperties.IdleUntilStatusWritten | client/src/redux/slices/projectsSlice.ts:14-43 | from the initial state, status stays idle exactly as long as only clearProjectsError and sortProjectsBy have been dispatched |
| ProjectsSliceProperties.FetchProjectsSequence | client/src/redux/slices/projectsSlice.ts:57-63 | while the service call is pending the state is loading over the unchanged list; the settled state is setProjectsLoading followed by the outcome's action |
| ProjectsSliceProperties.FetchWithInterleavedSort | client/src/redux/slices/projectsSlice.ts:57-63 | a sortProjectsBy(v) dispatched while the service call is pending survives the thunk: the run ends in the uninterleaved result with sortBy replaced by v |
| ProjectsSliceProperties.FetchSucceededIsSetProjects | client/src/redux/slices/projectsSlice.ts:57-60 | a successful fetch ends in exactly the state a direct setProjects(result) gives |
| ProjectsSliceProperties.FetchFailedIsSetProjectsError | client/src/redux/slices/projectsSlice.ts:57-63 | a failed fetch ends in exactly the state a direct setProjectsError(getErrorMsg(e)) gives. Every lookup answers as it did before the fetch |
| ProjectsSliceProperties.SelectionUnchangedUnlessSetProjects | client/src/redux/slices/projectsSlice.ts:30-43 | no action other than setProjects changes what selectProjectById returns |
| ProjectsSliceProperties.SelectFindsStoredProject | client/src/redux/slices/projectsSlice.ts:69-71 | the id of any stored project is found. When ids are unique, the lookup returns that very project |

## Left out

- The projects service call and the HTTP transport are not part of this model. Their settled result is the `Outcome` parameter of the thunk.
- `getErrorMsg` is not part of this model. It is the total function parameter `errorMsg`: it is assumed to return a string and never throw, and nothing else is assumed about it (its result may be empty).
- `ProjectSortValues`: the list of sort tags is not part of this model. `SortValue` wraps a tag, and only the initial value `newest` is named.
- `ProjectState`: only `id`, `name` and the two timestamps are modelled. Owner, members and other fields are never read by the slice.
- `selectProjectsState` and `RootState` composition: the selector is modelled on the slice's own state, not on the combined store.
- Actions of other slices pass through the reducer unchanged in the combined store. This is framework behaviour, so the `Action` type covers only this slice's five actions.
- FetchProjects: models a run with nothing dispatched between its two dispatches. In the program, any action dispatched while the service call is pending lands between them; this covers another `fetchProjects` run and any action from the page. After such a run the contract's clauses need not hold, starting with `sortBy` unchanged. `DispatchAll` and `LastWriteWins` describe an interleaved sequence, and `FetchWithInterleavedSort` works out the case of an interleaved `sortProjectsBy`.
- Store wiring and Immer draft mechanics are framework plumbing and are not modelled.
- FetchProjects: the model assumes a dispatch never throws. In the source, the `try` block also covers the two dispatches, so an exception thrown by a store subscriber would lead to a `setProjectsError` dispatch. Subscribers are not part of this model.
- FetchProjects: the model assumes `getErrorMsg` returns normally. If it threw inside the `catch` at projectsSlice.ts:61-62, the thunk's promise would reject after `setProjectsLoading`, leaving status `loading` with a null error; that run is not modelled, so the ensures that a rejected call ends in `failed` holds only under this assumption.
- `ProjectDetailsPage.tsx`: the page is view rendering and routing. Its `deleteProject` import names a function the slice does not define, so there is nothing to model.
