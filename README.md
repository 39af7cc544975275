# soten session and sync controller, modelled in Dafny

This project models the event-driven controller in `src/atoms/` of soten, a browser note viewer that keeps its notes in a GitHub repository. The controller consists of:

- the store of state cells (`store.ts`): session, auth status, repository list and selection, filename list, file map, ready flag, view, path, and the error cells;
- the dispatcher (`events.ts`), which logs every event and routes its tag to exactly one handler;
- the nine handlers (`handlers.ts`);
- the bootstrap (`init.ts`), which covers:
  - parsing the OAuth redirect fragment;
  - revalidating a cached session;
  - marking the app initialised;
  - routing the fragment to the front page or to a note, at start-up and on every `hashchange`.

Layout:

- `cells.dfy` holds the enums, records, the `State` snapshot of all cells and their initial values.
- `events.dfy` holds the event sum type, the causal relation `MayFollow` between an event and the event its handler dispatches, and the `Rank` that bounds chains.
- `collaborators.dfy` holds the collaborators:
  - `Env` holds the answers of the GitHub client, git, and the file store for one run;
  - `Call` is one entry of the log of dispatches and collaborator calls.
- `transitions.dfy` is the pure specification:
  - `Handle` is one handler step: its cell writes, its calls, and the one event it dispatches last, if any;
  - `Run` is a dispatch: log the event, then call the handler, which awaits its follow-on;
  - `Chain` is a direct handler call.
- `atoms.dfy` is the imperative model:
  - class `Atoms.Store` has one field per atom and a ghost `trace` of calls;
  - `Dispatch` and the handlers are mutually recursive methods, each proved to leave exactly the state and trace that `Run`/`Chain` specify;
  - `ReadFiles` is the loop that builds the file map.
- `chains.dfy`, `handler_facts.dfy`: properties of runs (chain shape and depth, cells a run never touches, invariants every run preserves) and the outcome of each handler.
- `fragment.dfy`: `URLSearchParams`-style parsing of the fragment, `parseOAuthHash`, the router's decision, and the round trip from a redirect fragment back to its session, and the fragment the OAuth callback builds.
- `bootstrap.dfy`: `Boot`, the specification of `init`; the methods `Init` and `Router` on the store; and lemmas about what initialisation guarantees.

Several things are parameters or left out:

- The GitHub client (`fetchUserRepos`, `fetchCurrentUser`) and git (`isInitialized`, `clone`, `pull`) are fields of `Env`.
- The file store (`readRepoFiles`, `readFile`, `wipeFs`) is also in `Env`; `readFile` is a partial map from path to content.
- The browser's `window.location.hash` is a parameter of `Init` and `Router`. `Init` returns the fragment left after `history.replaceState`.
- Every collaborator call is appended to the trace in call order.

Where the tests or the user interface expect more than the code does, the model follows the code:

- **SelectRepo tag.** The handler tests mock an `Event` with a `SelectRepo` tag (`src/atoms/handlers.test.ts:28,134`), and the repository selector dispatches `Event.SelectRepo` (`src/components/RepoSelector.tsx:17`). However, `src/atoms/events.ts:12-21` declares no such tag and the switch routes none. So `Atoms.Store.HandleSelectRepo` is a store method that the dispatcher never calls, and a dispatch of the undeclared tag reaches the default branch, modelled as `Event.Unrecognised`.
- **Single-repository auto-select.** The tests expect a sole listed repository to be auto-selected (`src/atoms/handlers.test.ts:127-135`). `handleFetchAndSelectRepos` clears the selection instead.
- **`auth_error`.** The tests expect `auth_error` fragment handling (`src/atoms/init.test.ts:42-60,107-117`), which `init.ts` lacks.
- **Persisted cells.** `user` and `selectedRepo` are `atomWithStorage` cells read on initialisation (`getOnInit`), so the store's constructor takes the persisted values instead of starting them at null.

## Model

| member | source | states |
|---|---|---|
| Atoms.Store.constructor | src/atoms/store.ts:6-47 | every cell starts at its declared value: Initializing, Unauthenticated, Front, no errors, empty lists and map, not ready, path "/"; the two persisted cells start at the persisted values; the trace is empty |
| Chains.InitialCells | src/atoms/store.ts:10-47 | a fresh store satisfies the file invariants; its auth status agrees with its session, and its selection is listed, exactly when nothing was persisted |
| Transitions.Handle | src/atoms/events.ts:49-67 | a handler's follow-on event may causally follow the handled event and has a lower rank; a handler's own calls contain no dispatch |
| Atoms.Store.Dispatch | src/atoms/events.ts:37-68 | dispatching logs the event, routes each of the eight tags to its handler, and awaits it. The new cells and trace are those of `Run`; an unrecognised tag only adds an unimplemented-event entry |
| Chains.RunShape | src/atoms/events.ts:49-65 | a run dispatches its event first, then only events that may follow their predecessor, and at most Rank(e) of them |
| Chains.ChainDepth | src/atoms/handlers.ts:29-104 | no chain of dispatches is longer than four events |
| Chains.TerminalDispatchNothing | src/atoms/handlers.ts:32-43 | Logout, ReadRepoFilesContent, Error, ShowNote, ShowFront and unrecognised tags dispatch nothing further |
| Chains.FollowOnsAreInternal | src/atoms/handlers.ts:29-104 | no handler dispatches Authenticated, Logout, ShowNote or ShowFront |
| Chains.RunKeepsBootCells | src/atoms/init.ts:44-63 | no event changes appState or authError |
| Chains.RunKeepsSession | src/atoms/handlers.ts:27-41 | only Authenticated and Logout change the session or the auth status |
| Chains.RunKeepsSelection | src/atoms/handlers.ts:86-128 | events of rank at most one other than Logout keep the repository list and the selection |
| Chains.RunKeepsView | src/atoms/handlers.ts:134-142 | only ShowNote and ShowFront change the path, and only they and Logout change the view |
| Chains.RunPreservesAuthConsistent | src/atoms/handlers.ts:27-34 | if the auth status says Authenticated exactly when a session is present, every run keeps it so |
| Chains.SessionEventsEstablishAuthConsistent | src/atoms/handlers.ts:27-34 | after Authenticated or Logout, the auth status agrees with the session whatever it was before |
| Chains.RunPreservesFilesWithinNames | src/atoms/handlers.ts:101-127 | every run keeps the file map's keys within the filename list |
| Chains.RunPreservesReadyMeansLoaded | src/atoms/handlers.ts:101-127 | every run keeps "ready implies the file map is the read of the filename list" |
| Chains.RunPreservesSelectedInRepos | src/atoms/handlers.ts:65-74 | every run keeps the selection among the listed repositories |
| Atoms.Store.HandleAuthenticated | src/atoms/handlers.ts:21-30 | stores the session and the Authenticated status, then dispatches FetchAndSelectRepos first; the new state and trace are those of `Chain` |
| HandlerFacts.AuthenticatedOutcome | src/atoms/handlers.ts:21-30 | after the whole chain the session is the payload and the status Authenticated; the first call is the FetchAndSelectRepos dispatch |
| Atoms.Store.HandleLogout | src/atoms/handlers.ts:32-43 | clears the session, status, selection, lists, map, ready flag and error, and shows the front page; keeps appState, authError and the path; wipes the mirror once |
| HandlerFacts.LogoutOutcome | src/atoms/handlers.ts:32-43 | the same cells after a direct call, with exactly one wipe |
| HandlerFacts.LogoutIdempotent | src/atoms/handlers.ts:32-43 | logging out twice gives the same cells as logging out once |
| HandlerFacts.LogoutForgetsPriorState | src/atoms/handlers.ts:32-43 | after Logout the cells depend only on appState, authError and the path |
| Atoms.Store.HandleFetchAndSelectRepos | src/atoms/handlers.ts:45-75 | new cells and trace are those of `Chain` for FetchAndSelectRepos |
| HandlerFacts.FetchAndSelectOutcome | src/atoms/handlers.ts:46-63 | the three failures post their messages, leave the repository cells alone and dispatch nothing else; with no session the repositories are never requested |
| HandlerFacts.FetchAndSelectListed | src/atoms/handlers.ts:65-74 | on a non-empty listing the list is stored. A listed cached selection is kept and FetchRepoFiles dispatched; any other selection is cleared with nothing dispatched. The selection is then among the listed repositories |
| Atoms.Store.HandleSelectRepo | src/atoms/handlers.ts:77-84 | stores the selection, clears filenames, map and ready, wipes once, then dispatches FetchRepoFiles; cells and trace are those of `SelectRepoChain` |
| HandlerFacts.SelectRepoOutcome | src/atoms/handlers.ts:77-84 | the selection is the payload after the chain; the calls start with the wipe, then the FetchRepoFiles dispatch; without a session only the error is added |
| Atoms.Store.HandleFetchRepoFiles | src/atoms/handlers.ts:86-105 | new cells and trace are those of `Chain` for FetchRepoFiles |
| HandlerFacts.FetchRepoFilesOutcome | src/atoms/handlers.ts:86-105 | with no selection or no session it posts the invalid-state error and syncs nothing. Otherwise it asks whether the mirror exists, then calls exactly one of pull (mirror present) or clone of the repository's GitHub URL. It then lists the files, stores the names and dispatches ReadRepoFilesContent |
| Atoms.ReadFiles | src/atoms/handlers.ts:108-124 | the loop's map has exactly the names that have a read result, each with its content |
| Atoms.Store.HandleReadRepoFilesContent | src/atoms/handlers.ts:107-128 | the file map is the reads of the filename list and the ready flag is set |
| HandlerFacts.ReadContentOutcome | src/atoms/handlers.ts:107-128 | the keys are exactly the listed names that read successfully, with their contents; ready is set even for an empty list; each list entry is read once, in order (a repeated name is read again); nothing else changes |
| Atoms.Store.HandleError | src/atoms/handlers.ts:130-132 | only the error cell changes, to the message |
| HandlerFacts.ErrorOriginIgnored | src/atoms/events.ts:33 | the optional originating tag of an Error makes no difference; only the message is stored |
| Atoms.Store.HandleShowNote | src/atoms/handlers.ts:134-137 | sets the path to the payload and the view to Note, nothing else |
| Atoms.Store.HandleShowFront | src/atoms/handlers.ts:139-142 | sets the path to "/" and the view to Front, nothing else |
| HandlerFacts.NavigationOutcome | src/atoms/handlers.ts:134-142 | the cells after ShowNote and ShowFront |
| HandlerFacts.UnrecognisedIsIgnored | src/atoms/events.ts:66-67 | an unrecognised tag changes no cell and only logs the event and the warning |
| Fragment.DropFirst | src/atoms/init.ts:15 | `substring(1)`: the fragment without its first character, empty for an empty one |
| Fragment.Split | src/atoms/init.ts:15 | the query cut at every `&`: no piece holds `&`, and the pieces join back to the query |
| Fragment.SplitJoin | src/atoms/init.ts:15 | cutting joined `&`-free pieces gives back the pieces |
| Fragment.PairOf | src/atoms/init.ts:15 | a `name=value` piece parses to that name and value when the name holds no `=` and neither holds `+`; the value may hold `=`, since the piece is cut at its first `=` |
| Fragment.QueryParams | src/atoms/init.ts:15 | parsing the `&`-joined `name=value` pieces of plain names and values gives back the parameter list, in order |
| Fragment.GetFirst | src/atoms/init.ts:16-19 | a name gets the value of the first pair that carries it, whatever later pairs carry |
| Fragment.Get | src/atoms/init.ts:16-19 | `get` returns no value exactly when no pair has the key, else the value of the first pair with the key |
| Fragment.ParseOAuthHash | src/atoms/init.ts:5-26 | a session is returned exactly when the fragment is non-empty and all four parameters are present and non-empty; access_token becomes the token and app_install_id the installation |
| Fragment.OAuthRoundTrip | src/atoms/init.ts:5-26 | parsing the fragment `OAuthFragment` builds (the callback's four parameters in its order, then email) with non-empty plain values returns the session they describe |
| Fragment.RedirectRoundTrip | src/atoms/init.ts:5-26 | parsing any fragment of plain parameters whose first access_token, username, email and app_install_id pairs carry a session's non-empty values returns that session, in whatever order and beside whatever other parameters |
| Fragment.CallbackDropsSession | functions/api/gh-auth/callback.js:45 | the redirect fragment the callback builds as written carries no email, so parseOAuthHash returns no session for it, whatever its plain values |
| Fragment.RouteEvent | src/atoms/init.ts:28-36 | "/" after the `#` routes to ShowFront, any other path p to ShowNote with path p |
| Bootstrap.Router | src/atoms/init.ts:28-36 | the router's dispatch leaves the cells and trace that running the routed event specifies |
| Bootstrap.RouteOnlyNavigates | src/atoms/init.ts:70 | a fragment change only sets the path and the view and dispatches nothing further |
| Bootstrap.Revalidate | src/atoms/init.ts:48-61 | the cached session is kept exactly when it has a token whose current-user lookup answers with a login; the lookup is made exactly when there is a token; otherwise Logout |
| Bootstrap.Init | src/atoms/init.ts:38-68 | init leaves the cells, the trace and the fragment that `Boot` specifies |
| Bootstrap.InitFromRedirect | src/atoms/init.ts:41-46 | the redirect branch dispatches Authenticated, clears the fragment, marks the app initialised, and returns |
| Bootstrap.InitFromCache | src/atoms/init.ts:48-67 | the other branch checks the session, marks the app initialised and routes a non-empty fragment |
| Bootstrap.CheckSession | src/atoms/init.ts:48-61 | the session check's state and calls are those `Revalidate` and `Run` specify |
| Bootstrap.BootInitializes | src/atoms/init.ts:38-68 | init always ends with appState Initialized and the auth status agreeing with the session |
| Bootstrap.RedirectBootOutcome | src/atoms/init.ts:41-46 | after a redirect the parsed session is signed in; the fragment is cleared last and never routed: the path and view are unchanged and no ShowNote or ShowFront is dispatched; Authenticated is dispatched first |
| Bootstrap.RedirectNeverRoutes | src/atoms/init.ts:41-46 | the redirect branch dispatches no ShowNote or ShowFront |
| Bootstrap.CachedBootSession | src/atoms/init.ts:48-61 | without a redirect the session survives exactly when revalidation confirms it, and the revalidation's event is dispatched first |
| Bootstrap.CachedBootRoutes | src/atoms/init.ts:63-67 | without a redirect a present fragment is routed last. With an empty fragment the router does not run: the calls are exactly the session check's and its run's, no ShowNote or ShowFront is dispatched, and the path is left alone |
| Bootstrap.SessionRunNeverRoutes | src/atoms/init.ts:55-60 | running Authenticated or Logout dispatches no navigation event |
| Bootstrap.BootSessionOnce | src/atoms/init.ts:38-68 | init dispatches exactly one of Authenticated and Logout, first |

## Left out

- Percent-encoding and decoding: `Fragment.ParsePair` decodes `+` only, and the callback's `encodeURIComponent` of the username is not modelled. So the fragment lemmas take values that need no escaping: `Plain` excludes `%`, `+` and the separator `&`.
- Collaborator failures: a throwing `clone`, `pull`, `fetchUserRepos`, `fetchCurrentUser` or `readFile` is not modelled. Every collaborator answers, and an absent listing or login is `None`.
- Concurrency: chains started elsewhere are not modelled, nor are stale in-flight chains writing over newer state or a second concurrent init. Each dispatch completes before its caller continues.
- The collaborator answers are fixed for a run, drawn from `Env`. For example, whether the mirror is initialised does not change after a wipe within the same run.
- Console output: it is modelled only as `Received` and `Unimplemented` entries in the trace.
- Persistence writes: the write of `user` and `selectedRepo` to local storage is not modelled. Those cells are plain fields.
- Git credentials: what the credentials passed to `clone` and `pull` do inside git is not modelled. The trace records the call and its arguments.
- Blob contents: `Image` holds bytes and no MIME type.
- Other parts: the OAuth code-exchange backend (apart from the fragment it redirects to), the GitHub HTTP client, the markdown pipeline and the UI components are not part of this model.
- Test-only behaviour: behaviour that only the test files assert is not modelled. This covers auto-selecting a sole repository, `auth_error` handling in the fragment, and a routed `SelectRepo` tag.
- Atoms.Store.HandleSelectRepo: the dispatcher does not route to it, following the code. The UI's dispatch of the undefined tag is covered by `UnrecognisedIsIgnored`.
- Re-entry: the code has no guard against init running twice, and the model does not model a second run.

## Findings

| source | as written | input that shows it | evidently intended | confidence | as-written member | corrected member |
|---|---|---|---|---|---|---|
| functions/api/gh-auth/callback.js:45 | the redirect fragment carries `app_install_id`, `access_token`, `token_type` and `username` but no `email`, while `parseOAuthHash` demands all four of access_token, username, email and app_install_id (src/atoms/init.ts:21) | `#app_install_id=789&access_token=tok&token_type=bearer&username=u` parses to no session, so the OAuth sign-in falls through to the cached-session path | the fragment also carries `email=`, as functions/api/gh-auth/callback.test.js:116 expects, and then parses to the session | not executed | Fragment.CallbackDropsSession | Fragment.OAuthRoundTrip |
