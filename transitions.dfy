/**
 * The controller as a transition table: what each handler does to the store,
 * which collaborators it calls, and which single follow-on event it
 * dispatches (src/atoms/handlers.ts, routed by src/atoms/events.ts).
 *
 * Every handler dispatches at most one event and does so as its last action,
 * awaiting it; so running an event is its handler's step followed by running
 * the follow-on event, if any, to completion.
 */
module Transitions {
  import opened Wrappers
  import opened Cells
  import opened Events
  import opened Collaborators

  /** One handler's own effect: the store after its writes, its calls, its follow-on event. */
  datatype Step = Step(state: State, calls: seq<Call>, next: Option<Event>)

  /** The result of running an event and everything it causes. */
  datatype Outcome = Outcome(state: State, calls: seq<Call>)

  /** The file map built from the filenames whose read succeeds. */
  function ReadResults(names: seq<string>, fs: map<string, FileContent>): map<string, FileContent> {
    map f | f in names && f in fs :: fs[f]
  }

  /** The cells Logout resets; appState, authError and currentPath keep their values. */
  function LoggedOut(s: State): State {
    s.(user := None, authState := AuthState.Unauthenticated, selectedRepo := None, repos := [],
       repoFilenames := [], files := map[], repoReady := false, error := None, appView := AppView.Front)
  }

  function FetchAndSelectStep(s: State, env: Env): Step {
    match s.user
    case None => Step(s, [], Some(Event.Error(None, NoSessionMessage)))
    case Some(u) =>
      var asked := [FetchUserRepos(u.installationId, u.token)];
      match env.listRepos(u.installationId, u.token)
      case None => Step(s, asked, Some(Event.Error(None, FetchReposFailedMessage)))
      case Some(names) =>
        if |names| == 0 then Step(s, asked, Some(Event.Error(None, NoReposMessage)))
        else if s.selectedRepo.Some? && FullName(s.selectedRepo.value) in names then
          Step(s.(repos := names), asked, Some(Event.FetchRepoFiles))
        else
          Step(s.(repos := names, selectedRepo := None), asked, None)
  }

  function FetchRepoFilesStep(s: State, env: Env): Step {
    if s.selectedRepo.None? || s.user.None? then
      Step(s, [], Some(Event.Error(None, InvalidFetchStateMessage)))
    else
      var sync := if env.mirrorInitialized then Pull(s.user.value)
                  else Clone(CloneUrl(s.selectedRepo.value), s.user.value);
      Step(s.(repoFilenames := env.mirrorFiles), [IsInitialized, sync, ReadRepoFiles], Some(Event.ReadRepoFilesContent))
  }

  /**
   * The dispatcher's switch and the handler each tag is routed to. An
   * unrecognised tag falls to the default branch: a warning, nothing else.
   */
  function Handle(s: State, e: Event, env: Env): (st: Step)
    ensures st.next.Some? ==> MayFollow(e, st.next.value) && Rank(st.next.value) < Rank(e)
    ensures forall c <- st.calls :: !c.Received?
  {
    match e
    case Authenticated(u) =>
      Step(s.(user := Some(u), authState := AuthState.Authenticated), [], Some(Event.FetchAndSelectRepos))
    case Logout => Step(LoggedOut(s), [WipeFs], None)
    case FetchAndSelectRepos => FetchAndSelectStep(s, env)
    case FetchRepoFiles => FetchRepoFilesStep(s, env)
    case ReadRepoFilesContent =>
      Step(s.(files := ReadResults(s.repoFilenames, env.readFile), repoReady := true), ReadCalls(s.repoFilenames), None)
    case Error(_, message) => Step(s.(error := Some(message)), [], None)
    case ShowNote(path) => Step(s.(currentPath := path, appView := AppView.Note), [], None)
    case ShowFront => Step(s.(currentPath := "/", appView := AppView.Front), [], None)
    case Unrecognised(_) => Step(s, [Unimplemented(e)], None)
  }

  /** Dispatching `e`: the dispatcher logs it, then its handler runs to completion. */
  function Run(s: State, e: Event, env: Env): Outcome
    decreases Rank(e), 1
  {
    var c := Chain(s, e, env);
    Outcome(c.state, [Received(e)] + c.calls)
  }

  /** Calling the handler of `e` directly: its step, then the awaited follow-on dispatch. */
  function Chain(s: State, e: Event, env: Env): Outcome
    decreases Rank(e), 0
  {
    var st := Handle(s, e, env);
    match st.next
    case None => Outcome(st.state, st.calls)
    case Some(n) =>
      var o := Run(st.state, n, env);
      Outcome(o.state, st.calls + o.calls)
  }

  /** Running `e` is logging it and then calling its handler. */
  lemma RunLogsFirst(t: seq<Call>, s: State, e: Event, env: Env)
    ensures Run(s, e, env).state == Chain(s, e, env).state
    ensures (t + [Received(e)]) + Chain(s, e, env).calls == t + Run(s, e, env).calls
  {
    AppendAssoc(t, [Received(e)], Chain(s, e, env).calls);
  }

  /** A handler that dispatches ends where its awaited follow-on event ends. */
  lemma ChainFollows(t: seq<Call>, s: State, e: Event, env: Env)
    requires Handle(s, e, env).next.Some?
    ensures var st := Handle(s, e, env);
      var o := Run(st.state, st.next.value, env);
      && Chain(s, e, env).state == o.state
      && (t + st.calls) + o.calls == t + Chain(s, e, env).calls
  {
    var st := Handle(s, e, env);
    AppendAssoc(t, st.calls, Run(st.state, st.next.value, env).calls);
  }

  /** The state handleSelectRepo leaves before it dispatches FetchRepoFiles. */
  function Reselected(s: State, r: RepoRef): State {
    s.(selectedRepo := Some(r), repoFilenames := [], files := map[], repoReady := false)
  }

  /** Calling handleSelectRepo: reset the per-repository cells, wipe the mirror, fetch. */
  function SelectRepoChain(s: State, r: RepoRef, env: Env): Outcome {
    var o := Run(Reselected(s, r), Event.FetchRepoFiles, env);
    Outcome(o.state, [WipeFs] + o.calls)
  }
}
