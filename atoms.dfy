/**
 * The state store (src/atoms/store.ts) as an object whose fields are the
 * atoms, with the dispatcher (src/atoms/events.ts) and the handlers
 * (src/atoms/handlers.ts) as its methods. Dispatch and the handlers are
 * mutually recursive, as `dispatch` and the handlers are in the source;
 * each is proved to do what the transition table says.
 */
module Atoms {
  import opened Wrappers
  import opened Cells
  import opened Events
  import opened Collaborators
  import opened Transitions
  import Chains

  /**
   * Builds the file map from the filenames in list order, keeping the names
   * whose read succeeds (the map/filter/reduce of handleReadRepoFilesContent).
   */
  method ReadFiles(names: seq<string>, fs: map<string, FileContent>) returns (files: map<string, FileContent>)
    ensures forall f :: f in files <==> f in names && f in fs
    ensures forall f :: f in files ==> files[f] == fs[f]
    ensures files == ReadResults(names, fs)
  {
    files := map[];
    var i := 0;
    while i < |names|
      invariant 0 <= i <= |names|
      invariant forall f :: f in files <==> f in names[..i] && f in fs
      invariant forall f :: f in files ==> files[f] == fs[f]
    {
      var name := names[i];
      if name in fs {
        files := files[name := fs[name]];
      }
      assert names[..i + 1] == names[..i] + [name];
      i := i + 1;
    }
    assert names[..i] == names;
  }

  class Store {
    var appState: AppState
    var authState: AuthState
    var appView: AppView
    var error: Option<string>
    var authError: Option<string>
    var user: Option<User>
    var repos: seq<string>
    var selectedRepo: Option<RepoRef>
    var repoFilenames: seq<string>
    var files: map<string, FileContent>
    var repoReady: bool
    var currentPath: string
    /** Every dispatch and collaborator call made so far, in order. */
    ghost var trace: seq<Call>

    function Snapshot(): State
      reads this
    {
      State(appState, authState, appView, error, authError, user, repos, selectedRepo,
            repoFilenames, files, repoReady, currentPath)
    }

    /** A fresh store; the two persisted cells start from what storage holds. */
    constructor (persistedUser: Option<User>, persistedRepo: Option<RepoRef>)
      ensures appState == Initializing && authState == AuthState.Unauthenticated && appView == AppView.Front
      ensures error == None && authError == None
      ensures user == persistedUser && selectedRepo == persistedRepo
      ensures repos == [] && repoFilenames == [] && files == map[] && !repoReady
      ensures currentPath == "/"
      ensures Snapshot() == InitialState(persistedUser, persistedRepo) && trace == []
    {
      appState := Initializing;
      authState := AuthState.Unauthenticated;
      appView := AppView.Front;
      error := None;
      authError := None;
      user := persistedUser;
      repos := [];
      selectedRepo := persistedRepo;
      repoFilenames := [];
      files := map[];
      repoReady := false;
      currentPath := "/";
      trace := [];
    }

    /** Logs the event, then routes it to exactly one handler and awaits it. */
    method Dispatch(e: Event, env: Env)
      modifies this
      decreases Rank(e), 1
      ensures Snapshot() == Run(old(Snapshot()), e, env).state
      ensures trace == old(trace) + Run(old(Snapshot()), e, env).calls
    {
      ghost var before := Snapshot();
      RunLogsFirst(old(trace), before, e, env);
      trace := trace + [Received(e)];
      assert Snapshot() == before;
      match e
      case Authenticated(u) => HandleAuthenticated(u, env);
      case Logout => HandleLogout();
      case FetchAndSelectRepos => HandleFetchAndSelectRepos(env);
      case FetchRepoFiles => HandleFetchRepoFiles(env);
      case ReadRepoFilesContent => HandleReadRepoFilesContent(env);
      case Error(_, message) => HandleError(message);
      case ShowNote(path) => HandleShowNote(path);
      case ShowFront => HandleShowFront();
      case Unrecognised(_) => trace := trace + [Unimplemented(e)];
    }

    method HandleAuthenticated(payload: User, env: Env)
      modifies this
      decreases Rank(Event.Authenticated(payload)), 0
      ensures Snapshot() == Chain(old(Snapshot()), Event.Authenticated(payload), env).state
      ensures trace == old(trace) + Chain(old(Snapshot()), Event.Authenticated(payload), env).calls
      ensures user == Some(payload) && authState == AuthState.Authenticated
      ensures |trace| > |old(trace)| && trace[|old(trace)|] == Received(Event.FetchAndSelectRepos)
    {
      ghost var before := Snapshot();
      ChainFollows(old(trace), before, Event.Authenticated(payload), env);
      user := Some(payload);
      authState := AuthState.Authenticated;
      assert Snapshot() == Handle(before, Event.Authenticated(payload), env).state;
      Chains.RunKeepsSession(Snapshot(), Event.FetchAndSelectRepos, env);
      Dispatch(Event.FetchAndSelectRepos, env);
    }

    method HandleLogout()
      modifies this
      ensures user == None && authState == AuthState.Unauthenticated && selectedRepo == None
      ensures repos == [] && repoFilenames == [] && files == map[] && !repoReady
      ensures error == None && appView == AppView.Front
      ensures appState == old(appState) && authError == old(authError) && currentPath == old(currentPath)
      ensures Snapshot() == LoggedOut(old(Snapshot())) && trace == old(trace) + [WipeFs]
    {
      user := None;
      authState := AuthState.Unauthenticated;
      selectedRepo := None;
      repos := [];
      repoFilenames := [];
      files := map[];
      repoReady := false;
      error := None;
      appView := AppView.Front;
      trace := trace + [WipeFs];
    }

    method HandleFetchAndSelectRepos(env: Env)
      modifies this
      decreases Rank(Event.FetchAndSelectRepos), 0
      ensures Snapshot() == Chain(old(Snapshot()), Event.FetchAndSelectRepos, env).state
      ensures trace == old(trace) + Chain(old(Snapshot()), Event.FetchAndSelectRepos, env).calls
    {
      ghost var before := Snapshot();
      ghost var step := Handle(before, Event.FetchAndSelectRepos, env);
      match user
      case None =>
        ChainFollows(old(trace), before, Event.FetchAndSelectRepos, env);
        assert trace == old(trace) + step.calls;
        Dispatch(Event.Error(None, NoSessionMessage), env);
      case Some(u) =>
        var listed := env.listRepos(u.installationId, u.token);
        trace := trace + [FetchUserRepos(u.installationId, u.token)];
        match listed
        case None =>
          ChainFollows(old(trace), before, Event.FetchAndSelectRepos, env);
          Dispatch(Event.Error(None, FetchReposFailedMessage), env);
        case Some(names) =>
          if |names| == 0 {
            ChainFollows(old(trace), before, Event.FetchAndSelectRepos, env);
            Dispatch(Event.Error(None, NoReposMessage), env);
          } else {
            repos := names;
            var cached := selectedRepo;
            if cached.Some? && FullName(cached.value) in names {
              ChainFollows(old(trace), before, Event.FetchAndSelectRepos, env);
              assert Snapshot() == step.state;
              Dispatch(Event.FetchRepoFiles, env);
            } else {
              selectedRepo := None;
            }
          }
    }

    /**
     * Not reachable through Dispatch: the declared tags have no SelectRepo.
     * Ranked like FetchAndSelectRepos, since it too dispatches FetchRepoFiles.
     */
    method HandleSelectRepo(payload: RepoRef, env: Env)
      modifies this
      decreases Rank(Event.FetchAndSelectRepos), 0
      ensures Snapshot() == SelectRepoChain(old(Snapshot()), payload, env).state
      ensures trace == old(trace) + SelectRepoChain(old(Snapshot()), payload, env).calls
      ensures selectedRepo == Some(payload)
    {
      ghost var before := Snapshot();
      selectedRepo := Some(payload);
      repoFilenames := [];
      files := map[];
      repoReady := false;
      trace := trace + [WipeFs];
      assert Snapshot() == Reselected(before, payload);
      ghost var o := Run(Reselected(before, payload), Event.FetchRepoFiles, env);
      AppendAssoc(old(trace), [WipeFs], o.calls);
      Chains.RunKeepsSelection(Snapshot(), Event.FetchRepoFiles, env);
      Dispatch(Event.FetchRepoFiles, env);
    }

    method HandleFetchRepoFiles(env: Env)
      modifies this
      decreases Rank(Event.FetchRepoFiles), 0
      ensures Snapshot() == Chain(old(Snapshot()), Event.FetchRepoFiles, env).state
      ensures trace == old(trace) + Chain(old(Snapshot()), Event.FetchRepoFiles, env).calls
    {
      ghost var before := Snapshot();
      ghost var step := Handle(before, Event.FetchRepoFiles, env);
      ChainFollows(old(trace), before, Event.FetchRepoFiles, env);
      var selected := selectedRepo;
      var session := user;
      if selected.None? || session.None? {
        assert trace == old(trace) + step.calls;
        Dispatch(Event.Error(None, InvalidFetchStateMessage), env);
        return;
      }
      trace := trace + [IsInitialized];
      if env.mirrorInitialized {
        trace := trace + [Pull(session.value)];
      } else {
        trace := trace + [Clone(CloneUrl(selected.value), session.value)];
      }
      trace := trace + [ReadRepoFiles];
      repoFilenames := env.mirrorFiles;
      assert Snapshot() == step.state;
      assert trace == old(trace) + step.calls;
      Dispatch(Event.ReadRepoFilesContent, env);
    }

    method HandleReadRepoFilesContent(env: Env)
      modifies this
      decreases Rank(Event.ReadRepoFilesContent), 0
      ensures Snapshot() == Chain(old(Snapshot()), Event.ReadRepoFilesContent, env).state
      ensures trace == old(trace) + Chain(old(Snapshot()), Event.ReadRepoFilesContent, env).calls
      ensures files == ReadResults(old(repoFilenames), env.readFile) && repoReady
    {
      var names := repoFilenames;
      trace := trace + ReadCalls(names);
      var read := ReadFiles(names, env.readFile);
      files := read;
      repoReady := true;
    }

    method HandleError(message: string)
      modifies this
      ensures Snapshot() == old(Snapshot()).(error := Some(message)) && trace == old(trace)
    {
      error := Some(message);
    }

    method HandleShowNote(path: string)
      modifies this
      ensures Snapshot() == old(Snapshot()).(currentPath := path, appView := AppView.Note) && trace == old(trace)
    {
      currentPath := path;
      appView := AppView.Note;
    }

    method HandleShowFront()
      modifies this
      ensures Snapshot() == old(Snapshot()).(currentPath := "/", appView := AppView.Front) && trace == old(trace)
    {
      currentPath := "/";
      appView := AppView.Front;
    }
  }
}
