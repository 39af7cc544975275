/**
 * What each handler of src/atoms/handlers.ts leaves in the store and which
 * collaborators and follow-on events it calls, when invoked directly (as
 * src/atoms/handlers.test.ts does), including the awaited chain it starts.
 */
module HandlerFacts {
  import opened Wrappers
  import opened Cells
  import opened Events
  import opened Collaborators
  import opened Transitions
  import opened Chains

  /** handleAuthenticated stores the session, marks it authenticated, then dispatches FetchAndSelectRepos. */
  lemma AuthenticatedOutcome(s: State, u: User, env: Env)
    ensures var o := Chain(s, Event.Authenticated(u), env);
      && o.state.user == Some(u)
      && o.state.authState == AuthState.Authenticated
      && |o.calls| >= 1 && o.calls[0] == Received(Event.FetchAndSelectRepos)
  {
    RunKeepsSession(s.(user := Some(u), authState := AuthState.Authenticated), Event.FetchAndSelectRepos, env);
  }

  /** handleLogout resets the session and repository cells from any prior state and wipes the mirror once. */
  lemma LogoutOutcome(s: State, env: Env)
    ensures var o := Chain(s, Event.Logout, env);
      && o.calls == [WipeFs]
      && o.state.user == None && o.state.authState == AuthState.Unauthenticated
      && o.state.selectedRepo == None && o.state.repos == [] && o.state.repoFilenames == []
      && o.state.files == map[] && !o.state.repoReady && o.state.error == None
      && o.state.appView == AppView.Front
      && o.state.currentPath == s.currentPath && o.state.authError == s.authError
      && o.state.appState == s.appState
  {
  }

  /** Logging out twice leaves the same store as logging out once. */
  lemma LogoutIdempotent(s: State, env: Env)
    ensures var once := Run(s, Event.Logout, env).state;
      Run(once, Event.Logout, env).state == once
  {
  }

  /** After Logout the store depends only on the three cells Logout does not write. */
  lemma LogoutForgetsPriorState(s1: State, s2: State, env: Env)
    requires s1.appState == s2.appState && s1.authError == s2.authError && s1.currentPath == s2.currentPath
    ensures Run(s1, Event.Logout, env).state == Run(s2, Event.Logout, env).state
  {
  }

  /**
   * handleFetchAndSelectRepos: each failure reports its message and leaves
   * the repository cells alone; without a session the listing is never
   * requested. On a non-empty listing the list is stored and a cached
   * selection that is listed is kept and synchronised, any other cleared.
   */
  lemma FetchAndSelectOutcome(s: State, env: Env)
    ensures var o := Chain(s, Event.FetchAndSelectRepos, env);
      && (s.user.None? ==>
            o.state == s.(error := Some(NoSessionMessage))
            && o.calls == [Received(Event.Error(None, NoSessionMessage))])
      && (s.user.Some? && env.listRepos(s.user.value.installationId, s.user.value.token).None? ==>
            o.state == s.(error := Some(FetchReposFailedMessage))
            && o.calls == [FetchUserRepos(s.user.value.installationId, s.user.value.token),
                           Received(Event.Error(None, FetchReposFailedMessage))])
      && (s.user.Some? && env.listRepos(s.user.value.installationId, s.user.value.token) == Some([]) ==>
            o.state == s.(error := Some(NoReposMessage))
            && o.calls == [FetchUserRepos(s.user.value.installationId, s.user.value.token),
                           Received(Event.Error(None, NoReposMessage))])
  {
  }

  lemma FetchAndSelectListed(s: State, u: User, names: seq<string>, env: Env)
    requires s.user == Some(u) && env.listRepos(u.installationId, u.token) == Some(names) && |names| > 0
    ensures var o := Chain(s, Event.FetchAndSelectRepos, env);
      && o.state.repos == names
      && SelectedInRepos(o.state)
      && o.calls[0] == FetchUserRepos(u.installationId, u.token)
      && (if s.selectedRepo.Some? && FullName(s.selectedRepo.value) in names then
            o.state.selectedRepo == s.selectedRepo && |o.calls| >= 2 && o.calls[1] == Received(Event.FetchRepoFiles)
          else
            o.state == s.(repos := names, selectedRepo := None) && o.calls == [FetchUserRepos(u.installationId, u.token)])
  {
    if s.selectedRepo.Some? && FullName(s.selectedRepo.value) in names {
      RunKeepsSelection(s.(repos := names), Event.FetchRepoFiles, env);
    }
  }

  /**
   * handleSelectRepo stores the selection, clears the per-repository cells,
   * wipes the mirror and then dispatches FetchRepoFiles; no file from the
   * previous repository survives.
   */
  lemma SelectRepoOutcome(s: State, r: RepoRef, env: Env)
    ensures var o := SelectRepoChain(s, r, env);
      && o.state.selectedRepo == Some(r)
      && |o.calls| >= 2 && o.calls[..2] == [WipeFs, Received(Event.FetchRepoFiles)]
      && FilesWithinNames(o.state)
      && (s.user.None? ==>
            o.state == Reselected(s, r).(error := Some(InvalidFetchStateMessage)))
  {
    RunKeepsSelection(Reselected(s, r), Event.FetchRepoFiles, env);
    RunPreservesFilesWithinNames(Reselected(s, r), Event.FetchRepoFiles, env);
  }

  /**
   * handleFetchRepoFiles: with no selection or no session it reports the
   * invalid state and synchronises nothing; otherwise it asks whether the
   * mirror exists, calls exactly one of pull and clone, enumerates the
   * mirror into the filename list, and dispatches ReadRepoFilesContent.
   */
  lemma FetchRepoFilesOutcome(s: State, env: Env)
    ensures var o := Chain(s, Event.FetchRepoFiles, env);
      if s.selectedRepo.None? || s.user.None? then
        && o.state == s.(error := Some(InvalidFetchStateMessage))
        && o.calls == [Received(Event.Error(None, InvalidFetchStateMessage))]
      else
        var sync := if env.mirrorInitialized then Pull(s.user.value)
                    else Clone(CloneUrl(s.selectedRepo.value), s.user.value);
        && o.calls == [IsInitialized, sync, ReadRepoFiles, Received(Event.ReadRepoFilesContent)] + ReadCalls(env.mirrorFiles)
        && o.state == s.(repoFilenames := env.mirrorFiles,
                         files := ReadResults(env.mirrorFiles, env.readFile),
                         repoReady := true)
  {
  }

  /**
   * handleReadRepoFilesContent: the file map's keys are exactly the listed
   * names whose read succeeds, each with what was read; ready is set even
   * for an empty list; every name is read once, in list order.
   */
  lemma ReadContentOutcome(s: State, env: Env)
    ensures var o := Chain(s, Event.ReadRepoFilesContent, env);
      && (forall f :: f in o.state.files <==> f in s.repoFilenames && f in env.readFile)
      && (forall f :: f in o.state.files ==> o.state.files[f] == env.readFile[f])
      && o.state.repoReady
      && o.state == s.(files := o.state.files, repoReady := true)
      && o.calls == ReadCalls(s.repoFilenames)
  {
  }

  /** handleError stores only the message; the optional originating tag is ignored. */
  lemma ErrorOriginIgnored(s: State, o1: Option<Tag>, o2: Option<Tag>, m: string, env: Env)
    ensures Chain(s, Event.Error(o1, m), env) == Chain(s, Event.Error(o2, m), env)
    ensures Chain(s, Event.Error(o1, m), env).state == s.(error := Some(m))
  {
  }

  /** handleShowNote and handleShowFront move to the note or the front page. */
  lemma NavigationOutcome(s: State, p: string, env: Env)
    ensures Chain(s, Event.ShowNote(p), env).state == s.(currentPath := p, appView := AppView.Note)
    ensures Chain(s, Event.ShowFront, env).state == s.(currentPath := "/", appView := AppView.Front)
  {
  }

  /** The default branch of the dispatcher: a warning, no change, no further dispatch. */
  lemma UnrecognisedIsIgnored(s: State, name: string, env: Env)
    ensures Run(s, Event.Unrecognised(name), env).state == s
    ensures Run(s, Event.Unrecognised(name), env).calls
         == [Received(Event.Unrecognised(name)), Unimplemented(Event.Unrecognised(name))]
  {
  }
}
