/**
 * Properties of running an event to completion: the shape of the causal
 * chain it starts, the cells it can never touch, and the consistency
 * conditions between cells that every run preserves.
 */
module Chains {
  import opened Wrappers
  import opened Cells
  import opened Events
  import opened Collaborators
  import opened Transitions

  /** Each dispatched event may follow its predecessor. */
  predicate CausalPath(es: seq<Event>) {
    forall i :: 0 <= i < |es| - 1 ==> MayFollow(es[i], es[i + 1])
  }

  /**
   * Running `e` dispatches `e` first, then only events that may follow their
   * predecessor, and at most Rank(e) of them.
   */
  lemma {:induction false} RunShape(s: State, e: Event, env: Env)
    ensures var es := Dispatched(Run(s, e, env).calls);
      |es| >= 1 && es[0] == e && CausalPath(es) && |es| <= Rank(e) + 1
    decreases Rank(e)
  {
    var st := Handle(s, e, env);
    DispatchedNone(st.calls);
    match st.next
    case None =>
      DispatchedAppend([Received(e)], st.calls);
    case Some(n) =>
      var o := Run(st.state, n, env);
      RunShape(st.state, n, env);
      DispatchedAppend(st.calls, o.calls);
      DispatchedAppend([Received(e)], st.calls + o.calls);
  }

  /** No causal chain is longer than Authenticated, FetchAndSelectRepos, FetchRepoFiles, ReadRepoFilesContent. */
  lemma ChainDepth(s: State, e: Event, env: Env)
    ensures 1 <= |Dispatched(Run(s, e, env).calls)| <= 4
  {
    RunShape(s, e, env);
  }

  /** Logout, ReadRepoFilesContent, Error, ShowNote, ShowFront and an unrecognised tag dispatch nothing further. */
  lemma TerminalDispatchNothing(s: State, e: Event, env: Env)
    requires e.Logout? || e.ReadRepoFilesContent? || e.Error? || e.ShowNote? || e.ShowFront? || e.Unrecognised?
    ensures Dispatched(Run(s, e, env).calls) == [e]
  {
    RunShape(s, e, env);
  }

  /** No event ever changes appState or authError: only the bootstrap writes appState. */
  lemma {:induction false} RunKeepsBootCells(s: State, e: Event, env: Env)
    ensures Run(s, e, env).state.appState == s.appState
    ensures Run(s, e, env).state.authError == s.authError
    decreases Rank(e)
  {
    var st := Handle(s, e, env);
    if st.next.Some? {
      RunKeepsBootCells(st.state, st.next.value, env);
    }
  }

  /** Only Authenticated and Logout change the session cells. */
  lemma {:induction false} RunKeepsSession(s: State, e: Event, env: Env)
    requires !e.Authenticated? && !e.Logout?
    ensures Run(s, e, env).state.user == s.user
    ensures Run(s, e, env).state.authState == s.authState
    decreases Rank(e)
  {
    var st := Handle(s, e, env);
    if st.next.Some? {
      RunKeepsSession(st.state, st.next.value, env);
    }
  }

  /** The chain below FetchAndSelectRepos never changes the repository list or the selection. */
  lemma {:induction false} RunKeepsSelection(s: State, e: Event, env: Env)
    requires Rank(e) <= 1 && !e.Logout?
    ensures Run(s, e, env).state.repos == s.repos
    ensures Run(s, e, env).state.selectedRepo == s.selectedRepo
    decreases Rank(e)
  {
    var st := Handle(s, e, env);
    if st.next.Some? {
      RunKeepsSelection(st.state, st.next.value, env);
    }
  }

  /** Only ShowNote and ShowFront move currentPath; only they and Logout change the view. */
  lemma {:induction false} RunKeepsView(s: State, e: Event, env: Env)
    requires !e.ShowNote? && !e.ShowFront?
    ensures Run(s, e, env).state.currentPath == s.currentPath
    ensures !e.Logout? ==> Run(s, e, env).state.appView == s.appView
    decreases Rank(e)
  {
    var st := Handle(s, e, env);
    if st.next.Some? {
      RunKeepsView(st.state, st.next.value, env);
    }
  }

  /** The authentication status says Authenticated exactly when a session is present. */
  predicate AuthConsistent(s: State) {
    s.authState == AuthState.Authenticated <==> s.user.Some?
  }

  /** The file map holds only names from the current filename list. */
  predicate FilesWithinNames(s: State) {
    forall f :: f in s.files ==> f in s.repoFilenames
  }

  /** The ready flag is set only when the file map is the read of the current filename list. */
  predicate ReadyMeansLoaded(s: State, env: Env) {
    s.repoReady ==> s.files == ReadResults(s.repoFilenames, env.readFile)
  }

  /** A selected repository is one of the listed repositories. */
  predicate SelectedInRepos(s: State) {
    s.selectedRepo.Some? ==> FullName(s.selectedRepo.value) in s.repos
  }

  lemma {:induction false} RunPreservesAuthConsistent(s: State, e: Event, env: Env)
    requires AuthConsistent(s)
    ensures AuthConsistent(Run(s, e, env).state)
    decreases Rank(e)
  {
    var st := Handle(s, e, env);
    if st.next.Some? {
      RunPreservesAuthConsistent(st.state, st.next.value, env);
    }
  }

  /** Authenticated and Logout establish the session invariant from any state. */
  lemma SessionEventsEstablishAuthConsistent(s: State, e: Event, env: Env)
    requires e.Authenticated? || e.Logout?
    ensures AuthConsistent(Run(s, e, env).state)
  {
    var st := Handle(s, e, env);
    assert AuthConsistent(st.state);
    if st.next.Some? {
      RunPreservesAuthConsistent(st.state, st.next.value, env);
    }
  }

  lemma {:induction false} RunPreservesFilesWithinNames(s: State, e: Event, env: Env)
    requires FilesWithinNames(s)
    ensures FilesWithinNames(Run(s, e, env).state)
    decreases Rank(e)
  {
    var st := Handle(s, e, env);
    if e.FetchRepoFiles? && st.next == Some(Event.ReadRepoFilesContent) {
      // the filename list is replaced here, and the file map with it by the follow-on read
      assert Run(s, e, env).state == Run(st.state, Event.ReadRepoFilesContent, env).state;
    } else if st.next.Some? {
      assert FilesWithinNames(st.state);
      RunPreservesFilesWithinNames(st.state, st.next.value, env);
    }
  }

  lemma {:induction false} RunPreservesReadyMeansLoaded(s: State, e: Event, env: Env)
    requires ReadyMeansLoaded(s, env)
    ensures ReadyMeansLoaded(Run(s, e, env).state, env)
    decreases Rank(e)
  {
    var st := Handle(s, e, env);
    if e.FetchRepoFiles? && st.next == Some(Event.ReadRepoFilesContent) {
      assert Run(s, e, env).state == Run(st.state, Event.ReadRepoFilesContent, env).state;
    } else if st.next.Some? {
      assert ReadyMeansLoaded(st.state, env);
      RunPreservesReadyMeansLoaded(st.state, st.next.value, env);
    }
  }

  lemma {:induction false} RunPreservesSelectedInRepos(s: State, e: Event, env: Env)
    requires SelectedInRepos(s)
    ensures SelectedInRepos(Run(s, e, env).state)
    decreases Rank(e)
  {
    var st := Handle(s, e, env);
    if st.next.Some? {
      assert SelectedInRepos(st.state);
      RunPreservesSelectedInRepos(st.state, st.next.value, env);
    }
  }

  /**
   * Only the first event of a run can open or close a session or navigate:
   * no handler dispatches Authenticated, Logout, ShowNote or ShowFront.
   */
  lemma FollowOnsAreInternal(s: State, e: Event, env: Env)
    ensures var es := Dispatched(Run(s, e, env).calls);
      forall i :: 1 <= i < |es| ==> !es[i].Authenticated? && !es[i].Logout? && !es[i].ShowNote? && !es[i].ShowFront?
  {
    RunShape(s, e, env);
    var es := Dispatched(Run(s, e, env).calls);
    forall i | 1 <= i < |es| ensures !es[i].Authenticated? && !es[i].Logout? && !es[i].ShowNote? && !es[i].ShowFront? {
      assert MayFollow(es[i - 1], es[i]);
    }
  }

  /**
   * A fresh store holds no files and is not ready, so the file invariants
   * hold from the start; the session cells agree only when no session was
   * persisted, since authState always starts Unauthenticated.
   */
  lemma InitialCells(persistedUser: Option<User>, persistedRepo: Option<RepoRef>, env: Env)
    ensures FilesWithinNames(InitialState(persistedUser, persistedRepo))
    ensures ReadyMeansLoaded(InitialState(persistedUser, persistedRepo), env)
    ensures AuthConsistent(InitialState(persistedUser, persistedRepo)) <==> persistedUser.None?
    ensures SelectedInRepos(InitialState(persistedUser, persistedRepo)) <==> persistedRepo.None?
  {
  }
}
