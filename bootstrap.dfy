/**
 * Start-up and navigation (src/atoms/init.ts): the OAuth redirect is taken
 * as a new session, otherwise a cached session is checked against the
 * current user, the app is marked initialised, and a fragment present at
 * start-up, like every later fragment change, is routed to a view.
 */
module Bootstrap {
  import opened Wrappers
  import opened Cells
  import opened Events
  import opened Collaborators
  import opened Transitions
  import opened Fragment
  import opened Chains
  import HandlerFacts
  import Atoms

  /** What init decides about a cached session: the calls it makes and the event it dispatches. */
  datatype SessionCheck = SessionCheck(calls: seq<Call>, event: Event)

  /**
   * The cached session is kept only if it has a token and the current-user
   * lookup for that token answers with a login; the lookup is made exactly
   * when there is a token.
   */
  function Revalidate(cached: Option<User>, env: Env): (c: SessionCheck)
    ensures c.event.Authenticated? || c.event == Event.Logout
    ensures c.event.Authenticated? <==>
      cached.Some? && cached.value.token != "" && Truthy(env.currentLogin(cached.value.token))
    ensures c.event.Authenticated? ==> c.event.user == cached.value
    ensures cached.Some? && cached.value.token != "" ==> c.calls == [FetchCurrentUser(cached.value.token)]
    ensures cached.None? || cached.value.token == "" ==> c.calls == []
  {
    if cached.Some? && cached.value.token != "" then
      var token := cached.value.token;
      if Truthy(env.currentLogin(token)) then SessionCheck([FetchCurrentUser(token)], Event.Authenticated(cached.value))
      else SessionCheck([FetchCurrentUser(token)], Event.Logout)
    else SessionCheck([], Event.Logout)
  }

  /** The cells, the calls made and the fragment left behind when init has finished. */
  datatype BootResult = BootResult(state: State, calls: seq<Call>, hash: string)

  /** The specification of init on the store's cells `s` and the start-up fragment `hash`. */
  function Boot(s: State, hash: string, env: Env): BootResult {
    match ParseOAuthHash(hash)
    case Some(u) => RedirectBoot(s, u, env)
    case None => CachedBoot(s, hash, env)
  }

  /** init after an OAuth redirect: the new session, the fragment cleared, no routing. */
  function RedirectBoot(s: State, u: User, env: Env): BootResult {
    var o := Run(s, Event.Authenticated(u), env);
    BootResult(o.state.(appState := Initialized), o.calls + [ClearFragment], "")
  }

  /** init without a redirect: the cached session checked, then the fragment routed if there is one. */
  function CachedBoot(s: State, hash: string, env: Env): BootResult {
    var check := Revalidate(s.user, env);
    var o := Run(s, check.event, env);
    var ready := o.state.(appState := Initialized);
    if hash == "" then BootResult(ready, check.calls + o.calls, hash)
    else
      var r := Run(ready, RouteEvent(hash), env);
      BootResult(r.state, check.calls + o.calls + r.calls, hash)
  }

  /** The router, also the handler of every fragment change: it dispatches the view the fragment names. */
  method Router(store: Atoms.Store, hash: string, env: Env)
    modifies store
    ensures store.Snapshot() == Run(old(store.Snapshot()), RouteEvent(hash), env).state
    ensures store.trace == old(store.trace) + Run(old(store.Snapshot()), RouteEvent(hash), env).calls
  {
    var path := DropFirst(hash);
    if path == "/" {
      store.Dispatch(Event.ShowFront, env);
    } else {
      store.Dispatch(Event.ShowNote(path), env);
    }
  }

  /** init: returns the fragment the address bar holds afterwards. */
  method Init(store: Atoms.Store, hash: string, env: Env) returns (hashAfter: string)
    modifies store
    ensures store.Snapshot() == Boot(old(store.Snapshot()), hash, env).state
    ensures store.trace == old(store.trace) + Boot(old(store.Snapshot()), hash, env).calls
    ensures hashAfter == Boot(old(store.Snapshot()), hash, env).hash
  {
    var oauth := ParseOAuthHash(hash);
    if oauth.Some? {
      hashAfter := InitFromRedirect(store, oauth.value, env);
    } else {
      hashAfter := InitFromCache(store, hash, env);
    }
  }

  /** init's redirect branch: dispatch the new session, clear the fragment, mark the app initialised. */
  method InitFromRedirect(store: Atoms.Store, u: User, env: Env) returns (hashAfter: string)
    modifies store
    ensures store.Snapshot() == RedirectBoot(old(store.Snapshot()), u, env).state
    ensures store.trace == old(store.trace) + RedirectBoot(old(store.Snapshot()), u, env).calls
    ensures hashAfter == ""
  {
    ghost var s := store.Snapshot();
    ghost var t := store.trace;
    ghost var o := Run(s, Event.Authenticated(u), env);
    store.Dispatch(Event.Authenticated(u), env);
    AppendAssoc(t, o.calls, [ClearFragment]);
    store.trace := store.trace + [ClearFragment];
    store.appState := Initialized;
    assert store.Snapshot() == o.state.(appState := Initialized);
    hashAfter := "";
  }

  /** init's other branch: check the cached session, mark the app initialised, route a present fragment. */
  method InitFromCache(store: Atoms.Store, hash: string, env: Env) returns (hashAfter: string)
    modifies store
    ensures store.Snapshot() == CachedBoot(old(store.Snapshot()), hash, env).state
    ensures store.trace == old(store.trace) + CachedBoot(old(store.Snapshot()), hash, env).calls
    ensures hashAfter == hash
  {
    ghost var s := store.Snapshot();
    ghost var t := store.trace;
    ghost var check := Revalidate(s.user, env);
    ghost var o := Run(s, check.event, env);
    CheckSession(store, env);
    store.appState := Initialized;
    hashAfter := hash;
    ghost var ready := o.state.(appState := Initialized);
    assert store.Snapshot() == ready;
    if hash != "" {
      Router(store, hash, env);
      AppendAssoc(t, check.calls + o.calls, Run(ready, RouteEvent(hash), env).calls);
    }
  }

  /** The part of init that checks a cached session and dispatches Authenticated or Logout. */
  method CheckSession(store: Atoms.Store, env: Env)
    modifies store
    ensures var check := Revalidate(old(store.Snapshot()).user, env);
      var o := Run(old(store.Snapshot()), check.event, env);
      && store.Snapshot() == o.state
      && store.trace == old(store.trace) + (check.calls + o.calls)
  {
    ghost var s := store.Snapshot();
    ghost var t := store.trace;
    ghost var check := Revalidate(s.user, env);
    var user := store.user;
    var token := if user.Some? then user.value.token else "";
    if token != "" {
      store.trace := store.trace + [FetchCurrentUser(token)];
      var login := env.currentLogin(token);
      if Truthy(login) {
        store.Dispatch(Event.Authenticated(user.value), env);
      } else {
        store.Dispatch(Event.Logout, env);
      }
    } else {
      store.Dispatch(Event.Logout, env);
    }
    AppendAssoc(t, check.calls, Run(s, check.event, env).calls);
  }

  /** A fragment change only navigates: it sets the path and the view and dispatches nothing further. */
  lemma RouteOnlyNavigates(s: State, hash: string, env: Env)
    ensures var r := Run(s, RouteEvent(hash), env);
      && r.state == s.(currentPath := DropFirst(hash),
                       appView := if DropFirst(hash) == "/" then AppView.Front else AppView.Note)
      && r.calls == [Received(RouteEvent(hash))]
  {
  }

  /** However init goes, the app ends initialised with the status matching the session. */
  lemma BootInitializes(s: State, hash: string, env: Env)
    ensures Boot(s, hash, env).state.appState == Initialized
    ensures AuthConsistent(Boot(s, hash, env).state)
  {
    match ParseOAuthHash(hash)
    case Some(u) =>
      assert Boot(s, hash, env) == RedirectBoot(s, u, env);
      SessionEventsEstablishAuthConsistent(s, Event.Authenticated(u), env);
    case None =>
      var check := Revalidate(s.user, env);
      SessionEventsEstablishAuthConsistent(s, check.event, env);
      if hash != "" {
        var ready := Run(s, check.event, env).state.(appState := Initialized);
        RunKeepsBootCells(ready, RouteEvent(hash), env);
        RunPreservesAuthConsistent(ready, RouteEvent(hash), env);
      }
  }

  /**
   * After an OAuth redirect the redirect's session is signed in, the
   * fragment is cleared without being routed, and the Authenticated
   * dispatch comes first.
   */
  lemma RedirectBootOutcome(s: State, hash: string, u: User, env: Env)
    requires ParseOAuthHash(hash) == Some(u)
    ensures var b := Boot(s, hash, env);
      && b.hash == ""
      && b.state.user == Some(u) && b.state.authState == AuthState.Authenticated
      && b.state.currentPath == s.currentPath && b.state.appView == s.appView
      && |b.calls| >= 1 && b.calls[|b.calls| - 1] == ClearFragment
      && |Dispatched(b.calls)| >= 1 && Dispatched(b.calls)[0] == Event.Authenticated(u)
      && forall i :: 0 <= i < |Dispatched(b.calls)| ==>
           !Dispatched(b.calls)[i].ShowNote? && !Dispatched(b.calls)[i].ShowFront?
  {
    var o := Run(s, Event.Authenticated(u), env);
    assert Boot(s, hash, env) == RedirectBoot(s, u, env);
    HandlerFacts.AuthenticatedOutcome(s, u, env);
    RunKeepsView(s, Event.Authenticated(u), env);
    RunShape(s, Event.Authenticated(u), env);
    DispatchedAppend(o.calls, [ClearFragment]);
    RedirectNeverRoutes(s, u, env);
  }

  /** The redirect branch dispatches no navigation event. */
  lemma RedirectNeverRoutes(s: State, u: User, env: Env)
    ensures var es := Dispatched(RedirectBoot(s, u, env).calls);
      forall i :: 0 <= i < |es| ==> !es[i].ShowNote? && !es[i].ShowFront?
  {
    var o := Run(s, Event.Authenticated(u), env);
    RunShape(s, Event.Authenticated(u), env);
    FollowOnsAreInternal(s, Event.Authenticated(u), env);
    DispatchedAppend(o.calls, [ClearFragment]);
    var es := Dispatched(o.calls);
    forall i | 0 <= i < |es| ensures !es[i].ShowNote? && !es[i].ShowFront? {
    }
  }

  /** Without a redirect, the session survives init exactly when the cached one is confirmed. */
  lemma CachedBootSession(s: State, hash: string, env: Env)
    requires ParseOAuthHash(hash).None?
    ensures var b := Boot(s, hash, env);
      var confirmed := Revalidate(s.user, env).event.Authenticated?;
      && b.hash == hash
      && b.state.user == (if confirmed then s.user else None)
      && b.state.authState == (if confirmed then AuthState.Authenticated else AuthState.Unauthenticated)
      && |Dispatched(b.calls)| >= 1 && Dispatched(b.calls)[0] == Revalidate(s.user, env).event
  {
    var check := Revalidate(s.user, env);
    var o := Run(s, check.event, env);
    var ready := o.state.(appState := Initialized);
    assert Boot(s, hash, env) == CachedBoot(s, hash, env);
    if check.event.Authenticated? {
      HandlerFacts.AuthenticatedOutcome(s, check.event.user, env);
    } else {
      HandlerFacts.LogoutOutcome(s, env);
    }
    RunShape(s, check.event, env);
    DispatchedNone(check.calls);
    DispatchedAppend(check.calls, o.calls);
    if hash != "" {
      var r := Run(ready, RouteEvent(hash), env);
      RunKeepsSession(ready, RouteEvent(hash), env);
      DispatchedAppend(check.calls + o.calls, r.calls);
    }
  }

  /**
   * Without a redirect, a fragment present at start-up is routed after the
   * session is settled; an empty one leaves the path alone.
   */
  lemma CachedBootRoutes(s: State, hash: string, env: Env)
    requires ParseOAuthHash(hash).None?
    ensures var b := Boot(s, hash, env);
      && (hash != "" ==> b.state.currentPath == DropFirst(hash)
                         && b.state.appView == (if DropFirst(hash) == "/" then AppView.Front else AppView.Note)
                         && |b.calls| >= 1 && b.calls[|b.calls| - 1] == Received(RouteEvent(hash)))
      && (hash == "" ==> b.state.currentPath == s.currentPath)
      && (hash == "" ==> b.calls == Revalidate(s.user, env).calls + Run(s, Revalidate(s.user, env).event, env).calls)
      && (hash == "" ==> forall i :: 0 <= i < |Dispatched(b.calls)| ==>
                           !Dispatched(b.calls)[i].ShowNote? && !Dispatched(b.calls)[i].ShowFront?)
  {
    var check := Revalidate(s.user, env);
    var o := Run(s, check.event, env);
    var ready := o.state.(appState := Initialized);
    assert Boot(s, hash, env) == CachedBoot(s, hash, env);
    RunKeepsView(s, check.event, env);
    if hash != "" {
      RouteOnlyNavigates(ready, hash, env);
    } else {
      SessionRunNeverRoutes(s, check.event, env);
      DispatchedNone(check.calls);
      DispatchedAppend(check.calls, o.calls);
    }
  }

  /** Running a session event dispatches no navigation event. */
  lemma SessionRunNeverRoutes(s: State, e: Event, env: Env)
    requires e.Authenticated? || e == Event.Logout
    ensures var es := Dispatched(Run(s, e, env).calls);
      forall i :: 0 <= i < |es| ==> !es[i].ShowNote? && !es[i].ShowFront?
  {
    RunShape(s, e, env);
    FollowOnsAreInternal(s, e, env);
  }

  /** A dispatch log that opens with a session event and holds no other. */
  predicate SessionOnce(es: seq<Event>) {
    && |es| >= 1 && (es[0].Authenticated? || es[0] == Event.Logout)
    && forall i :: 1 <= i < |es| ==> !es[i].Authenticated? && !es[i].Logout?
  }

  lemma SessionOnceExtended(es: seq<Event>, more: seq<Event>)
    requires SessionOnce(es)
    requires forall i :: 0 <= i < |more| ==> !more[i].Authenticated? && !more[i].Logout?
    ensures SessionOnce(es + more)
  {
    var all := es + more;
    forall i | 1 <= i < |all| ensures !all[i].Authenticated? && !all[i].Logout? {
      if i >= |es| {
        assert all[i] == more[i - |es|];
      }
    }
  }

  lemma RunSessionOnce(s: State, e: Event, env: Env)
    requires e.Authenticated? || e == Event.Logout
    ensures SessionOnce(Dispatched(Run(s, e, env).calls))
  {
    RunShape(s, e, env);
    FollowOnsAreInternal(s, e, env);
  }

  /** init dispatches exactly one session event, Authenticated or Logout, and dispatches it first. */
  lemma BootSessionOnce(s: State, hash: string, env: Env)
    ensures SessionOnce(Dispatched(Boot(s, hash, env).calls))
  {
    match ParseOAuthHash(hash)
    case Some(u) =>
      assert Boot(s, hash, env) == RedirectBoot(s, u, env);
      RedirectSessionOnce(s, u, env);
    case None =>
      assert Boot(s, hash, env) == CachedBoot(s, hash, env);
      CachedSessionOnce(s, hash, env);
  }

  lemma RedirectSessionOnce(s: State, u: User, env: Env)
    ensures SessionOnce(Dispatched(RedirectBoot(s, u, env).calls))
  {
    var o := Run(s, Event.Authenticated(u), env);
    RunSessionOnce(s, Event.Authenticated(u), env);
    DispatchedAppend(o.calls, [ClearFragment]);
    assert Dispatched(o.calls) + Dispatched([ClearFragment]) == Dispatched(o.calls);
  }

  lemma CachedSessionOnce(s: State, hash: string, env: Env)
    ensures SessionOnce(Dispatched(CachedBoot(s, hash, env).calls))
  {
    var check := Revalidate(s.user, env);
    var o := Run(s, check.event, env);
    var ready := o.state.(appState := Initialized);
    RunSessionOnce(s, check.event, env);
    DispatchedNone(check.calls);
    DispatchedAppend(check.calls, o.calls);
    assert Dispatched(check.calls + o.calls) == Dispatched(o.calls);
    if hash != "" {
      var r := Run(ready, RouteEvent(hash), env);
      TerminalDispatchNothing(ready, RouteEvent(hash), env);
      DispatchedAppend(check.calls + o.calls, r.calls);
      SessionOnceExtended(Dispatched(o.calls), [RouteEvent(hash)]);
    }
  }
}
