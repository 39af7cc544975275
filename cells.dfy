/**
 * The value types of the state store (src/atoms/store.ts) and a snapshot of
 * all its cells, used to specify the handlers.
 */
module Cells {
  import opened Wrappers

  datatype AppState = Initializing | Initialized

  datatype AuthState = Unauthenticated | Authenticated

  datatype AppView = Front | Note

  /** A file read from the local mirror: text content, or an image blob. */
  datatype FileContent = Text(text: string) | Image(bytes: seq<bv8>)

  /** The session: who is signed in, with which token and app installation. */
  datatype User = User(username: string, token: string, installationId: string, email: string)

  /** A repository selection, `{ owner, repo }`. */
  datatype RepoRef = RepoRef(owner: string, repo: string)

  /** The value of every atom of the store at one moment. */
  datatype State = State(
    appState: AppState,
    authState: AuthState,
    appView: AppView,
    error: Option<string>,
    authError: Option<string>,
    user: Option<User>,
    repos: seq<string>,
    selectedRepo: Option<RepoRef>,
    repoFilenames: seq<string>,
    files: map<string, FileContent>,
    repoReady: bool,
    currentPath: string)

  /**
   * The store as it is created. `user` and `selectedRepo` are persisted cells
   * read from storage on creation; both are `None` when never written.
   */
  function InitialState(persistedUser: Option<User>, persistedRepo: Option<RepoRef>): State {
    State(Initializing, Unauthenticated, Front, None, None, persistedUser, [], persistedRepo, [], map[], false, "/")
  }

  /** The `"owner/repo"` form in which the repository list names a repository. */
  function FullName(r: RepoRef): string {
    r.owner + "/" + r.repo
  }

  /** The remote that a first synchronisation clones. */
  function CloneUrl(r: RepoRef): string {
    "https://github.com/" + r.owner + "/" + r.repo + ".git"
  }
}
