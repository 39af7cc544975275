/**
 * The event taxonomy of the dispatcher (src/atoms/events.ts): the declared
 * tags, one variant per tag with exactly the payload that tag carries, and
 * the causal order in which handlers dispatch follow-on events.
 */
module Events {
  import opened Wrappers
  import opened Cells

  /** The eight declared tags, as carried by the optional `event` field of an Error payload. */
  datatype Tag =
    | Authenticated
    | Logout
    | FetchAndSelectRepos
    | FetchRepoFiles
    | ReadRepoFilesContent
    | Error
    | ShowNote
    | ShowFront

  /**
   * A dispatched event. Only Authenticated, Error and ShowNote carry a payload.
   * `Unrecognised` is a tag value outside the enum reaching the switch at run
   * time, such as the `Event.SelectRepo` lookup of the repository selector,
   * which evaluates to `undefined` because the enum has no such member.
   */
  datatype Event =
    | Authenticated(user: User)
    | Logout
    | FetchAndSelectRepos
    | FetchRepoFiles
    | ReadRepoFilesContent
    | Error(origin: Option<Tag>, message: string)
    | ShowNote(path: string)
    | ShowFront
    | Unrecognised(name: string)

  const NoSessionMessage := "Invalid installationId or token"
  const FetchReposFailedMessage := "Failed to fetch repos"
  const NoReposMessage := "No repos found"
  const InvalidFetchStateMessage := "Invalid state when fetching files"

  /**
   * The follow-on events a handler may dispatch: Authenticated leads to
   * FetchAndSelectRepos, that to FetchRepoFiles or one of its three errors,
   * FetchRepoFiles to ReadRepoFilesContent or its error; every other event
   * dispatches nothing.
   */
  predicate MayFollow(cause: Event, next: Event) {
    match cause
    case Authenticated(_) => next == Event.FetchAndSelectRepos
    case FetchAndSelectRepos =>
      || next == Event.FetchRepoFiles
      || next == Event.Error(None, NoSessionMessage)
      || next == Event.Error(None, FetchReposFailedMessage)
      || next == Event.Error(None, NoReposMessage)
    case FetchRepoFiles =>
      || next == Event.ReadRepoFilesContent
      || next == Event.Error(None, InvalidFetchStateMessage)
    case _ => false
  }

  /** How many more dispatches an event can cause at most. */
  function Rank(e: Event): nat {
    match e
    case Authenticated(_) => 3
    case FetchAndSelectRepos => 2
    case FetchRepoFiles => 1
    case _ => 0
  }
}
