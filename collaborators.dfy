/**
 * The external collaborators of the handlers and the bootstrap: their
 * answers for one run, and the record of the calls made to them.
 */
module Collaborators {
  import opened Wrappers
  import opened Cells
  import opened Events

  /**
   * What the collaborators answer during one run.
   * `listRepos(installationId, token)` is the repository listing (None for a
   * failed request); `currentLogin(token)` the `login` of the current-user
   * lookup (None for a null answer); `mirrorInitialized` the answer of
   * `isInitialized`; `mirrorFiles` the enumeration of the mirror;
   * `readFile` the files whose read succeeds, with their content.
   */
  datatype Env = Env(
    listRepos: (string, string) -> Option<seq<string>>,
    currentLogin: string -> Option<string>,
    mirrorInitialized: bool,
    mirrorFiles: seq<string>,
    readFile: map<string, FileContent>)

  /** One observable step: a dispatch, the dispatcher's warning, or a call to a collaborator. */
  datatype Call =
    | Received(event: Event)
    | Unimplemented(event: Event)
    | FetchUserRepos(installationId: string, token: string)
    | FetchCurrentUser(token: string)
    | IsInitialized
    | Pull(user: User)
    | Clone(url: string, user: User)
    | ReadRepoFiles
    | ReadFile(path: string)
    | WipeFs
    | ClearFragment

  /** The events dispatched, in order, in a record of calls. */
  function Dispatched(calls: seq<Call>): (es: seq<Event>)
    ensures |es| <= |calls|
  {
    if calls == [] then []
    else (if calls[0].Received? then [calls[0].event] else []) + Dispatched(calls[1..])
  }

  lemma {:induction false} DispatchedAppend(a: seq<Call>, b: seq<Call>)
    ensures Dispatched(a + b) == Dispatched(a) + Dispatched(b)
  {
    if a == [] {
      assert a + b == b;
    } else {
      assert (a + b)[0] == a[0] && (a + b)[1..] == a[1..] + b;
      DispatchedAppend(a[1..], b);
    }
  }

  lemma {:induction false} DispatchedNone(a: seq<Call>)
    requires forall c <- a :: !c.Received?
    ensures Dispatched(a) == []
  {
    if a != [] {
      DispatchedNone(a[1..]);
    }
  }

  lemma AppendAssoc(a: seq<Call>, b: seq<Call>, c: seq<Call>)
    ensures (a + b) + c == a + (b + c)
  {
  }

  /** The reads of `readFile`, one per filename, in list order. */
  function ReadCalls(names: seq<string>): (calls: seq<Call>)
    ensures |calls| == |names|
    ensures forall i :: 0 <= i < |names| ==> calls[i] == ReadFile(names[i])
  {
    seq(|names|, i requires 0 <= i < |names| => ReadFile(names[i]))
  }
}
