/**
 * The URL fragment as src/atoms/init.ts reads it: the OAuth redirect
 * parameters (through URLSearchParams) and the navigation target.
 */
module Fragment {
  import opened Wrappers
  import opened Cells
  import opened Events

  /** `s` without its first character, as `substring(1)` gives it ("" stays ""). */
  function DropFirst(s: string): (r: string)
    ensures s == [] ==> r == []
    ensures s != [] ==> [s[0]] + r == s
  {
    if s == [] then [] else s[1..]
  }

  /** Joins pieces with `sep` between each two; the inverse of Split. */
  function Join(parts: seq<string>, sep: char): string
    requires |parts| >= 1
  {
    if |parts| == 1 then parts[0] else parts[0] + [sep] + Join(parts[1..], sep)
  }

  /** `s` cut at every `sep`: the pieces hold no `sep` and join back to `s`. */
  function Split(s: string, sep: char): (parts: seq<string>)
    ensures |parts| >= 1
    ensures forall i :: 0 <= i < |parts| ==> sep !in parts[i]
    ensures Join(parts, sep) == s
  {
    if s == [] then [[]]
    else
      var rest := Split(s[1..], sep);
      if s[0] == sep then
        [[]] + rest
      else
        var parts := [[s[0]] + rest[0]] + rest[1..];
        assert parts[1..] == rest[1..];
        parts
  }

  /** The position of the first `c` in `s`, or |s| when there is none. */
  function IndexOf(s: string, c: char): (k: nat)
    ensures k <= |s|
    ensures k < |s| ==> s[k] == c
    ensures forall i :: 0 <= i < k ==> s[i] != c
  {
    if s == [] then 0 else if s[0] == c then 0 else 1 + IndexOf(s[1..], c)
  }

  /** The form decoding of a name or value: `+` stands for a space (percent escapes are not decoded). */
  function PlusToSpace(s: string): (r: string)
    ensures |r| == |s|
    ensures forall i :: 0 <= i < |s| ==> r[i] == (if s[i] == '+' then ' ' else s[i])
    ensures '+' !in s ==> r == s
  {
    seq(|s|, i requires 0 <= i < |s| => if s[i] == '+' then ' ' else s[i])
  }

  /** One `name=value` piece, split at its first `=`; a piece without `=` has the empty value. */
  function ParsePair(piece: string): (string, string) {
    var k := IndexOf(piece, '=');
    if k < |piece| then (PlusToSpace(piece[..k]), PlusToSpace(piece[k + 1..]))
    else (PlusToSpace(piece), "")
  }

  /** The non-empty pieces, parsed, in order. */
  function Pairs(pieces: seq<string>): (ps: seq<(string, string)>)
    ensures |ps| <= |pieces|
  {
    if pieces == [] then []
    else if pieces[0] == [] then Pairs(pieces[1..])
    else [ParsePair(pieces[0])] + Pairs(pieces[1..])
  }

  /** The name/value list URLSearchParams builds from a query string. */
  function SearchParams(query: string): seq<(string, string)> {
    var q := if |query| > 0 && query[0] == '?' then query[1..] else query;
    Pairs(Split(q, '&'))
  }

  /** `params.get(key)`: the value of the first pair named `key`, or None. */
  function Get(params: seq<(string, string)>, key: string): (v: Option<string>)
    ensures v.None? <==> forall i :: 0 <= i < |params| ==> params[i].0 != key
    ensures v.Some? ==> exists i :: 0 <= i < |params| && params[i] == (key, v.value)
                                    && forall j :: 0 <= j < i ==> params[j].0 != key
  {
    if params == [] then None
    else if params[0].0 == key then Some(params[0].1)
    else Get(params[1..], key)
  }

  /** The four parameters of an OAuth redirect fragment in its parameter list. */
  function OAuthParams(hash: string): (Option<string>, Option<string>, Option<string>, Option<string>) {
    var params := SearchParams(DropFirst(hash));
    (Get(params, "access_token"), Get(params, "username"), Get(params, "email"), Get(params, "app_install_id"))
  }

  /**
   * The session of an OAuth redirect: present exactly when the fragment is
   * non-empty and all four parameters are present and non-empty, with
   * access_token as the token and app_install_id as the installation.
   */
  function ParseOAuthHash(hash: string): (r: Option<User>)
    ensures r.Some? <==>
      hash != "" && Truthy(OAuthParams(hash).0) && Truthy(OAuthParams(hash).1)
                 && Truthy(OAuthParams(hash).2) && Truthy(OAuthParams(hash).3)
    ensures r.Some? ==>
      && Some(r.value.token) == OAuthParams(hash).0
      && Some(r.value.username) == OAuthParams(hash).1
      && Some(r.value.email) == OAuthParams(hash).2
      && Some(r.value.installationId) == OAuthParams(hash).3
  {
    if hash == "" then None
    else
      var params := SearchParams(hash[1..]);
      var token := Get(params, "access_token");
      var username := Get(params, "username");
      var email := Get(params, "email");
      var installationId := Get(params, "app_install_id");
      if Truthy(token) && Truthy(username) && Truthy(installationId) && Truthy(email) then
        Some(User(username.value, token.value, installationId.value, email.value))
      else
        None
  }

  /** The router's decision: "/" is the front page, any other fragment a note path. */
  function RouteEvent(hash: string): (e: Event)
    ensures e.ShowFront? || e.ShowNote?
    ensures e.ShowFront? <==> DropFirst(hash) == "/"
    ensures e.ShowNote? ==> e.path == DropFirst(hash)
  {
    var path := DropFirst(hash);
    if path == "/" then Event.ShowFront else Event.ShowNote(path)
  }

  /** A value that URLSearchParams gives back verbatim inside a fragment: no separator, no `+`, no escape. */
  predicate Plain(v: string) {
    forall i :: 0 <= i < |v| ==> v[i] != '&' && v[i] != '+' && v[i] != '%'
  }

  /** A parameter name that parses back to itself: plain, without `=`, non-empty and not starting with `?`. */
  predicate Key(n: string) {
    Plain(n) && '=' !in n && n != [] && n[0] != '?'
  }

  /** The `name=value` pieces of a parameter list, in order. */
  function Pieces(params: seq<(string, string)>): (pieces: seq<string>)
    ensures |pieces| == |params|
    ensures forall i :: 0 <= i < |params| ==> pieces[i] == params[i].0 + "=" + params[i].1
  {
    seq(|params|, i requires 0 <= i < |params| => params[i].0 + "=" + params[i].1)
  }

  /** The query string of a non-empty parameter list: its pieces joined with `&`. */
  function Query(params: seq<(string, string)>): string
    requires |params| >= 1
  {
    Join(Pieces(params), '&')
  }

  /** The four parameters callback.js puts in its redirect fragment, in its order. */
  function CallbackParams(installationId: string, token: string, tokenType: string, username: string): seq<(string, string)> {
    [("app_install_id", installationId), ("access_token", token), ("token_type", tokenType), ("username", username)]
  }

  /** The redirect fragment callback.js builds, as written: it carries no email. */
  function CallbackFragment(installationId: string, token: string, tokenType: string, username: string): string {
    "#" + Query(CallbackParams(installationId, token, tokenType, username))
  }

  /** The redirect fragment with the session's email added after the callback's four parameters. */
  function OAuthFragment(u: User, tokenType: string): string {
    "#" + Query(CallbackParams(u.installationId, u.token, tokenType, u.username) + [("email", u.email)])
  }

  lemma {:induction false} SplitAt(a: string, b: string, sep: char)
    requires sep !in a
    ensures Split(a + [sep] + b, sep) == [a] + Split(b, sep)
  {
    if a == [] {
      assert a + [sep] + b == [sep] + b;
      assert ([sep] + b)[1..] == b;
    } else {
      assert (a + [sep] + b)[1..] == a[1..] + [sep] + b;
      SplitAt(a[1..], b, sep);
      assert [a[0]] + a[1..] == a;
    }
  }

  lemma {:induction false} SplitNone(a: string, sep: char)
    requires sep !in a
    ensures Split(a, sep) == [a]
  {
    if a != [] {
      SplitNone(a[1..], sep);
      assert [a[0]] + a[1..] == a;
    }
  }

  lemma PairOf(name: string, value: string)
    requires '=' !in name && '+' !in name && '+' !in value
    ensures ParsePair(name + "=" + value) == (name, value)
  {
    var piece := name + "=" + value;
    assert forall i :: 0 <= i < |name| ==> piece[i] == name[i];
    assert piece[|name|] == '=';
    var k := IndexOf(piece, '=');
    assert k == |name|;
    assert piece[..k] == name;
    assert piece[k + 1..] == value;
  }

  lemma NoAmpersand(name: string, value: string)
    requires '&' !in name && '&' !in value
    ensures '&' !in name + "=" + value
  {
    var piece := name + "=" + value;
    forall i | 0 <= i < |piece| ensures piece[i] != '&' {
      if i < |name| {
        assert piece[i] == name[i];
      } else if i > |name| {
        assert piece[i] == value[i - |name| - 1];
      }
    }
  }

  /** Splitting undoes joining pieces that hold no separator. */
  lemma {:induction false} SplitJoin(parts: seq<string>, sep: char)
    requires |parts| >= 1
    requires forall i :: 0 <= i < |parts| ==> sep !in parts[i]
    ensures Split(Join(parts, sep), sep) == parts
  {
    if |parts| == 1 {
      SplitNone(parts[0], sep);
    } else {
      SplitJoin(parts[1..], sep);
      SplitAt(parts[0], Join(parts[1..], sep), sep);
      assert [parts[0]] + parts[1..] == parts;
    }
  }

  /** A join starts with its first piece. */
  lemma JoinStarts(parts: seq<string>, sep: char)
    requires |parts| >= 1
    ensures forall i :: 0 <= i < |parts[0]| ==> Join(parts, sep)[i] == parts[0][i]
  {
  }

  /** With no empty piece, every piece gives exactly one pair, in order. */
  lemma {:induction false} PairsOfNonEmpty(pieces: seq<string>)
    requires forall i :: 0 <= i < |pieces| ==> pieces[i] != []
    ensures |Pairs(pieces)| == |pieces|
    ensures forall i :: 0 <= i < |pieces| ==> Pairs(pieces)[i] == ParsePair(pieces[i])
  {
    if pieces != [] {
      PairsOfNonEmpty(pieces[1..]);
    }
  }

  /** Parsing the query string of plain names and values gives back the parameter list. */
  lemma QueryParams(params: seq<(string, string)>)
    requires |params| >= 1
    requires forall i :: 0 <= i < |params| ==> Key(params[i].0) && Plain(params[i].1)
    ensures SearchParams(Query(params)) == params
  {
    var pieces := Pieces(params);
    forall i | 0 <= i < |pieces| ensures '&' !in pieces[i] && pieces[i] != [] {
      NoAmpersand(params[i].0, params[i].1);
      assert pieces[i][|params[i].0|] == '=';
    }
    SplitJoin(pieces, '&');
    JoinStarts(pieces, '&');
    assert Query(params)[0] == params[0].0[0];
    PairsOfNonEmpty(pieces);
    forall i | 0 <= i < |params| ensures Pairs(pieces)[i] == params[i] {
      PairOf(params[i].0, params[i].1);
    }
  }

  /** The value of a name is that of the first pair carrying it, whatever follows. */
  lemma {:induction false} GetFirst(params: seq<(string, string)>, i: nat)
    requires i < |params|
    requires forall j :: 0 <= j < i ==> params[j].0 != params[i].0
    ensures Get(params, params[i].0) == Some(params[i].1)
  {
    if i > 0 {
      GetFirst(params[1..], i - 1);
    }
  }

  /** `params` carries `name` with `value` at the first pair of that name. */
  predicate FirstCarries(params: seq<(string, string)>, name: string, value: string) {
    exists i :: 0 <= i < |params| && params[i] == (name, value) && forall j :: 0 <= j < i ==> params[j].0 != name
  }

  lemma FirstCarriesGet(params: seq<(string, string)>, name: string, value: string)
    requires FirstCarries(params, name, value)
    ensures Get(params, name) == Some(value)
  {
    var i :| 0 <= i < |params| && params[i] == (name, value) && forall j :: 0 <= j < i ==> params[j].0 != name;
    GetFirst(params, i);
  }

  lemma FragmentParams(params: seq<(string, string)>)
    requires |params| >= 1
    requires forall i :: 0 <= i < |params| ==> Key(params[i].0) && Plain(params[i].1)
    ensures SearchParams(DropFirst("#" + Query(params))) == params
  {
    QueryParams(params);
    assert DropFirst("#" + Query(params)) == Query(params);
  }

  /**
   * Parsing any redirect fragment whose first access_token, username, email
   * and app_install_id pairs carry the session's non-empty values recovers
   * the session, whatever the order of the pairs and whatever other plain
   * parameters stand beside them.
   */
  lemma RedirectRoundTrip(u: User, params: seq<(string, string)>)
    requires u.token != "" && u.username != "" && u.email != "" && u.installationId != ""
    requires |params| >= 1
    requires forall i :: 0 <= i < |params| ==> Key(params[i].0) && Plain(params[i].1)
    requires FirstCarries(params, "access_token", u.token) && FirstCarries(params, "username", u.username)
    requires FirstCarries(params, "email", u.email) && FirstCarries(params, "app_install_id", u.installationId)
    ensures ParseOAuthHash("#" + Query(params)) == Some(u)
  {
    FragmentParams(params);
    FirstCarriesGet(params, "access_token", u.token);
    FirstCarriesGet(params, "username", u.username);
    FirstCarriesGet(params, "email", u.email);
    FirstCarriesGet(params, "app_install_id", u.installationId);
  }

  /**
   * The redirect fragment as callback.js writes it never yields a session:
   * it carries no email, and parseOAuthHash insists on all four parameters.
   */
  lemma CallbackDropsSession(installationId: string, token: string, tokenType: string, username: string)
    requires Plain(installationId) && Plain(token) && Plain(tokenType) && Plain(username)
    ensures ParseOAuthHash(CallbackFragment(installationId, token, tokenType, username)).None?
  {
    var params := CallbackParams(installationId, token, tokenType, username);
    CallbackFragmentParams(installationId, token, tokenType, username);
    var lengths := [14, 12, 10, 8];
    assert forall j :: 0 <= j < |params| ==> |params[j].0| == lengths[j];
    assert Get(params, "email").None?;
  }

  lemma CallbackFragmentParams(installationId: string, token: string, tokenType: string, username: string)
    requires Plain(installationId) && Plain(token) && Plain(tokenType) && Plain(username)
    ensures SearchParams(DropFirst(CallbackFragment(installationId, token, tokenType, username)))
         == CallbackParams(installationId, token, tokenType, username)
  {
    var params := CallbackParams(installationId, token, tokenType, username);
    assert Key("app_install_id") && Key("access_token") && Key("token_type") && Key("username");
    QueryParams(params);
    assert DropFirst(CallbackFragment(installationId, token, tokenType, username)) == Query(params);
  }

  /** The parameter list of the redirect fragment with the email added. */
  function OAuthParamList(u: User, tokenType: string): seq<(string, string)> {
    CallbackParams(u.installationId, u.token, tokenType, u.username) + [("email", u.email)]
  }

  lemma OAuthFragmentParams(u: User, tokenType: string)
    requires Plain(u.token) && Plain(u.username) && Plain(u.email) && Plain(u.installationId) && Plain(tokenType)
    ensures SearchParams(DropFirst(OAuthFragment(u, tokenType))) == OAuthParamList(u, tokenType)
  {
    var params := OAuthParamList(u, tokenType);
    assert Key("app_install_id") && Key("access_token") && Key("token_type") && Key("username") && Key("email");
    QueryParams(params);
    assert DropFirst(OAuthFragment(u, tokenType)) == Query(params);
  }

  lemma OAuthParamValues(u: User, tokenType: string)
    ensures var params := OAuthParamList(u, tokenType);
      && Get(params, "app_install_id") == Some(u.installationId)
      && Get(params, "access_token") == Some(u.token)
      && Get(params, "username") == Some(u.username)
      && Get(params, "email") == Some(u.email)
  {
    var params := OAuthParamList(u, tokenType);
    var lengths := [14, 12, 10, 8, 5];
    assert forall j :: 0 <= j < |params| ==> |params[j].0| == lengths[j];
    GetFirst(params, 0);
    GetFirst(params, 1);
    GetFirst(params, 3);
    GetFirst(params, 4);
  }

  /**
   * Parsing a redirect fragment that carries the four parameters (and the
   * token type) with non-empty plain values recovers the session.
   */
  lemma OAuthRoundTrip(u: User, tokenType: string)
    requires u.token != "" && u.username != "" && u.email != "" && u.installationId != ""
    requires Plain(u.token) && Plain(u.username) && Plain(u.email) && Plain(u.installationId) && Plain(tokenType)
    ensures ParseOAuthHash(OAuthFragment(u, tokenType)) == Some(u)
  {
    OAuthFragmentParams(u, tokenType);
    OAuthParamValues(u, tokenType);
  }
}
