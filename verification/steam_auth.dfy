/** The Steam sign-in backend: the OpenID Authentication 2.0 login request,
    the `check_authentication` round trip, the Steam id taken from the
    claimed identifier, and the admit/deny decision against the users
    table. The network calls to Steam are parameters holding their answers. */
module SteamAuth {
  import opened Text
  import opened Users

  /** Query-string parameters. */
  type Params = map<string, string>

  const DefaultReturnUrl: string := "http://localhost:5173/adm"
  const SteamLogin: string := "https://steamcommunity.com/openid/login"
  const OpenIdNs: string := "http://specs.openid.net/auth/2.0"
  const IdentifierSelect: string := "http://specs.openid.net/auth/2.0/identifier_select"

  /** `return_url` from the query, or the local admin page. */
  function ReturnUrl(query: Params): (url: string)
    ensures "return_url" in query ==> url == query["return_url"]
    ensures "return_url" !in query ==> url == DefaultReturnUrl
  {
    if "return_url" in query then query["return_url"] else DefaultReturnUrl
  }

  /** `url.rsplit('/', 1)[0]`: everything before the last slash, or the
      whole URL when it has none. */
  function Realm(url: string): (realm: string)
    ensures '/' !in url ==> realm == url
    ensures '/' in url ==> (|realm| < |url| && url == realm + "/" + url[|realm| + 1..]
                            && '/' !in url[|realm| + 1..])
  {
    if '/' in url then
      var i := LastIndex(url, '/');
      assert url == url[..i] + "/" + url[i + 1..];
      url[..i]
    else url
  }

  /** The realm of a return URL is its base: the page name after the last slash is dropped. */
  lemma RealmDropsLastSegment(base: string, page: string)
    requires '/' !in page
    ensures Realm(base + "/" + page) == base
  {
    var url := base + "/" + page;
    assert url == base + ['/'] + page;
    assert url[|base|] == '/';
    LastIndexAfter(base, page, '/');
  }

  /** The parameters of the `checkid_setup` request, in the order written;
      like the dictionary they come from, no key appears twice. */
  function LoginParams(returnUrl: string): (ps: seq<(string, string)>)
    ensures |ps| == 6
    ensures forall i, j :: 0 <= i < j < |ps| ==> ps[i].0 != ps[j].0
    ensures ps[2].1 == returnUrl && ps[3].1 == Realm(returnUrl)
  {
    [("openid.ns", OpenIdNs),
     ("openid.mode", "checkid_setup"),
     ("openid.return_to", returnUrl),
     ("openid.realm", Realm(returnUrl)),
     ("openid.identity", IdentifierSelect),
     ("openid.claimed_id", IdentifierSelect)]
  }

  /** The value first given for `key` in a parameter list. */
  function Lookup(ps: seq<(string, string)>, key: string): (v: Option<string>)
    ensures v.Some? <==> exists i :: 0 <= i < |ps| && ps[i].0 == key
  {
    if ps == [] then None
    else if ps[0].0 == key then Some(ps[0].1)
    else
      var v := Lookup(ps[1..], key);
      assert forall i :: 0 < i < |ps| ==> ps[i] == ps[1..][i - 1];
      v
  }

  /** The value at the first position holding `key`. */
  lemma {:induction false} LookupAt(ps: seq<(string, string)>, key: string, i: nat)
    requires i < |ps| && ps[i].0 == key
    requires forall j :: 0 <= j < i ==> ps[j].0 != key
    ensures Lookup(ps, key) == Some(ps[i].1)
  {
    if i > 0 {
      assert forall j :: 0 <= j < i - 1 ==> ps[1..][j] == ps[j + 1];
      LookupAt(ps[1..], key, i - 1);
    }
  }

  /** The login request asks Steam to authenticate (`checkid_setup`), to come
      back to the return URL, and names the return URL's base as the realm. */
  lemma LoginParamsContent(returnUrl: string)
    ensures Lookup(LoginParams(returnUrl), "openid.mode") == Some("checkid_setup")
    ensures Lookup(LoginParams(returnUrl), "openid.return_to") == Some(returnUrl)
    ensures Lookup(LoginParams(returnUrl), "openid.realm") == Some(Realm(returnUrl))
    ensures Lookup(LoginParams(returnUrl), "openid.claimed_id") == Some(IdentifierSelect)
  {
    var ps := LoginParams(returnUrl);
    LookupAt(ps, "openid.mode", 1);
    LookupAt(ps, "openid.return_to", 2);
    LookupAt(ps, "openid.realm", 3);
    LookupAt(ps, "openid.claimed_id", 5);
  }

  /** The redirect URL; `urlencode` is the query-string encoder. */
  function LoginUrl(returnUrl: string, urlencode: seq<(string, string)> -> string): (url: string)
    ensures StartsWith(url, SteamLogin + "?")
    ensures url[|SteamLogin| + 1..] == urlencode(LoginParams(returnUrl))
  {
    SteamLogin + "?" + urlencode(LoginParams(returnUrl))
  }

  /** The verification request: the callback's parameters with only the mode
      replaced by `check_authentication`. */
  function CheckAuthRequest(params: Params): (r: Params)
    ensures r.Keys == params.Keys + {"openid.mode"}
    ensures r["openid.mode"] == "check_authentication"
    ensures forall k :: k in params && k != "openid.mode" ==> r[k] == params[k]
  {
    params["openid.mode" := "check_authentication"]
  }

  /** Steam's verdict: an unreachable or failing call (`None`) is a refusal;
      a reply counts as valid when it contains `is_valid:true` anywhere. */
  predicate IsValidReply(reply: Option<string>) {
    reply.Some? && Contains(reply.value, ValidMarker)
  }

  const ValidMarker: string := "is_valid:true"

  /** The marker counts wherever it sits in Steam's reply. */
  lemma {:induction false} MarkerAnywhereIsValid(before: string, after: string)
    ensures IsValidReply(Some(before + ValidMarker + after))
    decreases |before|
  {
    var s := before + ValidMarker + after;
    if before == [] {
      assert s == ValidMarker + after;
    } else {
      MarkerAnywhereIsValid(before[1..], after);
      assert s[1..] == before[1..] + ValidMarker + after;
    }
  }

  /** `verify_steam_response`: Steam (`verify`, `None` when the call fails)
      is asked about the callback's parameters in `check_authentication`
      mode, and its reply must carry the marker. */
  predicate SteamConfirms(params: Params, verify: Params -> Option<string>) {
    IsValidReply(verify(CheckAuthRequest(params)))
  }

  /** The longest run of digits at the end of `s`. */
  function TrailingDigits(s: string): (d: string)
    ensures AllDigits(d) && EndsWith(s, d)
    ensures |d| == |s| || !IsDigit(s[|s| - |d| - 1])
    decreases |s|
  {
    if s != [] && IsDigit(s[|s| - 1]) then
      var t := s[..|s| - 1];
      var d := TrailingDigits(t);
      var r := d + [s[|s| - 1]];
      assert t[|t| - |d|..] == d;
      assert s[|s| - |r|..] == t[|t| - |d|..] + [s[|s| - 1]];
      assert |r| < |s| ==> s[|s| - |r| - 1] == t[|t| - |d| - 1];
      r
    else []
  }

  /** Digits after a non-digit are exactly the trailing run. */
  lemma {:induction false} TrailingDigitsAfter(p: string, d: string)
    requires AllDigits(d)
    requires p == [] || !IsDigit(p[|p| - 1])
    ensures TrailingDigits(p + d) == d
    decreases |d|
  {
    if d != [] {
      var s := p + d;
      assert s[..|s| - 1] == p + d[..|d| - 1];
      TrailingDigitsAfter(p, d[..|d| - 1]);
    } else {
      assert p + d == p;
    }
  }

  /** The Steam id in a claimed identifier: the digits of a trailing
      `/id/<digits>`; `None` when the identifier does not end that way. */
  function SteamIdFromClaim(claimed: string): (id: Option<string>)
    ensures id.Some? ==> id.value != [] && AllDigits(id.value) && EndsWith(claimed, "/id/" + id.value)
  {
    var d := TrailingDigits(claimed);
    var rest := claimed[..|claimed| - |d|];
    if d != [] && EndsWith(rest, "/id/") then
      assert claimed == rest + d;
      assert claimed[|claimed| - |"/id/" + d|..] == rest[|rest| - 4..] + d;
      Some(d)
    else None
  }

  /** Every identifier of the form `.../id/<digits>` yields those digits. */
  lemma SteamIdOfClaim(prefix: string, digits: string)
    requires digits != [] && AllDigits(digits)
    ensures SteamIdFromClaim(prefix + "/id/" + digits) == Some(digits)
  {
    var head := prefix + "/id/";
    assert prefix + "/id/" + digits == head + digits;
    assert head[|head| - 1] == '/';
    TrailingDigitsAfter(head, digits);
    assert (head + digits)[..|head|] == head;
    assert head[|head| - 4..] == "/id/";
  }

  /** The answer to a session check: the check always answers "not valid". */
  datatype SessionReply = SessionReply(status: nat, valid: bool)

  function ValidateSession(sessionToken: string): (r: SessionReply)
    ensures r.status == 200 && !r.valid
  {
    SessionReply(200, false)
  }

  /** What a request to the sign-in endpoint does. */
  datatype Action = Preflight | Callback | CheckSession(token: string) | StartLogin(returnUrl: string)

  /** OPTIONS first, then a Steam callback (a claimed id in the query),
      then a session check (a POST with a non-empty `session_token`), and
      otherwise the login URL. */
  function Route(verb: string, query: Params, sessionToken: string): (a: Action)
    ensures verb == "OPTIONS" <==> a == Preflight
    ensures a == Callback <==> verb != "OPTIONS" && "openid.claimed_id" in query
    ensures a.CheckSession? <==> verb != "OPTIONS" && "openid.claimed_id" !in query && verb == "POST" && sessionToken != ""
    ensures a.CheckSession? ==> a.token == sessionToken
    ensures a.StartLogin? ==> a.returnUrl == ReturnUrl(query)
  {
    if verb == "OPTIONS" then Preflight
    else if "openid.claimed_id" in query then Callback
    else if verb == "POST" && sessionToken != "" then CheckSession(sessionToken)
    else StartLogin(ReturnUrl(query))
  }

  /** The user a sign-in yields, given the stored rows keyed by Steam id and
      the id the next insert gets: a known user keeps id and role and takes
      the new name and avatar; an unknown super admin is created as
      administrator; anyone else is refused. */
  function SavedUser(rows: map<string, User>, nextId: nat, steamId: string, username: string, avatarUrl: string): (u: Option<User>)
    ensures u.None? <==> steamId !in rows && steamId != SuperAdminSteamId
  {
    if steamId in rows then Some(rows[steamId].(username := username, avatarUrl := avatarUrl))
    else if steamId == SuperAdminSteamId then Some(User(nextId, steamId, username, avatarUrl, AdministratorRole))
    else None
  }

  /** A returning user keeps id, Steam id and role; name and avatar follow Steam. */
  lemma ReturningUserKeepsRole(rows: map<string, User>, nextId: nat, steamId: string, username: string, avatarUrl: string)
    requires steamId in rows
    ensures var u := SavedUser(rows, nextId, steamId, username, avatarUrl).value;
      u.id == rows[steamId].id && u.steamId == rows[steamId].steamId && u.role == rows[steamId].role
      && u.username == username && u.avatarUrl == avatarUrl
  {
  }

  /** The only account created on sign-in is the super admin's, as administrator. */
  lemma OnlySuperAdminIsCreated(rows: map<string, User>, nextId: nat, steamId: string, username: string, avatarUrl: string)
    requires steamId !in rows
    ensures SavedUser(rows, nextId, steamId, username, avatarUrl).Some? ==>
      steamId == SuperAdminSteamId && SavedUser(rows, nextId, steamId, username, avatarUrl).value.role == AdministratorRole
  {
  }

  /** The users table, keyed by Steam id, and the next serial id. */
  class UserStore {
    var rows: map<string, User>
    var nextId: nat

    /** Every row sits under its own Steam id and has an id already handed out. */
    ghost predicate Valid()
      reads this
    {
      forall k :: k in rows ==> rows[k].steamId == k && rows[k].id < nextId
    }

    constructor(initial: map<string, User>, next: nat)
      requires forall k :: k in initial ==> initial[k].steamId == k && initial[k].id < next
      ensures Valid() && rows == initial && nextId == next
    {
      rows := initial;
      nextId := next;
    }

    /** `save_user_to_db`: update a known user or create the super admin;
        the new id is one no row holds. */
    method SaveUser(steamId: string, username: string, avatarUrl: string) returns (u: Option<User>)
      requires Valid()
      modifies this
      ensures Valid()
      ensures u == SavedUser(old(rows), old(nextId), steamId, username, avatarUrl)
      ensures u.Some? ==> rows == old(rows)[steamId := u.value]
      ensures u.None? ==> rows == old(rows)
      ensures nextId == if u.Some? && steamId !in old(rows) then old(nextId) + 1 else old(nextId)
      ensures u.Some? && steamId !in old(rows) ==> forall k :: k in old(rows) ==> old(rows)[k].id != u.value.id
    {
      if steamId in rows {
        var existing := rows[steamId];
        u := Some(existing.(username := username, avatarUrl := avatarUrl));
        rows := rows[steamId := u.value];
      } else if steamId == SuperAdminSteamId {
        u := Some(User(nextId, steamId, username, avatarUrl, AdministratorRole));
        rows := rows[steamId := u.value];
        nextId := nextId + 1;
      } else {
        u := None;
      }
    }
  }

  const InvalidSteamResponse: string := "Invalid Steam response"
  const NoSteamId: string := "Could not extract Steam ID"
  const NoUserData: string := "Could not fetch user data"
  const NotAdded: string := "Доступ запрещён. Вас должен добавить администратор."

  datatype CallbackReply = CallbackReply(status: nat, error: string, user: Option<User>)

  /** The Steam id in the callback's claimed identifier (`""` when absent). */
  function ClaimedSteamId(params: Params): Option<string> {
    SteamIdFromClaim(if "openid.claimed_id" in params then params["openid.claimed_id"] else "")
  }

  /** `handle_steam_callback`. `verify` is Steam's answer to a verification
      request; `profile` is the name and avatar Steam's user API gives for
      an id, if any. Each failure leaves the table as it was. */
  method HandleCallback(store: UserStore, params: Params, verify: Params -> Option<string>,
                        profile: string -> Option<(string, string)>) returns (r: CallbackReply)
    requires store.Valid()
    modifies store
    ensures store.Valid()
    ensures !SteamConfirms(params, verify) ==> r == CallbackReply(401, InvalidSteamResponse, None)
    ensures SteamConfirms(params, verify) && ClaimedSteamId(params).None? ==> r == CallbackReply(400, NoSteamId, None)
    ensures SteamConfirms(params, verify) && ClaimedSteamId(params).Some? && profile(ClaimedSteamId(params).value).None? ==>
      r == CallbackReply(500, NoUserData, None)
    ensures SteamConfirms(params, verify) && ClaimedSteamId(params).Some? && profile(ClaimedSteamId(params).value).Some? ==>
      var id := ClaimedSteamId(params).value;
      var u := SavedUser(old(store.rows), old(store.nextId), id, profile(id).value.0, profile(id).value.1);
      (u.None? ==> r == CallbackReply(403, NotAdded, None))
      && (u.Some? ==> r == CallbackReply(200, "", u) && store.rows == old(store.rows)[id := u.value]
                      && store.nextId == if id in old(store.rows) then old(store.nextId) else old(store.nextId) + 1)
    ensures r.status != 200 ==> r.user.None? && store.rows == old(store.rows) && store.nextId == old(store.nextId)
  {
    if !SteamConfirms(params, verify) {
      return CallbackReply(401, InvalidSteamResponse, None);
    }
    var steamId := ClaimedSteamId(params);
    if steamId.None? {
      return CallbackReply(400, NoSteamId, None);
    }
    var data := profile(steamId.value);
    if data.None? {
      return CallbackReply(500, NoUserData, None);
    }
    var user := store.SaveUser(steamId.value, data.value.0, data.value.1);
    if user.None? {
      return CallbackReply(403, NotAdded, None);
    }
    r := CallbackReply(200, "", user);
  }
}
