/** The wiki backend's decisions: who the caller is (bearer-token parsing),
    what each endpoint lets them do, the SQL of a partial article update,
    and how an uploaded image is named and typed. Database reads are
    parameters and database writes are returned as `Write` values; the SQL
    engine and object storage are outside the model. */
module WikiApi {
  import opened Text
  import opened Users
  import AdminPanel

  /** The JSON values a request body can hold, as far as the handlers look at them. */
  datatype Json = JNull | JBool(b: bool) | JInt(i: int) | JStr(s: string)

  /** Python truthiness (`if not x`, `all([...])`). */
  predicate Truthy(j: Json) {
    match j
    case JNull => false
    case JBool(b) => b
    case JInt(i) => i != 0
    case JStr(s) => s != ""
  }

  type Body = map<string, Json>
  type Headers = map<string, string>

  /** `body.get(key)`: a missing key reads as `None`. */
  function Get(body: Body, key: string): Json {
    if key in body then body[key] else JNull
  }

  /** The database change a handler asks for. */
  datatype Write =
    | InsertCategory(name: Json, icon: Json)
    | DeleteCategory(categoryKey: string)
    | InsertArticle(title: Json, description: Json, content: Json, categoryId: Json, authorId: nat, previewImage: Json)
    | UpdateArticle(sql: string, params: seq<Json>)
    | DeleteArticle(articleId: string)
    | SetRole(userId: Json, role: string)
    | DeleteUser(userKey: string)

  /** HTTP status, error text ("" on success) and the change made. */
  datatype Outcome = Outcome(status: nat, error: string, write: Option<Write>)

  const AccessDenied: string := "Access denied"
  const AuthenticationRequired: string := "Authentication required"
  const MethodNotAllowed: string := "Method not allowed"
  const NameRequired: string := "Name is required"
  const IdRequired: string := "ID is required"
  const MissingFields: string := "Missing required fields"
  const ArticleIdRequired: string := "Article ID is required"
  const ArticleNotFound: string := "Article not found"
  const IdAndRoleRequired: string := "ID and role are required"
  const InvalidRole: string := "Invalid role"
  const CannotDeleteSuperAdmin: string := "Cannot delete super admin"
  const UnknownAction: string := "Not found. Use ?action=categories|articles|users|upload_image"

  function Refuse(status: nat, error: string): Outcome {
    Outcome(status, error, None)
  }

  function Done(status: nat, w: Write): Outcome {
    Outcome(status, "", Some(w))
  }

  // ------------------------------------------------------------------
  // Caller identification (`validate_user`)
  // ------------------------------------------------------------------

  /** The header read: `X-Authorization` if present (even when empty),
      otherwise `authorization`, otherwise empty. */
  function AuthHeader(headers: Headers): (h: string)
    ensures h == "" || h in headers.Values
    ensures "X-Authorization" in headers ==> h == headers["X-Authorization"]
    ensures "X-Authorization" !in headers && "authorization" in headers ==> h == headers["authorization"]
    ensures "X-Authorization" !in headers && "authorization" !in headers ==> h == ""
  {
    if "X-Authorization" in headers then headers["X-Authorization"]
    else if "authorization" in headers then headers["authorization"]
    else ""
  }

  /** `X-Authorization` takes precedence over `authorization`. */
  lemma XAuthorizationFirst(headers: Headers, v: string)
    ensures AuthHeader(headers["X-Authorization" := v]) == v
  {
  }

  /** The token: every `Bearer ` removed, then surrounding whitespace stripped. */
  function BearerToken(header: string): (token: string)
    ensures |token| <= |header|
    ensures token == [] || (!IsSpace(token[0]) && !IsSpace(token[|token| - 1]))
    ensures !Contains(header, BearerPrefix) ==> token == Strip(header)
  {
    RemoveAllNotContained(header, BearerPrefix);
    Strip(RemoveAll(header, BearerPrefix))
  }

  const BearerPrefix: string := "Bearer "

  /** A leading scheme word is the same as none. */
  lemma BearerPrefixDropped(t: string)
    ensures BearerToken(BearerPrefix + t) == BearerToken(t)
  {
    var s := BearerPrefix + t;
    assert s[..|BearerPrefix|] == BearerPrefix && s[|BearerPrefix|..] == t;
    assert RemoveAll(s, BearerPrefix) == RemoveAll(t, BearerPrefix);
  }

  /** The scheme word is dropped wherever it stands: after any text `a`
      that holds no `B`, the occurrence is cut out and the scan goes on. */
  lemma BearerDroppedAnywhere(a: string, b: string)
    requires 'B' !in a
    ensures BearerToken(a + BearerPrefix + b) == Strip(a + RemoveAll(b, BearerPrefix))
  {
    RemoveAllAfterFree(a, b, BearerPrefix);
  }

  /** `token.split(':')` with at least two parts gives the Steam id (before
      the first colon) and the user id (up to the next colon); further
      parts are ignored. */
  function ParseCredentials(token: string): (r: Option<(string, string)>)
    ensures r.Some? <==> ':' in token
    ensures r.Some? ==> ':' !in r.value.0 && ':' !in r.value.1
    ensures r.Some? ==> StartsWith(token, r.value.0 + ":" + r.value.1)
    ensures r.Some? ==> (var n := |r.value.0| + 1 + |r.value.1|;
                         n == |token| || token[n] == ':')
  {
    var parts := Split(token, ':');
    if |parts| >= 2 then
      SplitHead(token, ':');
      var tail := Join(parts[1..], ':');
      assert token == parts[0] + ":" + tail;
      assert |parts| == 2 ==> tail == parts[1];
      assert |parts| > 2 ==> tail[|parts[1]|] == ':';
      Some((parts[0], parts[1]))
    else None
  }

  /** The credentials a request carries, if any. */
  function Credentials(headers: Headers): (c: Option<(string, string)>)
    ensures c.Some? <==> AuthHeader(headers) != "" && ':' in BearerToken(AuthHeader(headers))
    ensures c.Some? ==> c == ParseCredentials(BearerToken(AuthHeader(headers)))
  {
    var header := AuthHeader(headers);
    if header == "" then None
    else
      var token := BearerToken(header);
      if token == "" then None else ParseCredentials(token)
  }

  /** `validate_user`: the user row with that Steam id and id, found by
      `lookup` (the `SELECT`; it yields `None` for no row and for an id the
      database cannot compare). */
  function ValidateUser(headers: Headers, lookup: (string, string) -> Option<User>): (u: Option<User>)
    ensures Credentials(headers).None? ==> u.None?
    ensures Credentials(headers).Some? ==> u == lookup(Credentials(headers).value.0, Credentials(headers).value.1)
  {
    match Credentials(headers)
    case None => None
    case Some((steamId, userId)) => lookup(steamId, userId)
  }

  /** An empty header, a header that is only `Bearer ` and blanks, or a
      token without a colon identifies nobody. */
  lemma NoUserWithoutCredentials(headers: Headers, lookup: (string, string) -> Option<User>)
    requires AuthHeader(headers) == "" || BearerToken(AuthHeader(headers)) == ""
             || ':' !in BearerToken(AuthHeader(headers))
    ensures ValidateUser(headers, lookup) == None
  {
  }

  /** The token the login page stores: Steam id, a colon, the user id. */
  function LoginToken(steamId: string, id: nat): (t: string)
    ensures ':' !in steamId ==> ParseCredentials(t) == Some((steamId, NatToString(id)))
  {
    var digits := NatToString(id);
    var t := steamId + ":" + digits;
    if ':' in steamId then t
    else
      assert t == steamId + [':'] + digits;
      assert ':' !in digits;
      SplitTwo(steamId, digits, ':');
      t
  }

  /** A bearer header whose token has no `B` and no surrounding blanks
      yields exactly that token. */
  lemma BearerTokenOfPlainToken(token: string)
    requires 'B' !in token
    requires token != [] && !IsSpace(token[0]) && !IsSpace(token[|token| - 1])
    ensures BearerToken("Bearer " + token) == token
  {
    assert ("Bearer " + token)[7..] == token;
    RemoveAllAbsent(token, "Bearer ");
  }

  /** Round trip with the login page: the bearer header built from a stored
      token gives back the Steam id and the decimal user id. */
  lemma LoginTokenRoundTrip(headers: Headers, steamId: string, id: nat)
    requires steamId != [] && AllDigits(steamId)
    requires AuthHeader(headers) == "Bearer " + LoginToken(steamId, id)
    ensures Credentials(headers) == Some((steamId, NatToString(id)))
  {
    var digits := NatToString(id);
    var token := LoginToken(steamId, id);
    assert token == steamId + [':'] + digits;
    assert ':' !in steamId && 'B' !in steamId;
    assert ':' !in digits && 'B' !in digits;
    assert 'B' !in token;
    assert token[0] == steamId[0] && token[|token| - 1] == digits[|digits| - 1];
    BearerTokenOfPlainToken(token);
    SplitTwo(steamId, digits, ':');
  }

  // ------------------------------------------------------------------
  // Categories (`handle_categories`)
  // ------------------------------------------------------------------

  predicate IsAdministrator(user: Option<User>) {
    user.Some? && user.value.role == AdministratorRole
  }

  /** POST: administrators only; a name is required; the icon defaults to `BookOpen`. */
  function CreateCategory(user: Option<User>, body: Body): (o: Outcome)
    ensures o.write.Some? <==> IsAdministrator(user) && Truthy(Get(body, "name"))
    ensures !IsAdministrator(user) ==> o == Refuse(403, AccessDenied)
    ensures IsAdministrator(user) && !Truthy(Get(body, "name")) ==> o == Refuse(400, NameRequired)
    ensures o.write.Some? ==> o.status == 201 && o.write.value.InsertCategory? && o.write.value.name == body["name"]
    ensures o.write.Some? ==> o.write.value.icon == if "icon" in body then body["icon"] else JStr("BookOpen")
  {
    if !IsAdministrator(user) then Refuse(403, AccessDenied)
    else if !Truthy(Get(body, "name")) then Refuse(400, NameRequired)
    else
      var icon := if "icon" in body then body["icon"] else JStr("BookOpen");
      Done(201, InsertCategory(body["name"], icon))
  }

  /** DELETE: administrators only; the id comes from the query string
      ("" when absent). Articles of the category are detached first. */
  function RemoveCategory(user: Option<User>, queryId: string): (o: Outcome)
    ensures o.write.Some? <==> IsAdministrator(user) && queryId != ""
    ensures !IsAdministrator(user) ==> o == Refuse(403, AccessDenied)
    ensures IsAdministrator(user) && queryId == "" ==> o == Refuse(400, IdRequired)
    ensures o.write.Some? ==> o.status == 200 && o.write.value == DeleteCategory(queryId)
  {
    if !IsAdministrator(user) then Refuse(403, AccessDenied)
    else if queryId == "" then Refuse(400, IdRequired)
    else Done(200, DeleteCategory(queryId))
  }

  // ------------------------------------------------------------------
  // Articles (`handle_articles`)
  // ------------------------------------------------------------------

  /** POST: any authenticated caller, whatever the role; title, description
      and content must all be truthy; the author is the caller. */
  function CreateArticle(user: Option<User>, body: Body): (o: Outcome)
    ensures user.None? ==> o == Refuse(403, AuthenticationRequired)
    ensures o.write.Some? <==>
      user.Some? && Truthy(Get(body, "title")) && Truthy(Get(body, "description")) && Truthy(Get(body, "content"))
    ensures user.Some? && o.write.None? ==> o == Refuse(400, MissingFields)
    ensures o.write.Some? ==> o.status == 201 && o.write.value.InsertArticle? && o.write.value.authorId == user.value.id
    ensures o.write.Some? ==>
      var w := o.write.value;
      w.title == body["title"] && w.description == body["description"] && w.content == body["content"]
      && w.categoryId == Get(body, "category_id") && w.previewImage == Get(body, "preview_image")
  {
    if user.None? then Refuse(403, AuthenticationRequired)
    else if !(Truthy(Get(body, "title")) && Truthy(Get(body, "description")) && Truthy(Get(body, "content"))) then
      Refuse(400, MissingFields)
    else
      Done(201, InsertArticle(Get(body, "title"), Get(body, "description"), Get(body, "content"),
                              Get(body, "category_id"), user.value.id, Get(body, "preview_image")))
  }

  /** The fields a partial update may set, in the order the clauses are built. */
  const UpdatableFields: seq<string> := ["title", "description", "content", "category_id", "preview_image"]
  const TimestampClause: string := "updated_at = CURRENT_TIMESTAMP"

  /** The fields of `fields` present in the body, in their order. */
  function PresentFields(body: Body, fields: seq<string>): (r: seq<string>)
    ensures |r| <= |fields|
    ensures forall f :: f in r <==> f in fields && f in body
    ensures IsSublist(r, fields)
  {
    if fields == [] then []
    else
      var rest := PresentFields(body, fields[1..]);
      if fields[0] in body then
        var r := [fields[0]] + rest;
        assert r[1..] == rest;
        r
      else rest
  }

  /** Appending a field to the list appends it to the present fields when present. */
  lemma {:induction false} PresentFieldsSnoc(body: Body, fields: seq<string>, f: string)
    ensures PresentFields(body, fields + [f]) == PresentFields(body, fields) + (if f in body then [f] else [])
  {
    if fields == [] {
      assert fields + [f] == [f];
    } else {
      assert (fields + [f])[0] == fields[0] && (fields + [f])[1..] == fields[1..] + [f];
      PresentFieldsSnoc(body, fields[1..], f);
    }
  }

  function SetClause(field: string): string {
    field + " = %s"
  }

  /** One `field = %s` clause per field. */
  function SetClauses(fields: seq<string>): (r: seq<string>)
    ensures |r| == |fields|
  {
    seq(|fields|, i requires 0 <= i < |fields| => SetClause(fields[i]))
  }

  /** The body's value of each field. */
  function FieldValues(body: Body, fields: seq<string>): (r: seq<Json>)
    requires forall f :: f in fields ==> f in body
    ensures |r| == |fields|
  {
    seq(|fields|, i requires 0 <= i < |fields| => body[fields[i]])
  }

  lemma ClausesSnoc(body: Body, fs: seq<string>, f: string)
    requires forall g :: g in fs ==> g in body
    requires f in body
    ensures SetClauses(fs + [f]) == SetClauses(fs) + [SetClause(f)]
    ensures FieldValues(body, fs + [f]) == FieldValues(body, fs) + [body[f]]
  {
    assert SetClauses(fs + [f]) == SetClauses(fs) + [SetClause(f)];
  }

  /** The first `k` updatable fields that the body carries. */
  function PresentPrefix(body: Body, k: nat): (r: seq<string>)
    requires k <= |UpdatableFields|
    ensures forall f :: f in r ==> f in body
  {
    PresentFields(body, UpdatableFields[..k])
  }

  /** One `if field in body` step of the builder: append that field's
      clause and value when the body carries it. */
  method AddIfPresent(body: Body, k: nat, updates: seq<string>, params: seq<Json>)
    returns (updates': seq<string>, params': seq<Json>)
    requires k < |UpdatableFields|
    requires updates == SetClauses(PresentPrefix(body, k)) && params == FieldValues(body, PresentPrefix(body, k))
    ensures updates' == SetClauses(PresentPrefix(body, k + 1)) && params' == FieldValues(body, PresentPrefix(body, k + 1))
  {
    Step(body, k);
    var field := UpdatableFields[k];
    if field in body {
      ghost var fs := PresentPrefix(body, k);
      assert PresentPrefix(body, k + 1) == fs + [field];
      ClausesSnoc(body, fs, field);
      updates', params' := updates + [SetClause(field)], params + [body[field]];
    } else {
      updates', params' := updates, params;
    }
  }

  /** The article `PUT` builder: one `field = %s` clause and one parameter
      per present field, in field order; when there is at least one, the
      timestamp clause and the article id close the lists. Nothing else
      is collected. */
  method BuildUpdate(body: Body, articleId: Json) returns (updates: seq<string>, params: seq<Json>)
    ensures var fs := PresentFields(body, UpdatableFields);
      (fs == [] ==> updates == [] && params == [])
      && (fs != [] ==> updates == SetClauses(fs) + [TimestampClause] && params == FieldValues(body, fs) + [articleId])
  {
    updates, params := [], [];
    updates, params := AddIfPresent(body, 0, updates, params);   // title
    updates, params := AddIfPresent(body, 1, updates, params);   // description
    updates, params := AddIfPresent(body, 2, updates, params);   // content
    updates, params := AddIfPresent(body, 3, updates, params);   // category_id
    updates, params := AddIfPresent(body, 4, updates, params);   // preview_image
    assert UpdatableFields[..5] == UpdatableFields;
    if updates != [] {
      updates, params := updates + [TimestampClause], params + [articleId];
    }
  }

  lemma Step(body: Body, k: nat)
    requires k < |UpdatableFields|
    ensures PresentFields(body, UpdatableFields[..k + 1])
         == PresentFields(body, UpdatableFields[..k]) + (if UpdatableFields[k] in body then [UpdatableFields[k]] else [])
  {
    assert UpdatableFields[..k + 1] == UpdatableFields[..k] + [UpdatableFields[k]];
    PresentFieldsSnoc(body, UpdatableFields[..k], UpdatableFields[k]);
  }

  /** The statement the builder's lists are sent with. */
  function UpdateQuery(updates: seq<string>): string {
    "UPDATE articles SET " + JoinWith(updates, ", ") + " WHERE id = " + "%s"
  }

  /** The update the `PUT` handler issues for a body: `None` when no field is present. */
  function UpdateWrite(body: Body, articleId: Json): (w: Option<Write>)
    ensures w.None? <==> PresentFields(body, UpdatableFields) == []
  {
    var fs := PresentFields(body, UpdatableFields);
    if fs == [] then None
    else Some(UpdateArticle(UpdateQuery(SetClauses(fs) + [TimestampClause]), FieldValues(body, fs) + [articleId]))
  }

  lemma FieldsHaveNoPercent(f: string)
    requires f in UpdatableFields
    ensures '%' !in f
  {
    var i :| 0 <= i < |UpdatableFields| && UpdatableFields[i] == f;
    assert i == 0 || i == 1 || i == 2 || i == 3 || i == 4;
  }

  /** The fixed text around the clauses adds one placeholder, the `WHERE` id. */
  lemma QueryPlaceholders(clauses: seq<string>)
    ensures CountChar(UpdateQuery(clauses), '%') == TotalCount(clauses, '%') + 1
  {
    var joined := JoinWith(clauses, ", ");
    CountCharAbsent(", ", '%');
    CountJoinWith(clauses, ", ", '%');
    FixedTextPlaceholder(joined);
  }

  lemma FixedTextPlaceholder(joined: string)
    ensures CountChar("UPDATE articles SET " + joined + " WHERE id = " + "%s", '%') == CountChar(joined, '%') + 1
  {
    CountFour("UPDATE articles SET ", joined, " WHERE id = ", "%s", '%');
    HeadHasNoPlaceholder();
    WhereHasNoPlaceholder();
    OnePlaceholder();
  }

  lemma HeadHasNoPlaceholder()
    ensures CountChar("UPDATE articles SET ", '%') == 0
  {
    CountCharAbsent("UPDATE articles SET ", '%');
  }

  lemma WhereHasNoPlaceholder()
    ensures CountChar(" WHERE id = ", '%') == 0
  {
    CountCharAbsent(" WHERE id = ", '%');
  }

  lemma OnePlaceholder()
    ensures CountChar("%s", '%') == 1
  {
    assert "%s"[1..] == "s" && "s"[1..] == "";
  }

  lemma CountFour(a: string, b: string, d: string, e: string, c: char)
    ensures CountChar(a + b + d + e, c) == CountChar(a, c) + CountChar(b, c) + CountChar(d, c) + CountChar(e, c)
  {
    CountCharAppend(a, b, c);
    CountCharAppend(a + b, d, c);
    CountCharAppend(a + b + d, e, c);
  }

  lemma {:induction false} ClausePlaceholders(fs: seq<string>)
    requires forall f :: f in fs ==> f in UpdatableFields
    ensures TotalCount(SetClauses(fs), '%') == |fs|
  {
    if fs != [] {
      assert SetClauses(fs)[1..] == SetClauses(fs[1..]);
      ClausePlaceholders(fs[1..]);
      FieldsHaveNoPercent(fs[0]);
      CountCharAbsent(fs[0], '%');
      CountCharAppend(fs[0], " = %s", '%');
    }
  }

  lemma {:induction false} TotalCountSnoc(parts: seq<string>, p: string, c: char)
    ensures TotalCount(parts + [p], c) == TotalCount(parts, c) + CountChar(p, c)
  {
    if parts != [] {
      assert (parts + [p])[1..] == parts[1..] + [p];
      TotalCountSnoc(parts[1..], p, c);
    } else {
      assert [p][1..] == [];
    }
  }

  lemma TimestampHasNoPlaceholder()
    ensures CountChar(TimestampClause, '%') == 0
  {
    CountCharAbsent(TimestampClause, '%');
  }

  /** The statement has exactly one `%s` placeholder per parameter, so the
      driver binds every value: the clauses, the timestamp (none) and the
      `WHERE` id. */
  lemma UpdatePlaceholdersMatchParams(body: Body, articleId: Json)
    requires UpdateWrite(body, articleId).Some?
    ensures var w := UpdateWrite(body, articleId).value;
      CountChar(w.sql, '%') == |w.params|
  {
    var fs := PresentFields(body, UpdatableFields);
    var w := UpdateWrite(body, articleId).value;
    assert w.sql == UpdateQuery(SetClauses(fs) + [TimestampClause]);
    assert |w.params| == |fs| + 1;
    ClausePlaceholders(fs);
    TotalCountSnoc(SetClauses(fs), TimestampClause, '%');
    TimestampHasNoPlaceholder();
    QueryPlaceholders(SetClauses(fs) + [TimestampClause]);
  }

  /** PUT: any authenticated caller may edit an article they wrote; an
      administrator may edit any. `author` is the author lookup for the
      body's `id` (`None`: no such article; `Some(None)`: the author was
      deleted, so only administrators pass). */
  function EditArticle(user: Option<User>, body: Body, author: Option<Option<nat>>): (o: Outcome)
    ensures user.None? ==> o == Refuse(403, AuthenticationRequired)
    ensures o.status == 200 <==>
      user.Some? && Truthy(Get(body, "id")) && author.Some?
      && (author.value == Some(user.value.id) || user.value.role == AdministratorRole)
    ensures user.Some? && !Truthy(Get(body, "id")) ==> o == Refuse(400, ArticleIdRequired)
    ensures user.Some? && Truthy(Get(body, "id")) && author.None? ==> o == Refuse(404, ArticleNotFound)
    ensures (user.Some? && Truthy(Get(body, "id")) && author.Some?
             && author.value != Some(user.value.id) && user.value.role != AdministratorRole) ==> o == Refuse(403, AccessDenied)
    ensures o.status == 200 ==> o.write == UpdateWrite(body, body["id"])
    ensures o.status != 200 ==> o.write.None?
  {
    if user.None? then Refuse(403, AuthenticationRequired)
    else if !Truthy(Get(body, "id")) then Refuse(400, ArticleIdRequired)
    else if author.None? then Refuse(404, ArticleNotFound)
    else if author.value != Some(user.value.id) && user.value.role != AdministratorRole then Refuse(403, AccessDenied)
    else Outcome(200, "", UpdateWrite(body, body["id"]))
  }

  predicate CanDeleteArticles(user: Option<User>) {
    user.Some? && user.value.role in [ModeratorRole, AdministratorRole]
  }

  /** DELETE: moderators and administrators; the id comes from the query string. */
  function RemoveArticle(user: Option<User>, queryId: string): (o: Outcome)
    ensures o.write.Some? <==> CanDeleteArticles(user) && queryId != ""
    ensures !CanDeleteArticles(user) ==> o == Refuse(403, AccessDenied)
    ensures CanDeleteArticles(user) && queryId == "" ==> o == Refuse(400, IdRequired)
    ensures o.write.Some? ==> o.status == 200 && o.write.value == DeleteArticle(queryId)
  {
    if !CanDeleteArticles(user) then Refuse(403, AccessDenied)
    else if queryId == "" then Refuse(400, IdRequired)
    else Done(200, DeleteArticle(queryId))
  }

  // ------------------------------------------------------------------
  // Users (`handle_users`)
  // ------------------------------------------------------------------

  predicate IsSuperAdmin(user: Option<User>) {
    user.Some? && user.value.steamId == SuperAdminSteamId
  }

  /** The roles an update may assign. */
  const AssignableRoles: seq<string> := [EditorRole, ModeratorRole, AdministratorRole]

  /** PUT (past the super-admin gate): id and role must be truthy and the
      role one of the three assignable roles. */
  function AssignRole(body: Body): (o: Outcome)
    ensures o.write.Some? <==>
      Truthy(Get(body, "id")) && Get(body, "role").JStr? && Get(body, "role").s in AssignableRoles
    ensures o.write.Some? ==> o.status == 200 && o.write.value == SetRole(body["id"], body["role"].s)
    ensures o.write.None? ==> o.status == 400
  {
    var role := Get(body, "role");
    if !Truthy(Get(body, "id")) || !Truthy(role) then Refuse(400, IdAndRoleRequired)
    else if !(role.JStr? && role.s in AssignableRoles) then Refuse(400, InvalidRole)
    else Done(200, SetRole(body["id"], role.s))
  }

  /** The `no_access` role, offered by the users tab, is refused by the backend. */
  lemma NoAccessCannotBeAssigned(body: Body)
    requires Truthy(Get(body, "id")) && Get(body, "role") == JStr(NoAccessRole)
    ensures AssignRole(body) == Refuse(400, InvalidRole)
  {
  }

  /** DELETE (past the gate): `targetSteamId` is the Steam id stored for the
      given id, if any such user exists. The super admin cannot be deleted. */
  function RemoveUser(queryId: string, targetSteamId: Option<string>): (o: Outcome)
    ensures o.write.Some? <==> queryId != "" && targetSteamId != Some(SuperAdminSteamId)
    ensures o.write.Some? ==> o.status == 200 && o.write.value == DeleteUser(queryId)
    ensures queryId == "" ==> o == Refuse(400, IdRequired)
    ensures queryId != "" && targetSteamId == Some(SuperAdminSteamId) ==> o == Refuse(400, CannotDeleteSuperAdmin)
  {
    if queryId == "" then Refuse(400, IdRequired)
    else if targetSteamId == Some(SuperAdminSteamId) then Refuse(400, CannotDeleteSuperAdmin)
    else Done(200, DeleteUser(queryId))
  }

  // ------------------------------------------------------------------
  // Dispatch (`handler` and the `handle_*` method switches)
  // ------------------------------------------------------------------

  datatype Verb = GET | POST | PUT | DELETE | OPTIONS | OtherVerb

  /** One request, with every database answer it may need already looked up. */
  datatype Request = Request(
    verb: Verb, action: string, user: Option<User>, body: Body, queryId: string,
    author: Option<Option<nat>>, targetSteamId: Option<string>)

  /** The response to everything but an upload. `GET` listings answer 200
      without a write; their rows are not modelled. */
  function Handle(r: Request): (o: Outcome)
    ensures r.verb == OPTIONS ==> o == Outcome(200, "", None)
    ensures r.verb != OPTIONS && r.action !in ["categories", "articles", "users", "upload_image"] ==> o == Refuse(404, UnknownAction)
    ensures r.action == "categories" ==>
      (r.verb == GET ==> o == Outcome(200, "", None))
      && (r.verb == POST ==> o == CreateCategory(r.user, r.body))
      && (r.verb == DELETE ==> o == RemoveCategory(r.user, r.queryId))
      && (r.verb in {PUT, OtherVerb} ==> o == Refuse(405, MethodNotAllowed))
    ensures r.action == "articles" ==>
      (r.verb == GET ==> o == Outcome(200, "", None))
      && (r.verb == POST ==> o == CreateArticle(r.user, r.body))
      && (r.verb == PUT ==> o == EditArticle(r.user, r.body, r.author))
      && (r.verb == DELETE ==> o == RemoveArticle(r.user, r.queryId))
      && (r.verb == OtherVerb ==> o == Refuse(405, MethodNotAllowed))
    ensures r.verb != OPTIONS && r.action == "users" && !IsSuperAdmin(r.user) ==> o == Refuse(403, AccessDenied)
    ensures r.action == "users" && IsSuperAdmin(r.user) ==>
      (r.verb == GET ==> o == Outcome(200, "", None))
      && (r.verb == PUT ==> o == AssignRole(r.body))
      && (r.verb == DELETE ==> o == RemoveUser(r.queryId, r.targetSteamId))
      && (r.verb in {POST, OtherVerb} ==> o == Refuse(405, MethodNotAllowed))
    ensures r.action == "upload_image" ==> o.write.None?
    ensures o.write.Some? ==> r.user.Some? && r.verb in {POST, PUT, DELETE}
  {
    if r.verb == OPTIONS then Outcome(200, "", None)
    else if r.action == "categories" then
      match r.verb
      case GET => Outcome(200, "", None)
      case POST => CreateCategory(r.user, r.body)
      case DELETE => RemoveCategory(r.user, r.queryId)
      case PUT | OtherVerb => Refuse(405, MethodNotAllowed)
    else if r.action == "articles" then
      match r.verb
      case GET => Outcome(200, "", None)
      case POST => CreateArticle(r.user, r.body)
      case PUT => EditArticle(r.user, r.body, r.author)
      case DELETE => RemoveArticle(r.user, r.queryId)
      case OtherVerb => Refuse(405, MethodNotAllowed)
    else if r.action == "users" then
      if !IsSuperAdmin(r.user) then Refuse(403, AccessDenied)
      else
        match r.verb
        case GET => Outcome(200, "", None)
        case PUT => AssignRole(r.body)
        case DELETE => RemoveUser(r.queryId, r.targetSteamId)
        case POST | OtherVerb => Refuse(405, MethodNotAllowed)
    else if r.action == "upload_image" then
      // answered by UploadImage
      Outcome(200, "", None)
    else Refuse(404, UnknownAction)
  }

  /** The access rules hold at the endpoint: a request changes categories
      only for an administrator, deletes an article only for a moderator or
      an administrator, edits an article only for its author or an
      administrator, and touches users only for the super admin. */
  lemma EndpointAccess(r: Request)
    ensures Handle(r).write.Some? && r.action == "categories" ==> IsAdministrator(r.user)
    ensures Handle(r).write.Some? && r.action == "articles" && r.verb == DELETE ==> CanDeleteArticles(r.user)
    ensures (Handle(r).write.Some? && r.action == "articles" && r.verb == PUT && r.user.Some?) ==>
      r.author.Some? && (r.author.value == Some(r.user.value.id) || r.user.value.role == AdministratorRole)
    ensures Handle(r).write.Some? && r.action == "users" ==> IsSuperAdmin(r.user)
  {
  }

  // ------------------------------------------------------------------
  // Image upload (`handle_upload_image`)
  // ------------------------------------------------------------------

  predicate IsJpegName(f: string) {
    EndsWith(Lower(f), ".jpg") || EndsWith(Lower(f), ".jpeg")
  }

  /** The stored content type, by case-insensitive file-name suffix. */
  function ContentType(filename: string): (t: string)
    ensures t == "image/jpeg" <==> IsJpegName(filename)
    ensures t == "image/gif" <==> !IsJpegName(filename) && EndsWith(Lower(filename), ".gif")
    ensures t == "image/webp" <==> !IsJpegName(filename) && !EndsWith(Lower(filename), ".gif") && EndsWith(Lower(filename), ".webp")
    ensures t == "image/png" <==> !IsJpegName(filename) && !EndsWith(Lower(filename), ".gif") && !EndsWith(Lower(filename), ".webp")
  {
    var lower := Lower(filename);
    if EndsWith(lower, ".jpg") || EndsWith(lower, ".jpeg") then "image/jpeg"
    else if EndsWith(lower, ".gif") then "image/gif"
    else if EndsWith(lower, ".webp") then "image/webp"
    else "image/png"
  }

  /** Upper- and lower-case names get the same type. */
  lemma ContentTypeIgnoresCase(filename: string)
    ensures ContentType(Lower(filename)) == ContentType(filename)
  {
    LowerIdempotent(filename);
  }

  /** The stored extension: the text after the last dot, in its original
      case, or `png` for a name without a dot. */
  function FileExtension(filename: string): (ext: string)
    ensures '.' !in ext
    ensures '.' !in filename ==> ext == "png"
    ensures '.' in filename ==> ext == filename[LastIndex(filename, '.') + 1..]
  {
    if '.' in filename then
      var parts := Split(filename, '.');
      var last := parts[|parts| - 1];
      JoinLast(parts, '.');
      LastIndexAfter(Join(parts[..|parts| - 1], '.'), last, '.');
      last
    else "png"
  }

  /** A name's extension is what follows its last dot, case kept, even
      where the content type was matched case-insensitively. */
  lemma ExtensionKeepsCase(stem: string, ext: string)
    requires '.' !in ext
    ensures FileExtension(stem + "." + ext) == ext
  {
    var f := stem + "." + ext;
    assert f == stem + ['.'] + ext;
    assert f[|stem|] == '.';
    LastIndexAfter(stem, ext, '.');
  }

  /** The base64 text of a data URL: with a comma, the piece between the
      first comma and the next one (or the end); without, the whole string. */
  function DataUrlPayload(image: string): (payload: string)
    ensures ',' !in payload
           || (',' !in image && payload == image)
    ensures ',' !in image ==> payload == image
    ensures ',' in image ==> (
      var start := FirstIndex(image, ',') + 1;
      StartsWith(image[start..], payload)
      && (start + |payload| == |image| || image[start + |payload|] == ','))
  {
    if ',' in image then
      var parts := Split(image, ',');
      SplitHead(image, ',');
      var i := FirstIndex(image, ',');
      assert image[..i] == parts[0];
      assert image[i + 1..] == Join(parts[1..], ',');
      parts[1]
    else image
  }

  /** A data URL as the browser writes it (`data:<type>;base64,<payload>`)
      gives back its payload. */
  lemma DataUrlRoundTrip(mediaType: string, payload: string)
    requires ',' !in mediaType && ',' !in payload
    ensures DataUrlPayload("data:" + mediaType + ";base64," + payload) == payload
  {
    var head := "data:" + mediaType + ";base64";
    assert "data:" + mediaType + ";base64," + payload == head + [','] + payload;
    assert ',' !in head by {
      assert head == "data:" + mediaType + ";base64";
    }
    SplitTwo(head, payload, ',');
  }

  const CdnPrefix: string := "https://cdn.poehali.dev/projects/"
  const UploadFailedPrefix: string := "Upload failed: "

  /** The object written to the `files` bucket. */
  datatype S3Put = S3Put(key: string, contentType: string, data: seq<bv8>)

  datatype UploadOutcome = UploadOutcome(status: nat, error: string, put: Option<S3Put>, url: string)

  /** The object key: `wiki/<day>/<hex>.<extension>`. */
  function UploadKey(day: string, hex: string, filename: string): (key: string)
    ensures StartsWith(key, "wiki/" + day + "/" + hex + ".")
    ensures EndsWith(key, "." + FileExtension(filename))
    ensures |key| == |"wiki/" + day + "/" + hex + "."| + |FileExtension(filename)|
  {
    var key := "wiki/" + day + "/" + hex + "." + FileExtension(filename);
    assert key == ("wiki/" + day + "/" + hex + ".") + FileExtension(filename);
    assert key == "wiki/" + day + "/" + hex + ("." + FileExtension(filename));
    key
  }

  /** `body.get(key, default)`. */
  function GetOr(body: Body, key: string, default: string): Json {
    if key in body then body[key] else JStr(default)
  }

  /** POST only, authenticated callers only. `body` is `None` when the
      request body does not parse to a JSON object (malformed text, `null`,
      a list or a scalar): the parse and `body.get` run inside the handler's
      error trap, so that is answered 500 too. `image` and `filename`
      default to "" and `image.png`; a value that is not a string fails like
      the string operations on it, with 500. `b64decode` answers `None` for
      text that is not base64; `stored` says whether the storage write
      succeeded; `day`, `hex` and `accessKey` are the date, the random
      name and the storage key id. */
  function UploadImage(verb: Verb, user: Option<User>, body: Option<Body>, b64decode: string -> Option<seq<bv8>>,
                       day: string, hex: string, accessKey: string, stored: bool): (o: UploadOutcome)
    ensures verb != POST ==> o.status == 405 && o.put.None?
    ensures verb == POST && user.None? ==> o.status == 403 && o.put.None?
    ensures verb == POST && user.Some? && body.None? ==> o.status == 500 && o.put.None?
    ensures verb == POST && user.Some? && body.Some? ==>
      var image := GetOr(body.value, "image", "");
      (o.status == 200 <==> image.JStr? && b64decode(DataUrlPayload(image.s)).Some?
                            && GetOr(body.value, "filename", "image.png").JStr? && stored)
    ensures o.status == 200 ==> o.put.Some? && o.url == CdnPrefix + accessKey + "/bucket/" + o.put.value.key
    ensures o.status == 200 ==> body.Some?
    ensures o.status == 200 && body.Some? ==> (
      var filename := GetOr(body.value, "filename", "image.png");
      var image := GetOr(body.value, "image", "");
      filename.JStr? && o.put.value.key == UploadKey(day, hex, filename.s)
      && o.put.value.contentType == ContentType(filename.s)
      && image.JStr? && o.put.value.data == b64decode(DataUrlPayload(image.s)).value)
    ensures o.status == 500 ==> StartsWith(o.error, UploadFailedPrefix)
    ensures o.status in {200, 403, 405, 500}
  {
    var failed := UploadOutcome(500, UploadFailedPrefix, None, "");
    if verb != POST then UploadOutcome(405, MethodNotAllowed, None, "")
    else if user.None? then UploadOutcome(403, AuthenticationRequired, None, "")
    else if body.None? then failed
    else
      var image := GetOr(body.value, "image", "");
      var filename := GetOr(body.value, "filename", "image.png");
      if !image.JStr? then failed
      else
        match b64decode(DataUrlPayload(image.s))
        case None => failed
        case Some(data) =>
          if !filename.JStr? then failed
          else
            var key := UploadKey(day, hex, filename.s);
            if !stored then failed
            else UploadOutcome(200, "", Some(S3Put(key, ContentType(filename.s), data)), CdnPrefix + accessKey + "/bucket/" + key)
  }

  // ------------------------------------------------------------------
  // Agreement with the admin panel's flags
  // ------------------------------------------------------------------

  /** The categories tab is shown exactly to the users the category writes accept. */
  lemma CategoriesTabMatchesBackend(u: User)
    ensures AdminPanel.CategoriesTab in AdminPanel.VisibleTabs(AdminPanel.PermissionsOf(u)) <==> IsAdministrator(Some(u))
  {
  }

  /** The users tab is shown exactly to the users the user endpoints accept. */
  lemma UsersTabMatchesBackend(u: User)
    ensures AdminPanel.UsersTab in AdminPanel.VisibleTabs(AdminPanel.PermissionsOf(u)) <==> IsSuperAdmin(Some(u))
  {
  }

  /** The panel's delete permission is the backend's article-delete rule. */
  lemma DeleteFlagMatchesBackend(u: User)
    ensures AdminPanel.PermissionsOf(u).canDelete <==> CanDeleteArticles(Some(u))
  {
  }

  /** An editor, allowed to edit by the panel, is refused on an article written by someone else. */
  lemma EditorCannotEditOthers(u: User, body: Body, authorId: nat)
    requires u.role == EditorRole && authorId != u.id && Truthy(Get(body, "id"))
    ensures AdminPanel.PermissionsOf(u).canEdit
    ensures EditArticle(Some(u), body, Some(Some(authorId))) == Refuse(403, AccessDenied)
  {
  }

  /** Article creation checks authentication only: a `no_access` user, blocked
      by the panel, is still accepted by the backend. */
  lemma NoAccessMayCreateArticles(u: User, body: Body)
    requires u.role == NoAccessRole
    requires Truthy(Get(body, "title")) && Truthy(Get(body, "description")) && Truthy(Get(body, "content"))
    ensures AdminPanel.PanelScreen(Some(u)).AccessDenied?
    ensures CreateArticle(Some(u), body).status == 201
  {
  }
}
