# Game-community wiki — a verified model of its core

The wiki of a game-server community has a React front end with an admin panel, and two Python cloud functions behind it:
`wiki-api` handles categories, articles, users and image upload, and `steam-auth` handles Steam
OpenID sign-in. This project models the parts of that system that make decisions or build text:

- **the two article editors.** These are classes holding the HTML buffer, the textarea selection
  and the editor's form fields. Each toolbar action is a method whose postcondition gives the new
  buffer exactly; the selection is given exactly where the source sets it.
- **the save-time link pass `fixLinks`.** It is a hand-written scanner for the pattern
  `href="([^"]+)"`, with proofs that only matched spans change and that the pass is idempotent.
- **the admin panel.** This covers the role flags, the `no_access` gate, the tab strip and the
  article save and copy-link handlers.
- **the public index.** This is the article filter and the category count.
- **the wiki API.** This covers bearer-token parsing and its round trip with the login page, every
  handler's access rule and status codes, the article `PUT` clause builder, and upload naming and
  typing.
- **the Steam sign-in.** This covers the `checkid_setup` parameters and realm, the
  `check_authentication` request, Steam-id extraction, and the admit/deny decision against the
  users table.

Modules:

- `Text`: the string operations the sources use, written out once.
- `Users`: the user record and role names.
- `Markup`: the selection wrap and the HTML fragments.
- `RichTextEditor` and `SimpleTextEditor`.
- `LinkFix`, `AdminPanel`, `ArticleForm`, `WikiIndex`, `WikiApi` and `SteamAuth`.

Some things outside the model become parameters:

- database lookups;
- Steam's answers;
- the upload's base64 decoder, date and random name;
- `urlencode`;
- the browser's `toLowerCase`.

Database writes are returned as values (`WikiApi.Write`). The users table that sign-in updates is
the class `SteamAuth.UserStore`.

## Model

| member | source | states |
|---|---|---|
| Markup.Wrap | src/components/RichTextEditor.tsx:30-50 | the text before the selection, the open tag, the payload (the selection, or the placeholder when the selection is empty), the close tag and the text after the selection appear in that order; the new selection starts right after the open tag and covers exactly the payload |
| Markup.WrapUnwrap | src/components/RichTextEditor.tsx:34-47 | deleting the two inserted tags from a wrapped non-empty selection gives back the original buffer |
| Markup.WrapWithoutCloseTag | src/components/SimpleTextEditor.tsx:143 | with an empty close tag and no placeholder, the open tag is inserted at the selection start and nothing else changes (the BR button) |
| Markup.Splice | src/components/RichTextEditor.tsx:65-66 | the selection is replaced by the fragment; the text on both sides is kept |
| Markup.NormalizeLinkUrl | src/components/RichTextEditor.tsx:100-102 | every result has an `http://` or `https://` scheme; a URL that has one is kept, and any other gets exactly `https://` in front |
| Markup.NormalizeLinkUrlIdempotent | src/components/RichTextEditor.tsx:100-102 | normalising twice is normalising once |
| Markup.ListHtml | src/components/RichTextEditor.tsx:117-124 | the list opens with `<ol ` exactly when `ordered` (otherwise `<ul `) and closes with the matching tag |
| Markup.ListHtmlItems | src/components/RichTextEditor.tsx:119-123 | between its opening and closing tags the list holds exactly the three placeholder items, one `<li>` line each, in order |
| RichTextEditor.Editor.InsertTag | src/components/RichTextEditor.tsx:30-50 | without a textarea nothing changes; otherwise the buffer and selection become `Markup.Wrap` of the old buffer and selection |
| RichTextEditor.Editor.ApplyFormat | src/components/RichTextEditor.tsx:216-232 | each wrapping toolbar button is `InsertTag` with its tags; the headings carry a placeholder |
| RichTextEditor.Editor.ApplyAlignment | src/components/RichTextEditor.tsx:169-171 | alignment is `InsertTag` with a `text-align` div and its placeholder, so it respects the selection |
| RichTextEditor.Editor.InsertColoredText | src/components/RichTextEditor.tsx:52-73 | with an empty selection the buffer is unchanged and an alert is raised; otherwise the selection is replaced by a colour span holding the selected text |
| RichTextEditor.Editor.InsertHighlight | src/components/RichTextEditor.tsx:75-96 | the same, with a `mark` in the background colour |
| RichTextEditor.Editor.InsertLink | src/components/RichTextEditor.tsx:98-107 | an empty URL changes nothing; otherwise an anchor to the normalised URL is appended, captioned with the link text or else the raw URL, and both fields are cleared |
| RichTextEditor.Editor.InsertImage | src/components/RichTextEditor.tsx:109-115 | an empty URL changes nothing; otherwise an image is appended, its alt text defaulting to `Изображение`, and both fields are cleared |
| RichTextEditor.Editor.InsertList | src/components/RichTextEditor.tsx:117-125 | the old buffer is a prefix of the new one, which ends with the list fragment |
| RichTextEditor.Editor.InsertDivider | src/components/RichTextEditor.tsx:127-130 | append only |
| RichTextEditor.Editor.InsertCodeBlock | src/components/RichTextEditor.tsx:132-135 | append only |
| RichTextEditor.Editor.InsertBlockquote | src/components/RichTextEditor.tsx:137-140 | append only |
| RichTextEditor.Editor.InsertTable | src/components/RichTextEditor.tsx:142-167 | append only |
| RichTextEditor.Editor.FinishUpload | src/components/RichTextEditor.tsx:196-204 | a returned URL appends an image with the file name as alt text; without one an alert is raised and the buffer is kept |
| RichTextEditor.Editor.TogglePreview | src/components/RichTextEditor.tsx:274-287 | the preview button flips preview mode, which unmounts or remounts the textarea; the buffer and selection are kept |
| SimpleTextEditor.Editor.InsertTag | src/components/SimpleTextEditor.tsx:22-37 | without a textarea nothing changes; otherwise the selection is wrapped with no placeholder and the selection moves by the open tag's length |
| SimpleTextEditor.Editor.ApplyFormat | src/components/SimpleTextEditor.tsx:134-143 | the six buttons are `InsertTag` with their tags, and BR is `<br/>` with an empty close tag |
| SimpleTextEditor.Editor.InsertColoredText | src/components/SimpleTextEditor.tsx:39-60 | with an empty selection the buffer is unchanged and an alert is raised; otherwise the selection is replaced by a colour span |
| SimpleTextEditor.Editor.InsertLink | src/components/SimpleTextEditor.tsx:62-68 | the URL is used verbatim with no normalisation; the caption is the link text or else the URL; the fields are cleared |
| SimpleTextEditor.Editor.InsertImage | src/components/SimpleTextEditor.tsx:70-76 | an empty URL changes nothing; otherwise an image is appended with the default alt text and the fields are cleared |
| SimpleTextEditor.Editor.InsertList | src/components/SimpleTextEditor.tsx:78-86 | append only; the list tag is chosen by `ordered` |
| SimpleTextEditor.Editor.InsertDivider | src/components/SimpleTextEditor.tsx:88-91 | append only |
| SimpleTextEditor.Editor.FinishUpload | src/components/SimpleTextEditor.tsx:116-124 | a returned URL appends an image; without one an alert is raised |
| LinkFix.FixLinks | src/pages/AdminPanel.tsx:119-126 | the pass never shortens the text, and text without a double quote comes back unchanged (the other rows below characterise it fully) |
| LinkFix.HrefAt | src/pages/AdminPanel.tsx:120 | a match starts here exactly when the text opens with `href="`, a non-quote follows and a closing quote exists; the URL found is quote-free and non-empty |
| LinkFix.HrefAtComplete | src/pages/AdminPanel.tsx:120 | the match is unique: any quote-free `href="u"` the text opens with is the one found |
| LinkFix.Fix | src/pages/AdminPanel.tsx:121-124 | URLs starting with `http://`, `https://`, `/` or `#` are kept; any other gets `https://` in front; the result is always kept by a second pass |
| LinkFix.Scan | src/pages/AdminPanel.tsx:120 | the pieces render back to the input, and each piece is a match exactly when the pattern matches where it starts, with that URL; so the split is the leftmost, non-overlapping one |
| LinkFix.FixLinksPiecewise | src/pages/AdminPanel.tsx:119-126 | only matched spans change: the output is the input's pieces with each matched URL passed through `Fix` |
| LinkFix.FixLinksAtMatch | src/pages/AdminPanel.tsx:120-125 | a span `href="u"` is rewritten to `href="` + Fix(u) + `"`, and the scan continues after it |
| LinkFix.PlainTextCopied | src/pages/AdminPanel.tsx:120 | text with no `h` is copied unchanged ahead of the rest |
| LinkFix.EmbeddedHrefRewritten | src/pages/AdminPanel.tsx:120 | matching is purely textual: an `href="…"` preceded by any `h`-free text, such as `data-`, is rewritten |
| LinkFix.NoQuoteFixed | src/pages/AdminPanel.tsx:120 | text without a quote past its opening characters has no match and is unchanged |
| LinkFix.NoMatchPreserved | src/pages/AdminPanel.tsx:120-125 | a position where no match starts still has none after the rest of the text is fixed |
| LinkFix.FixLinksIdempotent | src/components/admin/ArticlesTab.tsx:47-54 | running the pass twice equals running it once |
| AdminPanel.PermissionsOf | src/pages/AdminPanel.tsx:326-329 | `isAdmin` implies `canDelete`, which implies `canEdit` |
| AdminPanel.PermissionsByRole | src/pages/AdminPanel.tsx:326-328 | editors only edit, moderators also delete, administrators also manage categories, and any other role gets none of these |
| AdminPanel.SuperAdminIgnoresRole | src/pages/AdminPanel.tsx:329 | super-admin status depends on the Steam id alone |
| AdminPanel.VisibleTabs | src/pages/AdminPanel.tsx:366-380 | articles is always the first tab; categories is shown exactly for administrators and users exactly for the super admin |
| AdminPanel.PanelScreen | src/pages/AdminPanel.tsx:287-329 | nothing renders without a user; `no_access` gets the blocking screen with the Steam id; everyone else gets the panel with their flags and tabs |
| AdminPanel.NoAccessBlocksEveryone | src/pages/AdminPanel.tsx:292 | the gate comes before the flags, so even the super admin's Steam id with `no_access` is blocked |
| ArticleForm.ArticleLink | src/components/admin/ArticlesTab.tsx:114 | the link is the origin, then `/wiki/article/`, then decimal digits that read back to the id |
| ArticleForm.ArticleLinkInjective | src/components/admin/ArticlesTab.tsx:114 | different articles get different links |
| ArticleForm.ArticleForm.SaveArticle | src/components/admin/ArticlesTab.tsx:56-93 | with no token there is no request and nothing changes; otherwise the verb is PUT exactly when an article is being edited, and the content sent is `fixLinks` of the buffer (so a second pass would not change it); after a delivered request the form is reset, and after a failure an alert is raised and the form is kept |
| ArticleForm.ArticleForm.CopyArticleLink | src/components/admin/ArticlesTab.tsx:113-118 | the copied URL is `ArticleLink` and the copied id is marked |
| ArticleForm.ArticleForm.ClearCopied | src/components/admin/ArticlesTab.tsx:117 | when the timer fires, no article is marked as copied |
| WikiIndex.FilteredArticles | src/pages/Index.tsx:95-100 | the result is a sub-list of the articles in their order; each article occurs in it as often as in the input when it passes, and not at all otherwise. An article passes when the lower-cased query is in its lower-cased title or description and the category is `Все` or its own |
| WikiIndex.EmptyQueryKeepsAll | src/pages/Index.tsx:96-98 | an empty query with category `Все` keeps every article |
| WikiIndex.EmptyQuerySelectsCategory | src/pages/Index.tsx:96-98 | an empty query keeps exactly the articles of the chosen category |
| WikiIndex.ContentNotSearched | src/pages/Index.tsx:96-97 | the article body never affects the filter |
| WikiIndex.RealCategories | src/pages/Index.tsx:88 | the category list without `Все`: exactly the other entries, no longer than the list |
| WikiIndex.CategoryCountExcludesAll | src/pages/Index.tsx:171 | the displayed count `categories.length - 1` is the number of real categories, because the list built at line 88 starts with `Все` |
| WikiIndex.CurrentView | src/pages/Index.tsx:180 | an article view is shown exactly when one is selected; otherwise the filtered list is shown |
| WikiIndex.SelectCategory | src/pages/Index.tsx:144-147 | a category click selects that category, closes the open article and keeps the search text |
| WikiIndex.SelectCategoryShowsList | src/pages/Index.tsx:144-147 | choosing a category clears the selected article, so the filtered list of that category is shown |
| WikiApi.AuthHeader | backend/wiki-api/index.py:397 | the header read is `X-Authorization` whenever that header is present; otherwise `authorization` when that header is present; otherwise empty |
| WikiApi.XAuthorizationFirst | backend/wiki-api/index.py:397 | `X-Authorization` takes precedence over `authorization` |
| WikiApi.BearerToken | backend/wiki-api/index.py:402 | the token is no longer than the header and neither starts nor ends with whitespace; a header without `Bearer ` gives the header stripped |
| WikiApi.BearerPrefixDropped | backend/wiki-api/index.py:402 | `Bearer ` followed by a token gives what the token alone gives |
| WikiApi.BearerDroppedAnywhere | backend/wiki-api/index.py:402 | a `Bearer ` after any `B`-free text is cut out, and the removal goes on through the rest of the header, so every occurrence is removed and not only a leading one |
| Text.RemoveAllAfterFree | backend/wiki-api/index.py:402 | `replace(pattern, '')`: text before an occurrence that holds no first character of the pattern is kept, the occurrence is removed, and the rest is scanned the same way |
| WikiApi.ParseCredentials | backend/wiki-api/index.py:408-411 | credentials exist exactly when the token has a colon; the Steam id is the text before the first colon, and the user id is the text after it up to the next colon or the end |
| WikiApi.Credentials | backend/wiki-api/index.py:399-411 | a request carries credentials exactly when its header is non-empty and its token has a colon; they are the parse of that token |
| WikiApi.ValidateUser | backend/wiki-api/index.py:393-436 | a request without credentials identifies nobody; one with credentials identifies the row the lookup finds for its Steam id and user id |
| WikiApi.NoUserWithoutCredentials | backend/wiki-api/index.py:399-411 | an empty header, an empty token or a colon-free token yields no user |
| WikiApi.LoginToken | src/pages/AdminLogin.tsx:34 | for a colon-free Steam id, the stored token parses back to that Steam id and the decimal user id |
| WikiApi.LoginTokenRoundTrip | src/pages/AdminLogin.tsx:34 | the token the login page stores, sent as a bearer header, parses back to its Steam id and user id |
| WikiApi.CreateCategory | backend/wiki-api/index.py:45-73 | non-administrators get 403 `Access denied`; an administrator without a name gets 400 `Name is required`; otherwise 201 with the insert of the name and the icon, which defaults to `BookOpen` |
| WikiApi.RemoveCategory | backend/wiki-api/index.py:75-91 | non-administrators get 403; an administrator without an id gets 400 `ID is required`; otherwise 200 deleting that id |
| WikiApi.CreateArticle | backend/wiki-api/index.py:140-176 | no user gets 403 `Authentication required`; a user missing a truthy title, description or content gets 400 `Missing required fields`; otherwise 201 inserting the body's title, description, content, category and preview image with the caller as author |
| WikiApi.PresentFields | backend/wiki-api/index.py:202-220 | the present fields are exactly the listed fields the body has, in list order |
| WikiApi.BuildUpdate | backend/wiki-api/index.py:199-224 | one `field = %s` clause and one value per present field, in field order; the timestamp clause and the article id are added last only when a field is present |
| WikiApi.UpdateWrite | backend/wiki-api/index.py:223-228 | an update is issued exactly when some field is present |
| WikiApi.UpdatePlaceholdersMatchParams | backend/wiki-api/index.py:222-227 | the statement has as many `%` placeholders as there are parameters |
| WikiApi.EditArticle | backend/wiki-api/index.py:178-230 | no user gets 403; no id gets 400 `Article ID is required`; an unknown article gets 404 `Article not found`; a caller who is neither the author nor an administrator gets 403 `Access denied`; otherwise 200 with `UpdateWrite`; only 200 writes |
| WikiApi.RemoveArticle | backend/wiki-api/index.py:232-247 | users who are neither moderators nor administrators get 403; a permitted caller without an id gets 400 `ID is required`; otherwise 200 deleting that id |
| WikiApi.AssignRole | backend/wiki-api/index.py:291-308 | an update is made exactly when the id is truthy and the role is one of editor, moderator or administrator; otherwise 400 |
| WikiApi.NoAccessCannotBeAssigned | backend/wiki-api/index.py:299-300 | `no_access`, offered by the users tab, gets 400 `Invalid role` |
| WikiApi.RemoveUser | backend/wiki-api/index.py:310-327 | no id gets 400 `ID is required`; the super admin's row gets 400 `Cannot delete super admin`; otherwise 200 deleting that user |
| WikiApi.Handle | backend/wiki-api/index.py:6-25 | OPTIONS gets 200; an unknown action gets 404; each action and verb goes to its handler, and verbs a resource does not serve get 405; the user endpoints refuse anyone but the super admin before looking at the verb; only authenticated POST, PUT or DELETE requests write |
| WikiApi.EndpointAccess | backend/wiki-api/index.py:6-25 | through the dispatcher, category writes need an administrator, article deletes a moderator or administrator, article edits the author or an administrator, and user changes the super admin |
| WikiApi.ContentType | backend/wiki-api/index.py:360-366 | `.jpg`/`.jpeg` give jpeg, then `.gif`, then `.webp`, and anything else gives png, all matched on the lower-cased name |
| WikiApi.ContentTypeIgnoresCase | backend/wiki-api/index.py:361 | a name and its lower-case form get the same type |
| WikiApi.FileExtension | backend/wiki-api/index.py:374 | the extension is the dot-free text after the last dot, or `png` when there is no dot |
| WikiApi.ExtensionKeepsCase | backend/wiki-api/index.py:374 | the stored extension keeps the name's case |
| WikiApi.DataUrlPayload | backend/wiki-api/index.py:355-356 | with a comma, the payload is the comma-free text after the first comma, up to the next comma or the end; without a comma it is the whole string |
| WikiApi.DataUrlRoundTrip | backend/wiki-api/index.py:355-356 | a browser data URL `data:<type>;base64,<payload>` gives back its payload |
| WikiApi.UploadKey | backend/wiki-api/index.py:375 | the key is exactly `wiki/<day>/<hex>.` followed by the extension |
| WikiApi.UploadImage | backend/wiki-api/index.py:336-390 | non-POST requests get 405 and unauthenticated ones 403; an authenticated POST whose body is not a JSON object gets 500; otherwise it succeeds exactly when the image is a string whose payload decodes, the file name is a string and the storage write succeeds; then the decoded bytes are stored under `UploadKey` with `ContentType`, and the CDN URL ending in the key is returned; failures are 500 `Upload failed: …` |
| WikiApi.CategoriesTabMatchesBackend | src/pages/AdminPanel.tsx:370 | the categories tab is shown exactly to the users the category writes accept |
| WikiApi.UsersTabMatchesBackend | src/pages/AdminPanel.tsx:376 | the users tab is shown exactly to the users the user endpoints accept |
| WikiApi.DeleteFlagMatchesBackend | backend/wiki-api/index.py:235 | the panel's `canDelete` is the backend's article-delete rule |
| WikiApi.EditorCannotEditOthers | backend/wiki-api/index.py:196 | an editor, who may edit in the panel, gets 403 on someone else's article |
| WikiApi.NoAccessMayCreateArticles | backend/wiki-api/index.py:143-144 | a `no_access` user is blocked by the panel but may still create articles through the API |
| SteamAuth.ReturnUrl | backend/steam-auth/index.py:41 | a missing `return_url` defaults to `http://localhost:5173/adm` |
| SteamAuth.Realm | backend/steam-auth/index.py:61 | the realm is the URL up to its last slash, or the whole URL when it has none |
| SteamAuth.RealmDropsLastSegment | backend/steam-auth/index.py:61 | the realm of `base/page` is `base` |
| SteamAuth.LoginParams | backend/steam-auth/index.py:57-64 | six parameters with distinct keys, carrying the return URL and its realm |
| SteamAuth.LoginParamsContent | backend/steam-auth/index.py:57-64 | the request asks for `checkid_setup`, returns to the return URL, names its realm and uses identifier select |
| SteamAuth.LoginUrl | backend/steam-auth/index.py:66-67 | the URL is Steam's login endpoint, `?`, then the encoded parameters |
| SteamAuth.CheckAuthRequest | backend/steam-auth/index.py:144-145 | the callback parameters with only `openid.mode` set to `check_authentication` |
| SteamAuth.MarkerAnywhereIsValid | backend/steam-auth/index.py:153 | a reply counts as valid when it contains `is_valid:true` anywhere |
| SteamAuth.TrailingDigits | backend/steam-auth/index.py:84 | the longest run of digits ending the text |
| SteamAuth.SteamIdFromClaim | backend/steam-auth/index.py:84-94 | an extracted id is a non-empty run of digits that ends the identifier after `/id/` |
| SteamAuth.SteamIdOfClaim | backend/steam-auth/index.py:84-94 | every identifier ending in `/id/<digits>` yields those digits |
| SteamAuth.ValidateSession | backend/steam-auth/index.py:248-258 | the session check always answers 200 with `valid: false` |
| SteamAuth.Route | backend/steam-auth/index.py:14-42 | OPTIONS first; then a callback whenever a claimed id is present; then a session check exactly for a POST with a token; otherwise the login URL for the return URL |
| SteamAuth.SavedUser | backend/steam-auth/index.py:185-233 | no user exactly when the Steam id is unknown and is not the super admin's |
| SteamAuth.ReturningUserKeepsRole | backend/steam-auth/index.py:199-213 | a known user keeps id and role; name and avatar come from Steam |
| SteamAuth.OnlySuperAdminIsCreated | backend/steam-auth/index.py:216-233 | the only account created on sign-in is the super admin's, as administrator |
| SteamAuth.UserStore.SaveUser | backend/steam-auth/index.py:185-233 | the returned user is `SavedUser` of the old table; the table gains or updates exactly that row; a new row's id is fresh |
| SteamAuth.HandleCallback | backend/steam-auth/index.py:70-138 | Steam is asked about `CheckAuthRequest` of the callback; no confirmation gives 401, no extractable id 400, no profile data 500, and a refused user 403, each leaving the table as it was; otherwise 200 with `SavedUser` of the old table, which is stored under the Steam id, and the next id advances exactly when a row is created |

## Left out

- Rendering is not modelled: JSX, styling, dialogs, the preview pane and `dangerouslySetInnerHTML`.
- Browser and network effects are not modelled: `fetch`, `loadData`, `localStorage`,
  `FileReader`, the clipboard, `alert` and `confirm`. Their results are method inputs: the stored
  token, whether the save request was delivered, and the upload reply's URL.
- The `setTimeout` that restores focus and selection is not modelled. Only the selection pair it
  sets is modelled, as the editor's new selection fields.
- The upload race is not modelled. `handleFileUpload` appends to the buffer captured when the
  upload began, so concurrent edits can be lost. The model appends to the current buffer.
- Libraries are not modelled: SQL execution, S3 `put_object`, base64 decoding, `urlencode`,
  `sha256`, `time`, `uuid`, `datetime` and the session token. Decoding, the date, the random name
  and the encoder are parameters. The 200 sign-in reply's session token is not computed.
- `WikiApi.UploadImage`: the 500 error keeps only its fixed prefix `Upload failed: `, because the
  Python exception text is not modelled.
- `WikiApi.Handle`: GET listings answer 200 without their rows. `upload_image` is answered by
  `UploadImage`, so `Handle` leaves it out.
- Errors that escape the category, article and user handlers as gateway failures are not
  modelled: malformed JSON bodies, `int()` on a non-numeric category id, and a missing
  query-string map. In `upload_image` the body is parsed inside the handler's error trap, so a
  body that is not a JSON object is answered 500; `WikiApi.UploadImage` models that case with
  `body == None`. A missing body reads as `{}`, which the caller passes as an empty map.
- `parseInt(selectedCategoryId)` is not modelled. The category id is carried as the selected
  string.
- Lower-casing:
  - `toLowerCase` in the index filter is a parameter, because Unicode case mapping is not modelled;
  - the upload suffix test uses ASCII lower-casing.
- Regex engine details are not modelled. `\d` is ASCII digits, and Python's `$` also matching
  before a trailing newline is ignored.
- `RichTextEditor.Editor.TogglePreview` keeps the last selection when the textarea comes back. A
  freshly mounted textarea may place the caret elsewhere; that is not modelled.
- The users table (`SteamAuth.UserStore`) is keyed by Steam id, so it assumes at most one row
  per Steam id. The source reads the first row of `SELECT … WHERE steam_id = …` and does not
  enforce this.
- Request bodies (`WikiApi.Json`) hold null, booleans, integers and strings only. Arrays,
  objects and floats are not modelled, so the truthiness of a list or object field is not
  covered.
- The caret after a splice or an append is not modelled. The source sets no selection after
  these edits and leaves the caret to the browser, so the selection fields keep their old values.
- `SteamAuth.Route`: `sessionToken` encodes the session token field as a string, with `""` for a
  field that is absent or falsy. Other JSON values (`true`, `1`, a list) are not modelled, so
  their truthiness is not covered.
- Selection offsets are counted in characters of `string`; JavaScript counts UTF-16 code units.
- `fixLinks` exists twice in the source, once in `src/pages/AdminPanel.tsx:119-126` and once in
  `src/components/admin/ArticlesTab.tsx:47-54`. The two copies are the same text, so
  `LinkFix.FixLinks` models both. Likewise `ArticleForm.ArticleForm.SaveArticle` models both
  `handleSaveArticle` copies (`src/pages/AdminPanel.tsx:128-165` and
  `src/components/admin/ArticlesTab.tsx:56-93`).
- `src/App.tsx`, `src/pages/Custom404.tsx`, `src/components/admin/UsersTab.tsx` and
  `src/components/admin/CategoriesTab.tsx` are not part of this model. They are routing and fetch
  wrappers.
