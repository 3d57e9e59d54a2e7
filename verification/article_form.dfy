/** The article dialog of the admin panel (the same code appears in the
    panel page and in its articles tab): saving sends the link-fixed buffer,
    by `PUT` when an article is being edited and `POST` otherwise, and
    copying an article's link builds its public URL. */
module ArticleForm {
  import opened Text
  import opened LinkFix
  import opened Markup

  datatype HttpMethod = Post | Put

  /** The request body and verb of a save; `token` goes into the bearer header. */
  datatype SaveRequest = SaveRequest(
    verb: HttpMethod,
    id: Option<nat>,
    title: string,
    description: string,
    content: string,
    categoryId: string,
    previewImage: Option<string>,
    token: string)

  const SaveFailed: string := "Ошибка при сохранении статьи"
  const ArticlePath: string := "/wiki/article/"

  /** The public link of an article: the site origin, the article path and
      the id in decimal; the id can be read back from the link. */
  function ArticleLink(origin: string, id: nat): (r: string)
    ensures StartsWith(r, origin + ArticlePath)
    ensures var digits := r[|origin + ArticlePath|..]; AllDigits(digits) && DigitsValue(digits) == id
  {
    var r := origin + ArticlePath + NatToString(id);
    assert r[|origin + ArticlePath|..] == NatToString(id);
    DigitsValueOfNatToString(id);
    r
  }

  /** Different articles of one site have different links. */
  lemma ArticleLinkInjective(origin: string, i: nat, j: nat)
    requires ArticleLink(origin, i) == ArticleLink(origin, j)
    ensures i == j
  {
  }

  class ArticleForm {
    /** Id of the article open for editing; `None` for a new article. */
    var editArticle: Option<nat>
    var showDialog: bool
    var articleContent: string
    var previewImage: string
    var selectedCategoryId: string
    /** The article whose link was just copied. */
    var copiedId: Option<nat>

    constructor ()
      ensures editArticle == None && !showDialog && articleContent == "" && previewImage == ""
      ensures selectedCategoryId == "" && copiedId == None
    {
      editArticle, showDialog := None, false;
      articleContent, previewImage, selectedCategoryId := "", "", "";
      copiedId := None;
    }

    /** `handleSaveArticle`. `token` is the stored admin token and
        `delivered` tells whether the request completed without a network
        error. Without a token nothing is sent and nothing changes. With one,
        the request carries the fixed content, `PUT` exactly when editing;
        after delivery the dialog closes and the form is cleared, otherwise
        an alert is shown and the form is kept. */
    method SaveArticle(token: Option<string>, title: string, description: string, delivered: bool)
      returns (request: Option<SaveRequest>, notice: Notice)
      modifies this`editArticle, this`showDialog, this`articleContent, this`previewImage, this`selectedCategoryId
      ensures token == None || token == Some("") ==>
        request == None && notice == Quiet
        && editArticle == old(editArticle) && showDialog == old(showDialog) && articleContent == old(articleContent)
        && previewImage == old(previewImage) && selectedCategoryId == old(selectedCategoryId)
      ensures token.Some? && token.value != "" ==>
        request == Some(SaveRequest(
          if old(editArticle).Some? then Put else Post,
          old(editArticle), title, description,
          FixLinks(old(articleContent)),
          old(selectedCategoryId),
          if old(previewImage) != "" then Some(old(previewImage)) else None,
          token.value))
      ensures request.Some? ==> FixLinks(request.value.content) == request.value.content
      ensures request.Some? && delivered ==>
        notice == Quiet && !showDialog && editArticle == None
        && articleContent == "" && previewImage == "" && selectedCategoryId == ""
      ensures request.Some? && !delivered ==>
        notice == Alert(SaveFailed)
        && editArticle == old(editArticle) && showDialog == old(showDialog) && articleContent == old(articleContent)
        && previewImage == old(previewImage) && selectedCategoryId == old(selectedCategoryId)
    {
      if token == None || token == Some("") {
        return None, Quiet;
      }
      var fixedContent := FixLinks(articleContent);
      FixLinksIdempotent(articleContent);
      var verb := if editArticle.Some? then Put else Post;
      var preview := if previewImage != "" then Some(previewImage) else None;
      request := Some(SaveRequest(verb, editArticle, title, description, fixedContent,
                                  selectedCategoryId, preview, token.value));
      if delivered {
        showDialog, editArticle := false, None;
        articleContent, previewImage, selectedCategoryId := "", "", "";
        notice := Quiet;
      } else {
        notice := Alert(SaveFailed);
      }
    }

    /** `copyArticleLink`: returns the text put on the clipboard and marks
        the article as copied. */
    method CopyArticleLink(origin: string, id: nat) returns (url: string)
      modifies this`copiedId
      ensures url == ArticleLink(origin, id) && copiedId == Some(id)
    {
      url := ArticleLink(origin, id);
      copiedId := Some(id);
    }

    /** The timer that ends the "copied" mark. */
    method ClearCopied()
      modifies this`copiedId
      ensures copiedId == None
    {
      copiedId := None;
    }
  }
}
