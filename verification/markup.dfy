/** The selection-aware wrap and the HTML fragments that the two article
    editors insert into the content buffer, and the rich editor's link-URL
    normalisation. Both editors carry the same fragment literals, so they
    are defined once here. User text is interpolated without escaping. */
module Markup {
  import opened Text

  /** A new buffer together with the textarea selection to restore after repaint. */
  datatype Edit = Edit(text: string, selStart: nat, selEnd: nat)

  /** What the user is shown after an action: nothing, or a blocking alert. */
  datatype Notice = Quiet | Alert(message: string)

  /** `insertTag`: the selection `[s, e)` of `v` is wrapped in `openTag` and
      `closeTag`; an empty selection is filled with `placeholder`. The new
      selection spans exactly the wrapped payload, right after the open tag,
      and the text around the selection is kept. */
  function Wrap(v: string, s: nat, e: nat, openTag: string, closeTag: string, placeholder: string): (r: Edit)
    requires s <= e <= |v|
    ensures r.selStart == s + |openTag| <= r.selEnd
    ensures |r.text| == r.selEnd + |closeTag| + (|v| - e)
    ensures r.text[..s] == v[..s]
    ensures r.text[s..r.selStart] == openTag
    ensures r.text[r.selStart..r.selEnd] == (if s < e then v[s..e] else placeholder)
    ensures r.text[r.selEnd..r.selEnd + |closeTag|] == closeTag
    ensures r.text[r.selEnd + |closeTag|..] == v[e..]
  {
    var selected := v[s..e];
    var insert := if selected != "" then selected else placeholder;
    var text := v[..s] + openTag + insert + closeTag + v[e..];
    var caret := s + |openTag|;
    if selected == "" && placeholder != "" then Edit(text, caret, caret + |insert|)
    else Edit(text, caret, e + |openTag|)
  }

  /** Wrapping loses nothing: deleting the two inserted tags from the result
      of wrapping a non-empty selection gives back the original buffer. */
  lemma WrapUnwrap(v: string, s: nat, e: nat, openTag: string, closeTag: string, placeholder: string)
    requires s < e <= |v|
    ensures var r := Wrap(v, s, e, openTag, closeTag, placeholder);
            r.text[..s] + r.text[r.selStart..r.selEnd] + r.text[r.selEnd + |closeTag|..] == v
  {
    assert v == v[..s] + v[s..e] + v[e..];
  }

  /** An empty close tag and no placeholder insert the open tag at the start
      of the selection, whatever the selection is (the simple editor's BR button). */
  lemma WrapWithoutCloseTag(v: string, s: nat, e: nat, openTag: string)
    requires s <= e <= |v|
    ensures Wrap(v, s, e, openTag, "", "").text == v[..s] + openTag + v[s..]
  {
    var r := Wrap(v, s, e, openTag, "", "");
    assert r.text == r.text[..s] + r.text[s..r.selStart] + r.text[r.selStart..r.selEnd] + r.text[r.selEnd..];
    assert v[s..] == v[s..e] + v[e..];
  }

  /** Replaces the selection `[s, e)` of `v` by `fragment`. */
  function Splice(v: string, s: nat, e: nat, fragment: string): (r: string)
    requires s <= e <= |v|
    ensures |r| == |v| - (e - s) + |fragment|
    ensures r[..s] == v[..s] && r[s..s + |fragment|] == fragment && r[s + |fragment|..] == v[e..]
  {
    v[..s] + fragment + v[e..]
  }

  const HttpScheme: string := "http://"
  const HttpsScheme: string := "https://"

  predicate HasWebScheme(url: string) {
    StartsWith(url, HttpScheme) || StartsWith(url, HttpsScheme)
  }

  /** The rich editor's link URL: a URL without `http://` or `https://`
      gets `https://` in front, and every result carries a web scheme. */
  function NormalizeLinkUrl(url: string): (r: string)
    ensures HasWebScheme(r)
    ensures HasWebScheme(url) ==> r == url
    ensures !HasWebScheme(url) ==> r == HttpsScheme + url
  {
    if StartsWith(url, HttpScheme) || StartsWith(url, HttpsScheme) then url else HttpsScheme + url
  }

  /** Normalising an already normalised URL changes nothing. */
  lemma NormalizeLinkUrlIdempotent(url: string)
    ensures NormalizeLinkUrl(NormalizeLinkUrl(url)) == NormalizeLinkUrl(url)
  {
  }

  const DefaultTextColor: string := "#ff6b35"
  const DefaultHighlightColor: string := "#fef3c7"
  /** Alt text used when the image form leaves it empty ("Image"). */
  const DefaultImageAlt: string := "Изображение"

  const NoSelectionForColor: string := "Выделите текст для изменения цвета"
  const NoSelectionForHighlight: string := "Выделите текст для выделения фона"
  const UploadFailed: string := "Ошибка при загрузке изображения"

  const Heading2Open: string := "<h2 style=\"color: #fff; font-size: 1.875rem; font-weight: 700; margin: 20px 0 12px 0;\">"
  const Heading3Open: string := "<h3 style=\"color: #fff; font-size: 1.5rem; font-weight: 600; margin: 16px 0 10px 0;\">"

  /** An anchor opening in a new browsing context; `href` and the visible text verbatim. */
  function LinkHtml(href: string, text: string): string {
    LinkOpen + href + LinkAttributes + text + "</a>"
  }

  const LinkOpen: string := "<a href=\""
  const LinkAttributes: string :=
    "\" target=\"_blank\" rel=\"noopener noreferrer\" style=\"color: #ff6b35; text-decoration: underline;\">"

  /** An image; `src` and `alt` verbatim. */
  function ImageHtml(src: string, alt: string): string {
    ImageOpen + src + ImageAlt + alt + ImageClose
  }

  const ImageOpen: string := "<img src=\""
  const ImageAlt: string := "\" alt=\""
  const ImageClose: string := "\" style=\"max-width: 100%; height: auto; border-radius: 8px; margin: 16px 0;\" />"

  function ColorSpanHtml(color: string, text: string): string {
    ColorSpanOpen + color + ";\">" + text + "</span>"
  }

  const ColorSpanOpen: string := "<span style=\"color: "

  function HighlightHtml(color: string, text: string): string {
    HighlightOpen + color + HighlightStyle + text + "</mark>"
  }

  const HighlightOpen: string := "<mark style=\"background-color: "
  const HighlightStyle: string := "; padding: 2px 4px; border-radius: 3px;\">"

  function ListTag(ordered: bool): string {
    if ordered then "ol" else "ul"
  }

  /** The three placeholder items ("Item 1" .. "Item 3"). */
  const ListItems: seq<string> := ["Пункт 1", "Пункт 2", "Пункт 3"]

  const ListStyle: string := "style=\"margin: 16px 0; padding-left: 24px;\">"
  const ItemOpen: string := "\n  <li>"
  const ItemClose: string := "</li>"

  /** One item on its own indented line. */
  function ItemHtml(item: string): string {
    ItemOpen + item + ItemClose
  }

  function ItemsHtml(items: seq<string>): string {
    if items == [] then "" else ItemHtml(items[0]) + ItemsHtml(items[1..])
  }

  function ListOpen(tag: string): string {
    "<" + tag + " " + ListStyle
  }

  function ListClose(tag: string): string {
    "\n</" + tag + ">"
  }

  /** A list of the three placeholder items, numbered exactly when `ordered`,
      whose closing tag names the same element as its opening tag. */
  function ListHtml(ordered: bool): (r: string)
    ensures StartsWith(r, "<" + ListTag(ordered) + " ")
    ensures EndsWith(r, "</" + ListTag(ordered) + ">")
    ensures StartsWith(r, "<ol ") <==> ordered
  {
    var tag := ListTag(ordered);
    var open := "<" + tag + " ";
    var close := "</" + tag + ">";
    var r := ListOpen(tag) + ItemsHtml(ListItems) + ListClose(tag);
    assert ListOpen(tag)[..|open|] == open;
    assert r[..|open|] == open;
    assert r[1] == tag[0];
    assert ListClose(tag)[1..] == close;
    assert r[|r| - |close|..] == close;
    r
  }

  /** Three items render as three `<li>` lines, in order. */
  lemma ItemsHtmlThree(items: seq<string>)
    requires |items| == 3
    ensures ItemsHtml(items) == ItemHtml(items[0]) + ItemHtml(items[1]) + ItemHtml(items[2])
  {
    var tail := items[1..];
    var last := tail[1..];
    assert tail[0] == items[1] && last[0] == items[2] && last[1..] == [];
    assert ItemsHtml(last) == ItemHtml(items[2]) + "";
    assert ItemsHtml(tail) == ItemHtml(items[1]) + ItemHtml(items[2]);
    ConcatAssoc(ItemHtml(items[0]), ItemHtml(items[1]), ItemHtml(items[2]));
  }

  /** Between its tags the list holds exactly the three placeholder items,
      one `<li>` each. */
  lemma ListHtmlItems(ordered: bool)
    ensures |ListItems| == 3
    ensures ListHtml(ordered) == ListOpen(ListTag(ordered))
      + (ItemHtml(ListItems[0]) + ItemHtml(ListItems[1]) + ItemHtml(ListItems[2]))
      + ListClose(ListTag(ordered))
  {
    ItemsHtmlThree(ListItems);
  }

  const DividerHtml: string := "<hr style=\"border: none; border-top: 1px solid #475569; margin: 24px 0;\" />"

  const CodeBlockHtml: string :=
    "<pre style=\"background-color: #1e293b; padding: 16px; border-radius: 8px; overflow-x: auto; margin: 16px 0;\">"
    + "<code style=\"color: #e2e8f0; font-family: monospace;\">// Ваш код здесь</code></pre>"

  const BlockquoteHtml: string :=
    "<blockquote style=\"border-left: 4px solid #ff6b35; padding-left: 16px; margin: 16px 0; color: #94a3b8; font-style: italic;\">"
    + "Цитата или важная информация</blockquote>"

  function HeaderCellHtml(text: string): string {
    "\n        <th style=\"border: 1px solid #475569; padding: 12px; color: #fff; white-space: nowrap;\">" + text + "</th>"
  }

  function BodyCellHtml(text: string): string {
    "\n        <td style=\"border: 1px solid #475569; padding: 12px;\">" + text + "</td>"
  }

  /** A 3-column placeholder table: one header row and two body rows. */
  const TableHtml: string :=
    "<div style=\"overflow-x: auto; -webkit-overflow-scrolling: touch; margin: 16px 0;\">"
    + "\n  <table style=\"width: 100%; min-width: 500px; border-collapse: collapse;\">"
    + "\n    <thead>"
    + "\n      <tr style=\"background-color: #334155;\">"
    + HeaderCellHtml("Заголовок 1") + HeaderCellHtml("Заголовок 2") + HeaderCellHtml("Заголовок 3")
    + "\n      </tr>"
    + "\n    </thead>"
    + "\n    <tbody>"
    + "\n      <tr>"
    + BodyCellHtml("Ячейка 1") + BodyCellHtml("Ячейка 2") + BodyCellHtml("Ячейка 3")
    + "\n      </tr>"
    + "\n      <tr>"
    + BodyCellHtml("Ячейка 4") + BodyCellHtml("Ячейка 5") + BodyCellHtml("Ячейка 6")
    + "\n      </tr>"
    + "\n    </tbody>"
    + "\n  </table>"
    + "\n</div>"

  datatype Alignment = Left | Center | Right

  function AlignmentName(a: Alignment): string {
    match a
    case Left => "left"
    case Center => "center"
    case Right => "right"
  }

  function AlignOpen(a: Alignment): string {
    "<div style=\"text-align: " + AlignmentName(a) + ";\">"
  }

  const AlignClose: string := "</div>"
  /** Placeholder for an alignment block ("Aligned text"). */
  const AlignPlaceholder: string := "Текст с выравниванием"
}
