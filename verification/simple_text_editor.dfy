/** The simple article editor: the same buffer-and-selection model as the
    rich editor, with fewer actions, no placeholders when wrapping and no
    link-URL normalisation. */
module SimpleTextEditor {
  import opened Text
  import opened Markup

  /** The wrapping toolbar buttons. */
  datatype Format = Bold | Italic | Heading2 | Heading3 | Paragraph | LineBreak

  /** Open and close tag each wrapping button passes on. */
  function FormatTags(f: Format): (string, string) {
    match f
    case Bold => ("<strong>", "</strong>")
    case Italic => ("<em>", "</em>")
    case Heading2 => (Heading2Open, "</h2>")
    case Heading3 => (Heading3Open, "</h3>")
    case Paragraph => ("<p style=\"margin: 12px 0;\">", "</p>")
    case LineBreak => ("<br/>", "")
  }

  class Editor {
    /** The article HTML being edited. */
    var value: string
    /** Whether the textarea element is present in the page. */
    var textareaMounted: bool
    var selStart: nat
    var selEnd: nat
    var linkUrl: string
    var linkText: string
    var imageUrl: string
    var imageAlt: string
    var textColor: string

    /** The selection lies inside the buffer. */
    ghost predicate Valid()
      reads this
    {
      selStart <= selEnd <= |value|
    }

    constructor (initial: string)
      ensures Valid()
      ensures value == initial && textareaMounted && selStart == 0 && selEnd == 0
      ensures linkUrl == "" && linkText == "" && imageUrl == "" && imageAlt == ""
      ensures textColor == DefaultTextColor
    {
      value := initial;
      textareaMounted := true;
      selStart, selEnd := 0, 0;
      linkUrl, linkText, imageUrl, imageAlt := "", "", "", "";
      textColor := DefaultTextColor;
    }

    /** The user selects `[start, end)` in the textarea. */
    method Select(start: nat, end: nat)
      requires start <= end <= |value|
      modifies this`selStart, this`selEnd
      ensures Valid() && selStart == start && selEnd == end
    {
      selStart, selEnd := start, end;
    }

    /** `onChange(value + fragment)`: the block inserters only ever add at the
        end of the buffer, whatever the selection. */
    method Append(fragment: string)
      requires Valid()
      modifies this`value
      ensures Valid() && value == old(value) + fragment
    {
      value := value + fragment;
    }

    /** `insertTag`: the selection, possibly empty, is wrapped in the two
        tags and stays selected, shifted past the open tag. */
    method InsertTag(openTag: string, closeTag: string)
      requires Valid()
      modifies this`value, this`selStart, this`selEnd
      ensures Valid()
      ensures !textareaMounted ==> value == old(value) && selStart == old(selStart) && selEnd == old(selEnd)
      ensures textareaMounted ==>
        Edit(value, selStart, selEnd) == Wrap(old(value), old(selStart), old(selEnd), openTag, closeTag, "")
      ensures textareaMounted ==> selStart == old(selStart) + |openTag| && selEnd == old(selEnd) + |openTag|
    {
      if !textareaMounted {
        return;
      }
      var r := Wrap(value, selStart, selEnd, openTag, closeTag, "");
      value, selStart, selEnd := r.text, r.selStart, r.selEnd;
    }

    /** A wrapping toolbar button; the line break inserts `<br/>` at the
        start of the selection (see `Markup.WrapWithoutCloseTag`). */
    method ApplyFormat(f: Format)
      requires Valid()
      modifies this`value, this`selStart, this`selEnd
      ensures Valid()
      ensures !textareaMounted ==> value == old(value) && selStart == old(selStart) && selEnd == old(selEnd)
      ensures textareaMounted ==>
        Edit(value, selStart, selEnd) == Wrap(old(value), old(selStart), old(selEnd), FormatTags(f).0, FormatTags(f).1, "")
    {
      var (o, c) := FormatTags(f);
      InsertTag(o, c);
    }

    /** `insertColoredText`: a non-empty selection is replaced by a span in
        the current text colour; an empty one is refused with an alert. */
    method InsertColoredText() returns (notice: Notice)
      requires Valid()
      modifies this`value
      ensures Valid()
      ensures !textareaMounted ==> notice == Quiet && value == old(value)
      ensures textareaMounted && selStart == selEnd ==> notice == Alert(NoSelectionForColor) && value == old(value)
      ensures textareaMounted && selStart < selEnd ==> (notice == Quiet
        && value == Splice(old(value), selStart, selEnd, ColorSpanHtml(textColor, old(value)[selStart..selEnd])))
    {
      if !textareaMounted {
        return Quiet;
      }
      var selected := value[selStart..selEnd];
      if selected == "" {
        return Alert(NoSelectionForColor);
      }
      value := Splice(value, selStart, selEnd, ColorSpanHtml(textColor, selected));
      notice := Quiet;
    }

    /** `insertLink`: with a URL, appends an anchor to the URL exactly as
        typed, labelled with the link text or else the URL, and clears both fields. */
    method InsertLink()
      requires Valid()
      modifies this`value, this`linkUrl, this`linkText
      ensures Valid()
      ensures old(linkUrl) == "" ==> value == old(value) && linkUrl == "" && linkText == old(linkText)
      ensures old(linkUrl) != "" ==> (linkUrl == "" && linkText == ""
        && value == old(value) + LinkHtml(old(linkUrl), if old(linkText) != "" then old(linkText) else old(linkUrl)))
    {
      if linkUrl == "" {
        return;
      }
      var caption := if linkText != "" then linkText else linkUrl;
      Append(LinkHtml(linkUrl, caption));
      linkUrl, linkText := "", "";
    }

    /** `insertImage`: with a URL, appends an image whose alt text defaults
        to "Изображение" and clears both fields. */
    method InsertImage()
      requires Valid()
      modifies this`value, this`imageUrl, this`imageAlt
      ensures Valid()
      ensures old(imageUrl) == "" ==> value == old(value) && imageUrl == "" && imageAlt == old(imageAlt)
      ensures old(imageUrl) != "" ==> (imageUrl == "" && imageAlt == ""
        && value == old(value) + ImageHtml(old(imageUrl), if old(imageAlt) != "" then old(imageAlt) else DefaultImageAlt))
    {
      if imageUrl == "" {
        return;
      }
      var alt := if imageAlt != "" then imageAlt else DefaultImageAlt;
      Append(ImageHtml(imageUrl, alt));
      imageUrl, imageAlt := "", "";
    }

    method InsertList(ordered: bool)
      requires Valid()
      modifies this`value
      ensures Valid() && value == old(value) + ListHtml(ordered)
    {
      Append(ListHtml(ordered));
    }

    method InsertDivider()
      requires Valid()
      modifies this`value
      ensures Valid() && value == old(value) + DividerHtml
    {
      Append(DividerHtml);
    }

    /** The end of `handleFileUpload`; `url` is "" when the reply has no URL
        or the request failed. */
    method FinishUpload(url: string, fileName: string) returns (notice: Notice)
      requires Valid()
      modifies this`value
      ensures Valid()
      ensures url != "" ==> notice == Quiet && value == old(value) + ImageHtml(url, fileName)
      ensures url == "" ==> notice == Alert(UploadFailed) && value == old(value)
    {
      if url != "" {
        Append(ImageHtml(url, fileName));
        notice := Quiet;
      } else {
        notice := Alert(UploadFailed);
      }
    }
  }
}
