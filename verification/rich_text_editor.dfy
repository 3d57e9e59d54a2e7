/** The rich article editor: a textarea whose buffer (`value`, owned by the
    form that hosts the editor) is changed by toolbar actions, together
    with the editor's own form fields (link, image, colours). */
module RichTextEditor {
  import opened Text
  import opened Markup

  /** The wrapping toolbar buttons. */
  datatype Format = Bold | Italic | Underline | Strikethrough | Heading2 | Heading3

  /** Open tag, close tag and placeholder each wrapping button passes on. */
  function FormatTags(f: Format): (string, string, string) {
    match f
    case Bold => ("<strong>", "</strong>", "")
    case Italic => ("<em>", "</em>", "")
    case Underline => ("<u>", "</u>", "")
    case Strikethrough => ("<s>", "</s>", "")
    case Heading2 => (Heading2Open, "</h2>", "Заголовок 2")
    case Heading3 => (Heading3Open, "</h3>", "Заголовок 3")
  }

  class Editor {
    /** The article HTML being edited. */
    var value: string
    /** Whether the textarea element is present in the page: it is replaced
        by the rendered preview while preview mode is on. */
    var textareaMounted: bool
    var selStart: nat
    var selEnd: nat
    var linkUrl: string
    var linkText: string
    var imageUrl: string
    var imageAlt: string
    var textColor: string
    var bgColor: string

    /** The selection lies inside the buffer. */
    ghost predicate Valid()
      reads this
    {
      selStart <= selEnd <= |value|
    }

    constructor (initial: string)
      ensures Valid()
      ensures value == initial && textareaMounted && selStart == 0 && selEnd == 0
      ensures linkUrl == "" && linkText == "" && imageUrl == "" && imageAlt == ""
      ensures textColor == DefaultTextColor && bgColor == DefaultHighlightColor
    {
      value := initial;
      textareaMounted := true;
      selStart, selEnd := 0, 0;
      linkUrl, linkText, imageUrl, imageAlt := "", "", "", "";
      textColor, bgColor := DefaultTextColor, DefaultHighlightColor;
    }

    /** The user selects `[start, end)` in the textarea. */
    method Select(start: nat, end: nat)
      requires start <= end <= |value|
      modifies this`selStart, this`selEnd
      ensures Valid() && selStart == start && selEnd == end
    {
      selStart, selEnd := start, end;
    }

    /** The preview button: preview mode unmounts the textarea, so the
        selection-based actions do nothing until it is switched off again. */
    method TogglePreview()
      requires Valid()
      modifies this`textareaMounted
      ensures Valid() && textareaMounted == !old(textareaMounted)
    {
      textareaMounted := !textareaMounted;
    }

    /** `onChange(value + fragment)`: the block inserters only ever add at the
        end of the buffer, whatever the selection. */
    method Append(fragment: string)
      requires Valid()
      modifies this`value
      ensures Valid() && value == old(value) + fragment
    {
      value := value + fragment;
    }

    /** `insertTag`: without a textarea nothing happens; otherwise the
        selection is wrapped as `Wrap` describes and the new selection
        covers the wrapped payload. */
    method InsertTag(openTag: string, closeTag: string, placeholder: string)
      requires Valid()
      modifies this`value, this`selStart, this`selEnd
      ensures Valid()
      ensures !textareaMounted ==> value == old(value) && selStart == old(selStart) && selEnd == old(selEnd)
      ensures textareaMounted ==>
        Edit(value, selStart, selEnd) == Wrap(old(value), old(selStart), old(selEnd), openTag, closeTag, placeholder)
    {
      if !textareaMounted {
        return;
      }
      var r := Wrap(value, selStart, selEnd, openTag, closeTag, placeholder);
      value, selStart, selEnd := r.text, r.selStart, r.selEnd;
    }

    /** A wrapping toolbar button (bold, italic, underline, strike, H2, H3). */
    method ApplyFormat(f: Format)
      requires Valid()
      modifies this`value, this`selStart, this`selEnd
      ensures Valid()
      ensures !textareaMounted ==> value == old(value) && selStart == old(selStart) && selEnd == old(selEnd)
      ensures textareaMounted ==>
        Edit(value, selStart, selEnd) == Wrap(old(value), old(selStart), old(selEnd), FormatTags(f).0, FormatTags(f).1, FormatTags(f).2)
    {
      var (o, c, p) := FormatTags(f);
      InsertTag(o, c, p);
    }

    /** `applyAlignment`: the selection goes into an aligned block. */
    method ApplyAlignment(a: Alignment)
      requires Valid()
      modifies this`value, this`selStart, this`selEnd
      ensures Valid()
      ensures !textareaMounted ==> value == old(value) && selStart == old(selStart) && selEnd == old(selEnd)
      ensures textareaMounted ==>
        Edit(value, selStart, selEnd) == Wrap(old(value), old(selStart), old(selEnd), AlignOpen(a), AlignClose, AlignPlaceholder)
    {
      InsertTag(AlignOpen(a), AlignClose, AlignPlaceholder);
    }

    /** `insertColoredText`: a non-empty selection is replaced by a span in
        the current text colour; an empty one is refused with an alert and
        the buffer is kept. */
    method InsertColoredText() returns (notice: Notice)
      requires Valid()
      modifies this`value
      ensures Valid()
      ensures !textareaMounted ==> notice == Quiet && value == old(value)
      ensures textareaMounted && selStart == selEnd ==> notice == Alert(NoSelectionForColor) && value == old(value)
      ensures textareaMounted && selStart < selEnd ==> (notice == Quiet
        && value == Splice(old(value), selStart, selEnd, ColorSpanHtml(textColor, old(value)[selStart..selEnd])))
    {
      if !textareaMounted {
        return Quiet;
      }
      var selected := value[selStart..selEnd];
      if selected == "" {
        return Alert(NoSelectionForColor);
      }
      value := Splice(value, selStart, selEnd, ColorSpanHtml(textColor, selected));
      notice := Quiet;
    }

    /** `insertHighlight`: as `InsertColoredText`, with a `mark` in the background colour. */
    method InsertHighlight() returns (notice: Notice)
      requires Valid()
      modifies this`value
      ensures Valid()
      ensures !textareaMounted ==> notice == Quiet && value == old(value)
      ensures textareaMounted && selStart == selEnd ==> notice == Alert(NoSelectionForHighlight) && value == old(value)
      ensures textareaMounted && selStart < selEnd ==> (notice == Quiet
        && value == Splice(old(value), selStart, selEnd, HighlightHtml(bgColor, old(value)[selStart..selEnd])))
    {
      if !textareaMounted {
        return Quiet;
      }
      var selected := value[selStart..selEnd];
      if selected == "" {
        return Alert(NoSelectionForHighlight);
      }
      value := Splice(value, selStart, selEnd, HighlightHtml(bgColor, selected));
      notice := Quiet;
    }

    /** `insertLink`: with a URL, appends an anchor to the normalised URL,
        labelled with the link text or else the URL as typed, and clears both
        fields; without a URL nothing changes. */
    method InsertLink()
      requires Valid()
      modifies this`value, this`linkUrl, this`linkText
      ensures Valid()
      ensures old(linkUrl) == "" ==> value == old(value) && linkUrl == "" && linkText == old(linkText)
      ensures old(linkUrl) != "" ==> (linkUrl == "" && linkText == ""
        && value == old(value) + LinkHtml(NormalizeLinkUrl(old(linkUrl)), if old(linkText) != "" then old(linkText) else old(linkUrl)))
    {
      if linkUrl == "" {
        return;
      }
      var caption := if linkText != "" then linkText else linkUrl;
      Append(LinkHtml(NormalizeLinkUrl(linkUrl), caption));
      linkUrl, linkText := "", "";
    }

    /** `insertImage`: with a URL, appends an image whose alt text defaults
        to "Изображение" and clears both fields; without a URL nothing changes. */
    method InsertImage()
      requires Valid()
      modifies this`value, this`imageUrl, this`imageAlt
      ensures Valid()
      ensures old(imageUrl) == "" ==> value == old(value) && imageUrl == "" && imageAlt == old(imageAlt)
      ensures old(imageUrl) != "" ==> (imageUrl == "" && imageAlt == ""
        && value == old(value) + ImageHtml(old(imageUrl), if old(imageAlt) != "" then old(imageAlt) else DefaultImageAlt))
    {
      if imageUrl == "" {
        return;
      }
      var alt := if imageAlt != "" then imageAlt else DefaultImageAlt;
      Append(ImageHtml(imageUrl, alt));
      imageUrl, imageAlt := "", "";
    }

    method InsertList(ordered: bool)
      requires Valid()
      modifies this`value
      ensures Valid() && value == old(value) + ListHtml(ordered)
    {
      Append(ListHtml(ordered));
    }

    method InsertDivider()
      requires Valid()
      modifies this`value
      ensures Valid() && value == old(value) + DividerHtml
    {
      Append(DividerHtml);
    }

    method InsertCodeBlock()
      requires Valid()
      modifies this`value
      ensures Valid() && value == old(value) + CodeBlockHtml
    {
      Append(CodeBlockHtml);
    }

    method InsertBlockquote()
      requires Valid()
      modifies this`value
      ensures Valid() && value == old(value) + BlockquoteHtml
    {
      Append(BlockquoteHtml);
    }

    method InsertTable()
      requires Valid()
      modifies this`value
      ensures Valid() && value == old(value) + TableHtml
    {
      Append(TableHtml);
    }

    /** The end of `handleFileUpload`: `url` is the `url` field of the
        upload reply ("" when it is missing or the request failed). A URL
        appends an image with the file name as alt text; otherwise an alert
        is shown and the buffer is kept. */
    method FinishUpload(url: string, fileName: string) returns (notice: Notice)
      requires Valid()
      modifies this`value
      ensures Valid()
      ensures url != "" ==> notice == Quiet && value == old(value) + ImageHtml(url, fileName)
      ensures url == "" ==> notice == Alert(UploadFailed) && value == old(value)
    {
      if url != "" {
        Append(ImageHtml(url, fileName));
        notice := Quiet;
      } else {
        notice := Alert(UploadFailed);
      }
    }
  }
}
