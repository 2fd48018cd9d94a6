/** The artifact panel of the browser view (src/components/execution/ArtifactCanvas.jsx): how
    an artifact's content is decoded for display (escaping of raw control characters, the
    parse fallbacks, one level of double-encoding), the page the "View Live Site" button
    opens when the server produced no preview URL, the tab chosen when none is active, and
    the version badge of a tab. `JSON.parse` is a parameter; the JSX markup is not modelled. */
module ArtifactView {
  import opened Js
  import opened JsText
  import opened AgentCore
  import opened FileTree

  // ---------------------------------------------------------------------------------------
  // sanitize

  predicate IsLineBreak(c: char)
  {
    c == '\n' || c == '\r'
  }

  predicate NoLineBreak(s: string)
  {
    forall i :: 0 <= i < |s| ==> !IsLineBreak(s[i])
  }

  predicate NoTab(s: string)
  {
    forall i :: 0 <= i < |s| ==> s[i] != '\t'
  }

  /** `str.replace(/[\n\r]/g, '\\n')`: every line feed and carriage return becomes the two
      characters backslash and `n`. */
  function EscapeLineBreaks(s: string): (r: string)
    ensures NoLineBreak(r)
    ensures NoTab(s) ==> NoTab(r)
    ensures |r| >= |s|
  {
    if s == [] then []
    else (if IsLineBreak(s[0]) then "\\n" else [s[0]]) + EscapeLineBreaks(s[1..])
  }

  /** `str.replace(/[\t]/g, '\\t')`: every tab becomes backslash and `t`. */
  function EscapeTabs(s: string): (r: string)
    ensures NoTab(r)
    ensures NoLineBreak(s) ==> NoLineBreak(r)
    ensures |r| >= |s|
  {
    if s == [] then []
    else (if s[0] == '\t' then "\\t" else [s[0]]) + EscapeTabs(s[1..])
  }

  /** The two replacements of `sanitize`, in order, on a string. */
  function SanitizeText(s: string): (r: string)
    ensures NoLineBreak(r) && NoTab(r)
    ensures |r| >= |s|
  {
    EscapeTabs(EscapeLineBreaks(s))
  }

  /** `sanitize(str)`: anything but a string is returned as it is. */
  function Sanitize(v: Value): (r: Value)
    ensures !v.Str? ==> r == v
    ensures v.Str? ==> r.Str? && NoLineBreak(r.s) && NoTab(r.s) && |r.s| >= |v.s|
  {
    if v.Str? then Str(SanitizeText(v.s)) else v
  }

  /** Text without raw line breaks or tabs comes out of `sanitize` unchanged. */
  lemma {:induction false} SanitizeKeepsCleanText(s: string)
    requires NoLineBreak(s) && NoTab(s)
    ensures SanitizeText(s) == s
  {
    EscapeLineBreaksKeepsCleanText(s);
    EscapeTabsKeepsCleanText(s);
  }

  lemma {:induction false} EscapeLineBreaksKeepsCleanText(s: string)
    requires NoLineBreak(s)
    ensures EscapeLineBreaks(s) == s
  {
    if s != [] {
      assert NoLineBreak(s[1..]) by {
        forall i | 0 <= i < |s[1..]| ensures !IsLineBreak(s[1..][i]) { assert s[1..][i] == s[i + 1]; }
      }
      EscapeLineBreaksKeepsCleanText(s[1..]);
      assert !IsLineBreak(s[0]);
      assert s == [s[0]] + s[1..];
    }
  }

  lemma {:induction false} EscapeTabsKeepsCleanText(s: string)
    requires NoTab(s)
    ensures EscapeTabs(s) == s
  {
    if s != [] {
      assert NoTab(s[1..]) by {
        forall i | 0 <= i < |s[1..]| ensures s[1..][i] != '\t' { assert s[1..][i] == s[i + 1]; }
      }
      EscapeTabsKeepsCleanText(s[1..]);
      assert s[0] != '\t';
      assert s == [s[0]] + s[1..];
    }
  }

  lemma {:induction false} EscapeTabsAppend(a: string, b: string)
    ensures EscapeTabs(a + b) == EscapeTabs(a) + EscapeTabs(b)
    decreases |a|
  {
    if a == [] {
      assert a + b == b;
    } else {
      assert (a + b)[0] == a[0] && (a + b)[1..] == a[1..] + b;
      EscapeTabsAppend(a[1..], b);
    }
  }

  /** The decoding a JSON string literal applies to the two escapes `sanitize` writes:
      backslash-`n` is a line feed and backslash-`t` a tab. */
  function Unescape(s: string): string
  {
    if s == [] then []
    else if |s| >= 2 && s[0] == '\\' && s[1] == 'n' then "\n" + Unescape(s[2..])
    else if |s| >= 2 && s[0] == '\\' && s[1] == 't' then "\t" + Unescape(s[2..])
    else [s[0]] + Unescape(s[1..])
  }

  /** The escapes `sanitize` writes decode back to the original text, as long as the text
      held no backslash of its own and no carriage return (which comes back as a line feed). */
  lemma {:induction false} UnescapeSanitized(s: string)
    requires '\\' !in s && '\r' !in s
    ensures Unescape(SanitizeText(s)) == s
    decreases |s|
  {
    if s != [] {
      var c, t := s[0], s[1..];
      assert s == [c] + t;
      assert '\\' !in t && '\r' !in t by {
        forall x | x in t ensures x in s { }
      }
      SanitizeHead(s);
      UnescapeSanitized(t);
      UnescapeCode(c, SanitizeText(t));
    }
  }

  /** What `sanitize` writes for one character that is neither a backslash nor a carriage return. */
  function CodeOf(c: char): string
  {
    if c == '\n' then "\\n" else if c == '\t' then "\\t" else [c]
  }

  /** The sanitised text starts with the code of its first character. */
  lemma SanitizeHead(s: string)
    requires s != [] && s[0] != '\r'
    ensures SanitizeText(s) == CodeOf(s[0]) + SanitizeText(s[1..])
  {
    var c, t := s[0], s[1..];
    var head := if IsLineBreak(c) then "\\n" else [c];
    assert EscapeLineBreaks(s) == head + EscapeLineBreaks(t);
    EscapeTabsAppend(head, EscapeLineBreaks(t));
    if c == '\t' {
      assert EscapeTabs(head) == "\\t";
    } else if c == '\n' {
      assert EscapeTabs(head) == "\\n";
    } else {
      assert EscapeTabs(head) == [c];
    }
  }

  /** Decoding the code of a character gives the character back, whatever follows it. */
  lemma UnescapeCode(c: char, rest: string)
    requires c != '\\' && c != '\r'
    ensures Unescape(CodeOf(c) + rest) == [c] + Unescape(rest)
  {
    var code := CodeOf(c);
    assert (code + rest)[|code|..] == rest;
  }

  // ---------------------------------------------------------------------------------------
  // renderArtifactContent

  /** The layout chosen by the id of the active artifact. */
  datatype Layout = RenovationLayout | DesignLayout | TechLayout | PlainLayout

  function LayoutFor(activeId: Value): Layout
  {
    if StrictEquals(activeId, Str("renovation")) then RenovationLayout
    else if StrictEquals(activeId, Str("design")) then DesignLayout
    else if StrictEquals(activeId, Str("tech")) then TechLayout
    else PlainLayout
  }

  /** What the content area shows: the raw content in a `<pre>`, a scalar as text, or an
      object or array laid out field by field. */
  datatype Rendering = RawText(content: Value) | ValueText(text: string) | Structured(layout: Layout, data: Value)

  /** Attempts 1 and 2: a string is parsed as it is, then sanitized; the error of the first
      attempt is the one that escapes when both fail. Anything else is taken as it is. */
  function Decoded(content: Value, parse: Parser): (r: Outcome<Value>)
    ensures !content.Str? ==> r == Returned(content)
    ensures content.Str? && parse(content.s).Returned? ==> r == parse(content.s)
    ensures content.Str? && parse(content.s).Threw? ==>
      (r.Returned? ==> r == parse(SanitizeText(content.s)))
      && (r.Threw? <==> parse(SanitizeText(content.s)).Threw?)
      && (r.Threw? ==> r == parse(content.s))
  {
    if !content.Str? then Returned(content)
    else
      match parse(content.s)
      case Returned(v) => Returned(v)
      case Threw(e1) =>
        match parse(Sanitize(content).s)
        case Returned(v) => Returned(v)
        case Threw(_) => Threw(e1)
  }

  /** `renderArtifactContent(content)` for the active artifact with id `activeId`. */
  function Render(content: Value, activeId: Value, parse: Parser): (r: Rendering)
    ensures r.RawText? <==> Decoded(content, parse).Threw?
    ensures r.RawText? ==> content.Str? && r.content == content
    ensures r.Structured? ==> (r.data.Obj? || r.data.Arr?) && r.layout == LayoutFor(activeId)
    ensures !content.Str? && (content.Obj? || content.Arr?) ==> r == Structured(LayoutFor(activeId), content)
    ensures !content.Str? && !(content.Obj? || content.Arr?) ==> r == ValueText(ToString(content))
    ensures content.Str? && parse(content.s).Returned? && (parse(content.s).value.Obj? || parse(content.s).value.Arr?) ==>
      r == Structured(LayoutFor(activeId), parse(content.s).value)
    ensures content.Str? && parse(content.s).Returned? ==> var v := parse(content.s).value;
      v.Num? || v.Bool? || v.Null? ==> r == ValueText(ToString(v))
    ensures content.Str? && parse(content.s).Threw? && parse(SanitizeText(content.s)).Returned? ==>
      var v := parse(SanitizeText(content.s)).value;
      v.Obj? || v.Arr? ==> r == Structured(LayoutFor(activeId), v)
  {
    match Decoded(content, parse)
    case Threw(_) => RawText(content)
    case Returned(v) =>
      var data := Unwrap(v, parse);
      if !IsObjectType(data) || data.Null? then ValueText(ToString(data))
      else Structured(LayoutFor(activeId), data)
  }

  /** For content with no raw line break or tab the sanitized attempt parses the same text,
      so the content is shown raw exactly when it is not JSON. */
  lemma CleanContentIsRawIffUnparsable(s: string, activeId: Value, parse: Parser)
    requires NoLineBreak(s) && NoTab(s)
    ensures Render(Str(s), activeId, parse).RawText? <==> parse(s).Threw?
  {
    SanitizeKeepsCleanText(s);
  }

  /** A JSON string that holds an encoded object is shown as that object, but a string
      holding an encoded string is shown as the inner string's text: one level only. */
  lemma DoubleEncodedIsUnwrappedOnce(s: string, inner: string, activeId: Value, parse: Parser)
    requires parse(s) == Returned(Str(inner))
    ensures parse(inner).Returned? && (parse(inner).value.Obj? || parse(inner).value.Arr?) ==>
      Render(Str(s), activeId, parse) == Structured(LayoutFor(activeId), parse(inner).value)
    ensures parse(inner).Returned? && parse(inner).value.Str? ==>
      Render(Str(s), activeId, parse) == ValueText(inner)
  {
  }

  // ---------------------------------------------------------------------------------------
  // The "View Live Site" button

  const NoIndex := "<h1>No Index Found</h1>"
  const HeadClose := "</head>"

  function StyleTag(css: string): string
  {
    "<style>" + css + "</style>"
  }

  /** `html.replace('</head>', `<style>${css}</style></head>`)` as written: the replacement
      is a string, so `$&`, `$$`, `` $` `` and `$'` in the stylesheet are expanded. */
  function InjectStyleAsWritten(html: string, css: string): (r: string)
    ensures IndexOfString(html, HeadClose) < 0 ==> r == html
  {
    ReplaceFirst(html, HeadClose, StyleTag(css) + HeadClose)
  }

  /** The evidently intended injection: the style element is inserted verbatim just before
      the first `</head>`; a page without one is left unchanged. */
  function InjectStyle(html: string, css: string): (r: string)
    ensures IndexOfString(html, HeadClose) < 0 ==> r == html
    ensures IndexOfString(html, HeadClose) >= 0 ==> r == InsertAt(html, IndexOfString(html, HeadClose), StyleTag(css))
  {
    var i := IndexOfString(html, HeadClose);
    if i < 0 then html
    else
      var r := html[..i] + (StyleTag(css) + HeadClose) + html[i + |HeadClose|..];
      assert html[i..] == HeadClose + html[i + |HeadClose|..];
      r
  }

  /** `tag` inserted into `html` at position `i`, everything else kept in place. */
  function InsertAt(html: string, i: nat, tag: string): (r: string)
    requires i <= |html|
    ensures |r| == |html| + |tag| && r[..i] == html[..i]
    ensures r[i..i + |tag|] == tag && r[i + |tag|..] == html[i..]
  {
    html[..i] + tag + html[i..]
  }

  /** Without a `$` in the stylesheet the code as written does what was intended. */
  lemma InjectStyleAsWrittenAgreesWithoutDollar(html: string, css: string)
    requires '$' !in css
    ensures InjectStyleAsWritten(html, css) == InjectStyle(html, css)
  {
    var repl := StyleTag(css) + HeadClose;
    assert '$' !in repl by {
      forall k | 0 <= k < |repl| ensures repl[k] != '$' {
        if 7 <= k < 7 + |css| { assert repl[k] == css[k - 7]; }
      }
    }
    var i := IndexOfString(html, HeadClose);
    if i >= 0 {
      SubstituteLiteral(repl, HeadClose, html[..i], html[i + |HeadClose|..]);
    }
  }

  /** A stylesheet holding `$&` (which CSS allows inside a string or comment) gets the
      matched `</head>` pasted into the middle of the style element by the code as
      written, closing the head early; the intended injection keeps the text verbatim. */
  lemma InjectStyleAsWrittenExpandsDollar(html: string, pre: string, post: string)
    requires '$' !in pre && IndexOfString(html, HeadClose) >= 0
    ensures var k := IndexOfString(html, HeadClose) + |"<style>" + pre|;
      var w := InjectStyleAsWritten(html, pre + "$&" + post);
      var c := InjectStyle(html, pre + "$&" + post);
      k + |HeadClose| <= |w| && w[k..k + |HeadClose|] == HeadClose
      && k + 2 <= |c| && c[k] == '$' && c[k + 1] == '&'
  {
    AsWrittenPastesMatch(html, pre, post);
    IntendedKeepsDollar(html, IndexOfString(html, HeadClose), pre, post);
  }

  /** The code as written puts the matched `</head>` where the stylesheet's `$&` was. */
  lemma AsWrittenPastesMatch(html: string, pre: string, post: string)
    requires '$' !in pre && IndexOfString(html, HeadClose) >= 0
    ensures var k := IndexOfString(html, HeadClose) + |"<style>" + pre|;
      var w := InjectStyleAsWritten(html, pre + "$&" + post);
      k + |HeadClose| <= |w| && w[k..k + |HeadClose|] == HeadClose
  {
    var i := IndexOfString(html, HeadClose);
    var tail := AsWrittenShape(html, pre, post);
    PastedAt(html[..i], "<style>" + pre, tail, html[i + |HeadClose|..]);
  }

  /** The page as written: what precedes `</head>`, the opening tag and the stylesheet up to
      its `$&`, the matched `</head>`, the expansion of the rest, and what followed `</head>`. */
  lemma AsWrittenShape(html: string, pre: string, post: string) returns (tail: string)
    requires '$' !in pre && IndexOfString(html, HeadClose) >= 0
    ensures var i := IndexOfString(html, HeadClose);
      i + |HeadClose| <= |html|
      && InjectStyleAsWritten(html, pre + "$&" + post)
        == html[..i] + (("<style>" + pre) + (HeadClose + tail)) + html[i + |HeadClose|..]
  {
    var i := IndexOfString(html, HeadClose);
    var before, after := html[..i], html[i + |HeadClose|..];
    ReplaceFirstOfHead(html, StyleTag(pre + "$&" + post) + HeadClose);
    tail := ExpandedTag(pre, post, before, after);
  }

  /** `replace` of the first `</head>` in a page that has one. */
  lemma ReplaceFirstOfHead(html: string, repl: string)
    requires IndexOfString(html, HeadClose) >= 0
    ensures var i := IndexOfString(html, HeadClose);
      i + |HeadClose| <= |html|
      && ReplaceFirst(html, HeadClose, repl)
        == html[..i] + Substitute(repl, HeadClose, html[..i], html[i + |HeadClose|..]) + html[i + |HeadClose|..]
  {
  }

  lemma PastedAt(before: string, open: string, tail: string, after: string)
    ensures var w := before + (open + (HeadClose + tail)) + after;
      var k := |before| + |open|;
      k + |HeadClose| <= |w| && w[k..k + |HeadClose|] == HeadClose
  {
    var w := before + (open + (HeadClose + tail)) + after;
    assert w[|before| + |open|..] == HeadClose + (tail + after);
  }

  /** The replacement text of the injection, expanded: the `$&` in the stylesheet becomes
      the matched `</head>`; `tail` is the expansion of what follows it. */
  lemma ExpandedTag(pre: string, post: string, before: string, after: string) returns (tail: string)
    requires '$' !in pre
    ensures Substitute(StyleTag(pre + "$&" + post) + HeadClose, HeadClose, before, after)
      == ("<style>" + pre) + (HeadClose + tail)
  {
    var open := "<style>" + pre;
    var rest := post + "</style>" + HeadClose;
    assert StyleTag(pre + "$&" + post) + HeadClose == open + ("$&" + rest);
    assert '$' !in open by {
      forall x | x in open ensures x != '$' {
        if x !in "<style>" { assert x in pre; }
      }
    }
    SubstituteAppendPlain(open, "$&" + rest, HeadClose, before, after);
    assert ("$&" + rest)[2..] == rest;
    tail := Substitute(rest, HeadClose, before, after);
  }

  /** The intended injection keeps the stylesheet's `$&` as it is. */
  lemma IntendedKeepsDollar(html: string, i: nat, pre: string, post: string)
    requires i <= |html|
    ensures var c := InsertAt(html, i, StyleTag(pre + "$&" + post));
      i + 9 + |pre| <= |c| && c[i + 7 + |pre|] == '$' && c[i + 8 + |pre|] == '&'
  {
    var tag := StyleTag(pre + "$&" + post);
    var c := InsertAt(html, i, tag);
    assert tag == ("<style>" + pre) + ("$&" + (post + "</style>"));
    assert tag[7 + |pre|] == '$' && tag[8 + |pre|] == '&';
    assert c[i..i + |tag|][7 + |pre|] == c[i + 7 + |pre|];
    assert c[i..i + |tag|][8 + |pre|] == c[i + 8 + |pre|];
  }

  /** The smallest page that shows it: `<head></head>` with the stylesheet `$&`. */
  lemma EmptyHeadShowsDollarExpansion(html: string, css: string)
    requires html == "<head></head>" && css == "$&"
    ensures InjectStyleAsWritten(html, css) != InjectStyle(html, css)
  {
    HeadOfEmptyHead(html);
    assert css == "" + "$&" + "";
    InjectStyleAsWrittenExpandsDollar(html, "", "");
    DifferAt(InjectStyleAsWritten(html, css), InjectStyle(html, css), 13, HeadClose);
  }

  /** A text holding `p` at `k` differs from one holding another first character there. */
  lemma DifferAt(w: string, c: string, k: nat, p: string)
    requires p != [] && k + |p| <= |w| && w[k..k + |p|] == p && k < |c| && c[k] != p[0]
    ensures w != c
  {
    assert w[k] == w[k..k + |p|][0];
  }

  lemma HeadOfEmptyHead(html: string)
    requires html == "<head></head>"
    ensures IndexOfString(html, HeadClose) == 6
  {
    assert OccursAt(html, HeadClose, 6) by {
      assert html[6..13] == HeadClose;
    }
    forall k | 0 <= k < 6 ensures !OccursAt(html, HeadClose, k) {
      assert html[k..k + 7][1] == html[k + 1] != '/';
    }
  }

  /** A prefix without `$` is copied before the rest of the replacement is expanded. */
  lemma {:induction false} SubstituteAppendPlain(a: string, b: string, matched: string, before: string, after: string)
    requires '$' !in a
    ensures Substitute(a + b, matched, before, after) == a + Substitute(b, matched, before, after)
    decreases |a|
  {
    if a == [] {
      assert a + b == b;
    } else {
      assert '$' !in a[1..] by {
        forall x | x in a[1..] ensures x in a { }
      }
      assert (a + b)[0] == a[0] && (a + b)[1..] == a[1..] + b;
      SubstituteAppendPlain(a[1..], b, matched, before, after);
    }
  }

  /** Where the button goes: a URL to open (the server's preview, or `#` when building the
      page threw) or a page built in the browser. */
  datatype Launch = OpenUrl(url: Value) | OpenPage(html: string)

  /** The page built from the file tree `root`: the index page (or a placeholder), with the
      preferred stylesheet injected before `</head>` when there is one. Reading a property
      of `null` in the tree, or calling `replace` on an index page that is not a string,
      throws and sends the button to `#`. */
  function LocalPage(root: Value): (r: Launch)
    ensures FindFile(root, "index.html").Throws? ==> r == OpenUrl(Str("#"))
    ensures !FindFile(root, "index.html").Throws? && Stylesheet(root).Throws? ==> r == OpenUrl(Str("#"))
    ensures FindFile(root, "index.html").NotFound? && !Stylesheet(root).Throws? ==> r == OpenPage(NoIndex)
    ensures FindFile(root, "index.html").Found? && FindFile(root, "index.html").v.Str? && Stylesheet(root).NotFound? ==>
      r == OpenPage(FindFile(root, "index.html").v.s)
    ensures FindFile(root, "index.html").Found? && FindFile(root, "index.html").v.Str? && Stylesheet(root).Found? ==>
      r == OpenPage(InjectStyle(FindFile(root, "index.html").v.s, ToString(Stylesheet(root).v)))
    ensures FindFile(root, "index.html").Found? && !FindFile(root, "index.html").v.Str? && Stylesheet(root).Found? ==>
      r == OpenUrl(Str("#"))
    ensures FindFile(root, "index.html").Found? && !FindFile(root, "index.html").v.Str? && Stylesheet(root).NotFound? ==>
      r == OpenPage(ToString(FindFile(root, "index.html").v))
  {
    var index := FindFile(root, "index.html");
    if index.Throws? then OpenUrl(Str("#"))
    else
      var html := if index.Found? then index.v else Str(NoIndex);
      var style := Stylesheet(root);
      if style.Throws? then OpenUrl(Str("#"))
      else if style.NotFound? then OpenPage(ToString(html))
      else if html.Str? then
        NoIndexHasNoHead(ToString(style.v));
        OpenPage(InjectStyle(html.s, ToString(style.v)))
      else OpenUrl(Str("#"))
  }

  /** The placeholder page has no `</head>`, so no stylesheet is ever injected into it. */
  lemma NoIndexHasNoHead(css: string)
    ensures InjectStyle(NoIndex, css) == NoIndex
  {
    assert IndexOfString(NoIndex, HeadClose) < 0 by {
      assert forall i :: 0 <= i < |NoIndex| ==> NoIndex[i] != 'a';
      forall k | 0 <= k && k + 7 <= |NoIndex| ensures !OccursAt(NoIndex, HeadClose, k) {
        assert NoIndex[k..k + 7][4] == NoIndex[k + 4] != 'a' == HeadClose[4];
      }
    }
  }

  /** The button of the tech layout: the preview URL when it is truthy, the built page
      otherwise. `data` is the decoded artifact, an object or an array. */
  function LaunchTarget(data: Value): (r: Launch)
    requires data.Obj? || data.Arr?
    ensures Truthy(Prop(data, "preview_url").value) ==> r == OpenUrl(Prop(data, "preview_url").value)
    ensures !Truthy(Prop(data, "preview_url").value) ==> r == LocalPage(Prop(data, "file_structure").value)
  {
    var preview := Prop(data, "preview_url").value;
    if Truthy(preview) then OpenUrl(preview) else LocalPage(Prop(data, "file_structure").value)
  }

  /** A tree holding the index page and a `styles.css` at its top level opens that page with
      the stylesheet inside its head, before the page's own `</head>`. */
  lemma RootFilesMakeStyledPage(html: string, css: string, other: seq<(string, Value)>)
    requires Includes(html, HeadClose) && css != ""
    ensures var root := Obj([("index.html", Str(html)), ("styles.css", Str(css))] + other);
      var r := LaunchTarget(Obj([("file_structure", root)]));
      r.OpenPage? && OccursAt(r.html, StyleTag(css) + HeadClose, IndexOfString(html, HeadClose))
  {
    var root := Obj([("index.html", Str(html)), ("styles.css", Str(css))] + other);
    assert Get([("file_structure", root)], "file_structure") == root;
    assert LaunchTarget(Obj([("file_structure", root)])) == LocalPage(root);
    assert html != "" by { assert OccursAt(html, HeadClose, IndexOfString(html, HeadClose)); }
    RootFilesFound(html, css, other);
    StyledLocalPage(root, html, css);
    InjectedBeforeHead(html, css);
  }

  /** A tree whose index page and stylesheet are both strings opens the page with the
      stylesheet injected. */
  lemma StyledLocalPage(root: Value, html: string, css: string)
    requires FindFile(root, "index.html") == Found(Str(html)) && Stylesheet(root) == Found(Str(css))
    ensures LocalPage(root) == OpenPage(InjectStyle(html, css))
  {
    assert ToString(Str(css)) == css;
  }

  lemma InjectedBeforeHead(html: string, css: string)
    requires IndexOfString(html, HeadClose) >= 0
    ensures OccursAt(InjectStyle(html, css), StyleTag(css) + HeadClose, IndexOfString(html, HeadClose))
  {
    InsertedBefore(html, IndexOfString(html, HeadClose), StyleTag(css), HeadClose);
  }

  /** Inserting `tag` where `p` occurs puts `tag + p` there. */
  lemma InsertedBefore(html: string, i: nat, tag: string, p: string)
    requires OccursAt(html, p, i)
    ensures OccursAt(InsertAt(html, i, tag), tag + p, i)
  {
    var r := InsertAt(html, i, tag);
    var n, m := |tag|, |p|;
    assert r[i + n..][..m] == html[i..][..m] == html[i..i + m];
    assert r[i..i + n + m] == r[i..i + n] + r[i + n..][..m];
  }

  lemma RootFilesFound(html: string, css: string, other: seq<(string, Value)>)
    requires html != "" && css != ""
    ensures var root := Obj([("index.html", Str(html)), ("styles.css", Str(css))] + other);
      FindFile(root, "index.html") == Found(Str(html)) && Stylesheet(root) == Found(Str(css))
  {
    IndexAtRoot(html, css, other);
    StylesAtRoot(html, css, other);
  }

  lemma IndexAtRoot(html: string, css: string, other: seq<(string, Value)>)
    requires html != ""
    ensures FindFile(Obj([("index.html", Str(html)), ("styles.css", Str(css))] + other), "index.html") == Found(Str(html))
  {
    var fields := [("index.html", Str(html)), ("styles.css", Str(css))] + other;
    assert fields[0] == ("index.html", Str(html));
    assert Prop(Obj(fields), "index.html") == Returned(Str(html));
  }

  lemma StylesAtRoot(html: string, css: string, other: seq<(string, Value)>)
    requires css != ""
    ensures FindFile(Obj([("index.html", Str(html)), ("styles.css", Str(css))] + other), "styles.css") == Found(Str(css))
  {
    var fields := [("index.html", Str(html)), ("styles.css", Str(css))] + other;
    assert "index.html" != "styles.css" by { assert "index.html"[0] != "styles.css"[0]; }
    assert fields[1..][0] == ("styles.css", Str(css));
    assert Get(fields, "styles.css") == Get(fields[1..], "styles.css") == Str(css);
    assert Prop(Obj(fields), "styles.css") == Returned(Str(css));
  }

  // ---------------------------------------------------------------------------------------
  // Tabs

  /** `Object.values(artifacts)` */
  function ArtifactList(artifacts: seq<(string, Value)>): (list: seq<Value>)
    ensures |list| == |artifacts|
    ensures forall i :: 0 <= i < |list| ==> list[i] == artifacts[i].1
  {
    if artifacts == [] then [] else [artifacts[0].1] + ArtifactList(artifacts[1..])
  }

  /** The auto-select effect: with no truthy active tab and at least one artifact, the
      first artifact's id becomes the active tab; reading the id of a `null` artifact throws. */
  function AutoSelect(activeTab: Value, list: seq<Value>): (r: Outcome<Value>)
    ensures Truthy(activeTab) || list == [] ==> r == Returned(activeTab)
    ensures !Truthy(activeTab) && list != [] && list[0].Obj? ==> r == Returned(Get(list[0].fields, "id"))
    ensures r.Threw? <==> !Truthy(activeTab) && list != [] && (list[0].Null? || list[0].Undefined?)
  {
    if !Truthy(activeTab) && |list| > 0 then Prop(list[0], "id") else Returned(activeTab)
  }

  /** `artifactList.find(a => a.id === activeTab)`; reading the id of a `null` entry throws. */
  function ActiveArtifact(list: seq<Value>, activeTab: Value): (r: Outcome<Option<Value>>)
    ensures r.Returned? && r.value.Some? ==> exists i :: 0 <= i < |list| && FindsAt(list, activeTab, i, r.value.value)
    ensures r.Returned? && r.value.None? ==> Skipped(list, activeTab, |list|)
    ensures r.Threw? ==> exists i :: 0 <= i < |list| && ThrowsAt(list, activeTab, i, r.message)
  {
    if list == [] then Returned(None)
    else
      match Prop(list[0], "id")
      case Threw(m) => assert ThrowsAt(list, activeTab, 0, m); Threw(m)
      case Returned(id) =>
        if StrictEquals(id, activeTab) then assert FindsAt(list, activeTab, 0, list[0]); Returned(Some(list[0]))
        else
          var rest := ActiveArtifact(list[1..], activeTab);
          if rest.Returned? && rest.value.Some? then
            assert exists i :: 0 <= i < |list| && FindsAt(list, activeTab, i, rest.value.value) by {
              var i :| 0 <= i < |list| - 1 && FindsAt(list[1..], activeTab, i, rest.value.value);
              SkippedPrepend(list, activeTab, i);
              assert list[i + 1] == list[1..][i];
              assert FindsAt(list, activeTab, i + 1, rest.value.value);
            }
            rest
          else if rest.Threw? then
            assert exists i :: 0 <= i < |list| && ThrowsAt(list, activeTab, i, rest.message) by {
              var i :| 0 <= i < |list| - 1 && ThrowsAt(list[1..], activeTab, i, rest.message);
              SkippedPrepend(list, activeTab, i);
              assert list[i + 1] == list[1..][i];
              assert ThrowsAt(list, activeTab, i + 1, rest.message);
            }
            rest
          else
            SkippedPrepend(list, activeTab, |list| - 1);
            rest
  }

  /** `find` returns the artifact at `i`: its id is the active tab, and every earlier id was
      read and differed. */
  predicate FindsAt(list: seq<Value>, activeTab: Value, i: nat, found: Value)
    requires i < |list|
  {
    Skipped(list, activeTab, i) && list[i] == found
    && Prop(list[i], "id").Returned? && StrictEquals(Prop(list[i], "id").value, activeTab)
  }

  /** `find` throws at `i`: reading that artifact's id throws `message`, and every earlier id
      was read and differed. */
  predicate ThrowsAt(list: seq<Value>, activeTab: Value, i: nat, message: string)
    requires i < |list|
  {
    Skipped(list, activeTab, i) && Prop(list[i], "id") == Threw(message)
  }

  /** `find` has read the ids of the first `n` artifacts and none of them matched. */
  predicate Skipped(list: seq<Value>, activeTab: Value, n: nat)
    requires n <= |list|
  {
    forall j :: 0 <= j < n ==> Prop(list[j], "id").Returned? && !StrictEquals(Prop(list[j], "id").value, activeTab)
  }

  /** A non-matching first artifact extends what the rest of the list skipped. */
  lemma SkippedPrepend(list: seq<Value>, activeTab: Value, n: nat)
    requires list != [] && n < |list| && Skipped(list[1..], activeTab, n)
    requires Prop(list[0], "id").Returned? && !StrictEquals(Prop(list[0], "id").value, activeTab)
    ensures Skipped(list, activeTab, n + 1)
  {
    forall j | 0 <= j < n + 1
      ensures Prop(list[j], "id").Returned? && !StrictEquals(Prop(list[j], "id").value, activeTab)
    {
      if j > 0 {
        assert list[j] == list[1..][j - 1];
      }
    }
  }

  /** After the effect has run on a list whose first artifact is an object with a
      non-object id, that artifact is the one displayed, and running the effect again
      changes nothing when the id is truthy. */
  lemma AutoSelectShowsFirst(list: seq<Value>, activeTab: Value)
    requires !Truthy(activeTab) && list != [] && list[0].Obj?
    requires !IsObjectType(Get(list[0].fields, "id"))
    ensures var id := Get(list[0].fields, "id");
      AutoSelect(activeTab, list) == Returned(id)
      && ActiveArtifact(list, id) == Returned(Some(list[0]))
      && (Truthy(id) ==> AutoSelect(id, list) == Returned(id))
  {
  }

  // ---------------------------------------------------------------------------------------
  // Version badge

  predicate AllDigits(s: string)
  {
    forall i :: 0 <= i < |s| ==> '0' <= s[i] <= '9'
  }

  /** The value of a string of decimal digits (0 for the empty string). */
  function DigitsValue(s: string): nat
    requires AllDigits(s)
  {
    if s == [] then 0 else 10 * DigitsValue(s[..|s| - 1]) + (s[|s| - 1] as int - '0' as int)
  }

  /** `Number(s)` for the strings the model reads: a run of decimal digits is its value (the
      empty string is 0); anything else is `NaN`, given as `None`. */
  function StringToNumber(s: string): (r: Option<nat>)
    ensures r.Some? <==> AllDigits(s)
  {
    if AllDigits(s) then Some(DigitsValue(s)) else None
  }

  /** Reading back the decimal text `String(n)` gives `n`. */
  lemma NumeralRoundTrip(n: nat)
    ensures StringToNumber(NatToString(n)) == Some(n)
  {
    NumeralValue(n);
  }

  /** The digits of `String(n)` have the value `n`. */
  lemma {:induction false} NumeralValue(n: nat)
    ensures DigitsValue(NatToString(n)) == n
  {
    if n >= 10 {
      NumeralValue(n / 10);
      NumeralStep(n);
    } else {
      var s := NatToString(n);
      DigitCharValue(n);
      assert s[..|s| - 1] == [] && s[|s| - 1] == DigitChar(n);
    }
  }

  /** Appending the last digit multiplies the value of the leading digits by ten and adds it. */
  lemma NumeralStep(n: nat)
    requires n >= 10 && DigitsValue(NatToString(n / 10)) == n / 10
    ensures DigitsValue(NatToString(n)) == n
  {
    var p, d := NatToString(n / 10), n % 10;
    DigitCharValue(d);
    assert NatToString(n) == p + [DigitChar(d)];
    DigitsValueAppend(p, DigitChar(d));
  }

  /** A digit appended to a string of digits adds to ten times its value. */
  lemma DigitsValueAppend(p: string, c: char)
    requires AllDigits(p) && '0' <= c <= '9'
    ensures AllDigits(p + [c]) && DigitsValue(p + [c]) == 10 * DigitsValue(p) + (c as int - '0' as int)
  {
    var s := p + [c];
    assert s[..|s| - 1] == p;
  }

  lemma DigitCharValue(d: nat)
    requires d < 10
    ensures DigitChar(d) as int - '0' as int == d
  {
    if d < 5 {
      assert d == 0 || d == 1 || d == 2 || d == 3 || d == 4;
    } else {
      assert d == 5 || d == 6 || d == 7 || d == 8 || d == 9;
    }
  }

  /** `v > 1`: numbers compare as they are; `true` is 1 and `null` 0; strings, and arrays
      through their text, are converted to a number; `undefined` and objects are `NaN`. */
  predicate GreaterThanOne(v: Value)
  {
    match v
    case Num(n) => n > 1
    case Str(s) => StringToNumber(s).Some? && StringToNumber(s).value > 1
    case Arr(_) => StringToNumber(ToString(v)).Some? && StringToNumber(ToString(v)).value > 1
    case _ => false
  }

  /** The `v{version}` badge of a tab, shown only when the version exceeds 1. */
  function Badge(version: Value): (r: Option<string>)
    ensures version.Num? ==> (r.Some? <==> version.n > 1)
    ensures r.Some? ==> r.value == "v" + ToString(version) && (version.Num? || version.Str? || version.Arr?)
    ensures version.Undefined? || version.Null? || version.Bool? || version.Obj? ==> r == None
  {
    if GreaterThanOne(version) then Some("v" + ToString(version)) else None
  }

  /** A version sent as its decimal text gets the same badge as the number: shown iff > 1. */
  lemma BadgeOfNumeral(n: nat)
    ensures Badge(Str(NatToString(n))).Some? <==> n > 1
    ensures Badge(Num(n)) == (if n > 1 then Some("v" + NatToString(n)) else None)
  {
    NumeralRoundTrip(n);
  }
}
