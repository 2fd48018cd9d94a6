/** `generateLocalSite` (backend/src/core/Orchestrator.js): where the preview of a generated
    web site goes and what its two files hold. Whether the directory creation and the two
    file writes succeed is a parameter; the clock reading is a parameter. */
module LocalSite {
  import opened Js
  import opened FileTree

  const DefaultHtml := "<h1>Generated Site</h1><p>Site was generated but content was missing.</p>"
  const DefaultCss := "body { font-family: sans-serif; }"
  const SitesBase := "http://localhost:3000/sites/"

  predicate IsAsciiAlnum(c: char)
  {
    ('a' <= c <= 'z') || ('A' <= c <= 'Z') || ('0' <= c <= '9')
  }

  /** The characters a sanitised name is made of: lower-case letters, digits, `_`. */
  predicate IsNameChar(c: char)
  {
    ('a' <= c <= 'z') || ('0' <= c <= '9') || c == '_'
  }

  function LowerAscii(c: char): (d: char)
    ensures 'A' <= c <= 'Z' ==> 'a' <= d <= 'z'
    ensures !('A' <= c <= 'Z') ==> d == c
  {
    if 'A' <= c <= 'Z' then (c as int - 'A' as int + 'a' as int) as char else c
  }

  /** `name.replace(/[^a-z0-9]/gi, '_').toLowerCase()`. Without the `u` flag the
      case-insensitive class only matches ASCII letters, so every other character becomes
      `_` and the lower-casing only touches ASCII letters. */
  function SanitizeName(name: string): (r: string)
    ensures |r| == |name|
    ensures forall i :: 0 <= i < |r| ==> IsNameChar(r[i])
    ensures forall i :: 0 <= i < |r| ==> (r[i] == '_' <==> !IsAsciiAlnum(name[i]) || name[i] == '_')
    ensures forall i :: 0 <= i < |r| && IsAsciiAlnum(name[i]) ==> r[i] == LowerAscii(name[i])
  {
    if name == [] then []
    else [if IsAsciiAlnum(name[0]) then LowerAscii(name[0]) else '_'] + SanitizeName(name[1..])
  }

  /** A sanitised name is its own sanitised form. */
  lemma {:induction false} SanitizeNameIdempotent(name: string)
    ensures SanitizeName(SanitizeName(name)) == SanitizeName(name)
  {
    var r := SanitizeName(name);
    var rr := SanitizeName(r);
    forall i | 0 <= i < |r| ensures rr[i] == r[i] {
      if r[i] != '_' {
        assert IsAsciiAlnum(r[i]) && LowerAscii(r[i]) == r[i];
      }
    }
  }

  /** The directory name: the sanitised project name and the timestamp. */
  function SiteName(projectName: string, now: nat): (dir: string)
    ensures forall i :: 0 <= i < |dir| ==> IsNameChar(dir[i])
  {
    var d := NatToString(now);
    assert forall i :: 0 <= i < |d| ==> IsNameChar(d[i]);
    SanitizeName(projectName) + "_" + d
  }

  function SiteUrl(dir: string): string
  {
    SitesBase + dir + "/index.html"
  }

  /** The preview's address and the text written to its `index.html` and `styles.css`. */
  datatype Site = Site(url: string, html: string, css: string)

  /** `lookup || fallback` for a lookup that did not throw. */
  function OrDefault(lookup: Lookup, fallback: Value): Value
  {
    if lookup.Found? then lookup.v else fallback
  }

  /** The contents of the two files: the tree's index page and its stylesheet (in the
      order of preference of `Stylesheet`), each replaced by its default when not found.
      A lookup that reads a property of `null` throws. */
  function SiteFiles(tech: Value): (r: Outcome<(Value, Value)>)
    ensures r.Returned? && Prop(tech, "file_structure").Returned? && Truthy(Prop(tech, "file_structure").value) ==>
      var root := Prop(tech, "file_structure").value;
      r.value.0 == (if FindFile(root, "index.html").Found? then FindFile(root, "index.html").v else Str(DefaultHtml))
      && r.value.1 == (if Stylesheet(root).Found? then Stylesheet(root).v else Str(DefaultCss))
    ensures Prop(tech, "file_structure").Returned? && !Truthy(Prop(tech, "file_structure").value) ==>
      r == Returned((Str(DefaultHtml), Str(DefaultCss)))
    ensures r.Threw? <==>
      (Prop(tech, "file_structure").Threw?
       || (Truthy(Prop(tech, "file_structure").value)
          && (FindFile(Prop(tech, "file_structure").value, "index.html").Throws?
              || Stylesheet(Prop(tech, "file_structure").value).Throws?)))
  {
    match Prop(tech, "file_structure")
    case Threw(m) => Threw(m)
    case Returned(root) =>
      if !Truthy(root) then Returned((Str(DefaultHtml), Str(DefaultCss)))
      else
        var index := FindFile(root, "index.html");
        if index.Throws? then Threw(index.message)
        else
          var style := Stylesheet(root);
          if style.Throws? then Threw(style.message)
          else Returned((OrDefault(index, Str(DefaultHtml)), OrDefault(style, Str(DefaultCss))))
  }

  /** `generateLocalSite(techArtifact, projectName)`: nothing in production; otherwise the
      site's address under the sanitised, time-stamped directory, unless a lookup throws,
      the file system fails, or a file's content is not a string (`fs.writeFileSync` only
      takes strings and byte buffers, and throws on anything else), all of which the
      function catches and answers with `null`. */
  function GenerateLocalSite(tech: Value, projectName: string, production: bool, now: nat, writable: bool): (r: Option<Site>)
    ensures production ==> r.None?
    ensures r.Some? <==>
      !production && writable && SiteFiles(tech).Returned?
      && SiteFiles(tech).value.0.Str? && SiteFiles(tech).value.1.Str?
    ensures r.Some? ==>
      (r.value.url == SiteUrl(SiteName(projectName, now))
       && Str(r.value.html) == SiteFiles(tech).value.0 && Str(r.value.css) == SiteFiles(tech).value.1)
  {
    if production then None
    else
      var dir := SiteName(projectName, now);
      match SiteFiles(tech)
      case Threw(_) => None
      case Returned(files) =>
        if writable && files.0.Str? && files.1.Str? then Some(Site(SiteUrl(dir), files.0.s, files.1.s)) else None
  }
}
