/** The renovation agent (backend/src/agents/RenovationAgent.js): a multimodal agent whose
    request is the text prompt followed by one inline-data part per attached image given as
    a `data:` URI, and which, unlike the base agent, makes a single attempt and parses the
    unfenced text as it is. The generation service and `JSON.parse` are parameters. */
module Renovation {
  import opened Js
  import opened JsText
  import opened AgentCore

  /** The text between the media type and the payload of a base64 data URI. */
  const Marker := ";base64,"

  /** The characters `.` does not match in a regular expression: the line terminators. */
  predicate IsLineTerminator(c: char)
  {
    c == '\n' || c == '\r' || c == '\U{2028}' || c == '\U{2029}'
  }

  predicate OneLine(s: string)
  {
    forall i :: 0 <= i < |s| ==> !IsLineTerminator(s[i])
  }

  /** The last position `p` with `1 <= p <= k` where the marker occurs in `rest`, or -1. */
  function LastMarker(rest: string, k: int): (p: int)
    requires k < |rest|
    ensures p == -1 || (1 <= p <= k && OccursAt(rest, Marker, p))
    ensures forall q :: p < q <= k && 1 <= q ==> !OccursAt(rest, Marker, q)
    decreases k
  {
    if k < 1 then -1
    else if OccursAt(rest, Marker, k) then k
    else LastMarker(rest, k - 1)
  }

  /** `uri.match(/^data:(.+);base64,(.+)$/)`: the media type and the payload. Both groups are
      greedy and non-empty and neither may hold a line terminator, so the split is at the
      last marker after `data:` that leaves a non-empty payload. */
  function MatchDataUri(s: string): (r: Option<(string, string)>)
    ensures r.Some? ==>
      "data:" + r.value.0 + Marker + r.value.1 == s && |r.value.0| > 0 && |r.value.1| > 0
      && OneLine(r.value.0) && OneLine(r.value.1)
    ensures r.Some? ==> forall q :: |r.value.0| < q && 5 + q + |Marker| < |s| ==> !OccursAt(s[5..], Marker, q)
    ensures r.None? && StartsWith(s, "data:") && OneLine(s) ==>
      forall q :: 1 <= q && 5 + q + |Marker| < |s| ==> !OccursAt(s[5..], Marker, q)
    ensures !StartsWith(s, "data:") || !OneLine(s) ==> r.None?
  {
    if !StartsWith(s, "data:") || !OneLine(s) then None
    else
      var rest := s[5..];
      var p := LastMarker(rest, |rest| - |Marker| - 1);
      if p == -1 then None
      else
        assert s == "data:" + rest && rest == rest[..p] + Marker + rest[p + |Marker|..];
        Some((rest[..p], rest[p + |Marker|..]))
  }

  /** A data URI built from a one-line media type and a one-line payload without `;` (as
      every base64 payload is) is split back into exactly those two parts. */
  lemma MatchOfBuiltUri(mimeType: string, data: string)
    requires |mimeType| > 0 && |data| > 0 && OneLine(mimeType) && OneLine(data) && ';' !in data
    ensures MatchDataUri("data:" + mimeType + Marker + data) == Some((mimeType, data))
  {
    var s := "data:" + mimeType + Marker + data;
    var rest := mimeType + Marker + data;
    var m := |mimeType|;
    BuiltUriShape(mimeType, data);
    MarkerOnlyAfterType(mimeType, data);
    assert OccursAt(s[5..], Marker, m) && 5 + m + |Marker| < |s|;
    var r := MatchDataUri(s);
    assert r.Some?;
    var k := |r.value.0|;
    assert rest == r.value.0 + Marker + r.value.1;
    assert OccursAt(rest, Marker, k) by {
      assert rest[k..k + 8] == Marker;
    }
    assert k + 8 < |rest|;
    assert k == m;
    SameSplit(r.value.0, r.value.1, mimeType, data);
  }

  /** The built URI starts with `data:`, is one line, and its text after `data:` is the
      media type, the marker and the payload. */
  lemma BuiltUriShape(mimeType: string, data: string)
    requires OneLine(mimeType) && OneLine(data)
    ensures var s := "data:" + mimeType + Marker + data;
      StartsWith(s, "data:") && OneLine(s) && s[5..] == mimeType + Marker + data
  {
    var s := "data:" + mimeType + Marker + data;
    var m := |mimeType|;
    assert s[..5] == "data:" && s[5..] == mimeType + Marker + data;
    forall i | 0 <= i < |s| ensures !IsLineTerminator(s[i]) {
      if 5 <= i < 5 + m { assert s[i] == mimeType[i - 5]; }
      else if 5 + m + 8 <= i { assert s[i] == data[i - 5 - m - 8]; }
    }
  }

  /** With no `;` in the payload, the only marker after the media type is the one that
      follows it directly. */
  lemma MarkerOnlyAfterType(mimeType: string, data: string)
    requires ';' !in data
    ensures var rest := mimeType + Marker + data;
      OccursAt(rest, Marker, |mimeType|)
      && forall q :: |mimeType| < q && q + 8 < |rest| ==> !OccursAt(rest, Marker, q)
  {
    var rest := mimeType + Marker + data;
    var m := |mimeType|;
    assert rest[m..m + 8] == Marker;
    forall q | m < q && q + 8 < |rest| ensures !OccursAt(rest, Marker, q) {
      if q < m + 8 {
        assert rest[q] == Marker[q - m];
      } else {
        assert rest[q] == data[q - m - 8];
      }
    }
  }

  /** Two marker-joined pairs that are equal and whose first parts have the same length are
      the same pair. */
  lemma SameSplit(a: string, b: string, c: string, d: string)
    requires a + Marker + b == c + Marker + d && |a| == |c|
    ensures a == c && b == d
  {
    var t := a + Marker + b;
    assert a == t[..|a|] == c;
    assert b == t[|a| + 8..] == d;
  }

  /** One element of the request: the text prompt or an image as `{ inlineData: {data, mimeType} }`. */
  datatype Part = Prompt(text: string) | InlineData(data: string, mimeType: string)

  /** The data URI an inline-data part was taken from. */
  function DataUri(p: Part): string
    requires p.InlineData?
  {
    "data:" + p.mimeType + Marker + p.data
  }

  /** The part one image contributes: a string starting with `data:` that matches the
      pattern gives one; anything else is skipped. */
  function ImagePart(image: Value): (r: seq<Part>)
    ensures |r| <= 1
    ensures |r| == 1 ==> r[0].InlineData? && image == Str(DataUri(r[0]))
    ensures !image.Str? ==> r == []
  {
    if image.Str? && StartsWith(image.s, "data:") then
      match MatchDataUri(image.s)
      case Some(groups) => [InlineData(groups.1, groups.0)]
      case None => []
    else []
  }

  /** The parts of the images, in their order. */
  function ImageParts(images: seq<Value>): (r: seq<Part>)
    ensures |r| <= |images|
  {
    if images == [] then [] else ImageParts(images[..|images| - 1]) + ImagePart(images[|images| - 1])
  }

  /** One more image adds its own part after those of the images before it. */
  lemma ImagePartsStep(images: seq<Value>, i: nat)
    requires i < |images|
    ensures ImageParts(images[..i + 1]) == ImageParts(images[..i]) + ImagePart(images[i])
  {
    assert images[..i + 1][..i] == images[..i];
  }

  /** Every part comes from one of the images: the data URI it was split from. */
  lemma {:induction false} ImagePartsFromImages(images: seq<Value>)
    ensures forall j :: 0 <= j < |ImageParts(images)| ==>
      ImageParts(images)[j].InlineData? && Str(DataUri(ImageParts(images)[j])) in images
    decreases |images|
  {
    if images != [] {
      var init := images[..|images| - 1];
      ImagePartsFromImages(init);
      assert forall x :: x in init ==> x in images;
    }
  }

  /** Images that all fail the test contribute nothing, and one matching image contributes
      exactly its part, after those of the images before it. */
  lemma {:induction false} ImagePartsAppend(images: seq<Value>, more: seq<Value>)
    ensures ImageParts(images + more) == ImageParts(images) + ImageParts(more)
    decreases |more|
  {
    if more == [] {
      assert images + more == images;
    } else {
      var init := more[..|more| - 1];
      assert (images + more)[..|images + more| - 1] == images + init;
      ImagePartsAppend(images, init);
    }
  }

  /** The error `images.forEach(...)` raises when the images are not an array. */
  const NoForEach := "images.forEach is not a function"

  /** The single attempt: the generation error, or `JSON.parse` of the unfenced, trimmed
      text, rethrowing whatever it throws; there is no retry and no brace slicing. */
  function Answer(g: Generation, parse: Parser): (r: Outcome<Value>)
    ensures g.GenerationFailed? ==> r == Threw(g.message)
    ensures g.Generated? ==> r == parse(StripFences(g.text))
  {
    match g
    case GenerationFailed(m) => Threw(m)
    case Generated(text) => parse(StripFences(text))
  }

  /** A rate-limit error, which the base agent retries, ends the renovation run at once. */
  lemma RateLimitIsNotRetried(message: string, parse: Parser)
    requires IsRateLimit(message)
    ensures RateLimited(Answer(GenerationFailed(message), parse))
    ensures Answer(GenerationFailed(message), parse) == Threw(message)
  {
  }

  class RenovationAgent {
    /** `this.model` is set */
    var initialized: bool

    constructor ()
      ensures !initialized
    {
      initialized := false;
    }

    method Initialize()
      modifies this
      ensures initialized
    {
      initialized := true;
    }

    /** The `images.forEach` loop: each matching image appends its inline-data part. */
    static method AddImages(start: seq<Part>, images: seq<Value>) returns (parts: seq<Part>)
      ensures parts == start + ImageParts(images)
    {
      parts := start;
      for i := 0 to |images|
        invariant parts == start + ImageParts(images[..i])
      {
        ImagePartsStep(images, i);
        var part := PartOf(images[i]);
        parts := parts + part;
      }
      assert images[..|images|] == images;
    }

    /** The body of the loop for one image. */
    static method PartOf(image: Value) returns (part: seq<Part>)
      ensures part == ImagePart(image)
    {
      part := [];
      if image.Str? && StartsWith(image.s, "data:") {
        var matches := MatchDataUri(image.s);
        if matches.Some? {
          part := [InlineData(matches.value.1, matches.value.0)];
        }
      }
    }

    /** `run(sharedState)`: `images` is `sharedState.images`, `prompt` the built text prompt
        and `gen` the generation service as a function of the request; `parts` is the request
        as far as it was built. */
    method Run(images: Value, prompt: string, gen: seq<Part> -> Generation, parse: Parser)
      returns (r: Outcome<Value>, parts: seq<Part>)
      ensures !initialized ==> r == Threw(NotInitialized) && parts == []
      ensures initialized && !Or(images, Arr([])).Arr? ==> r == Threw(NoForEach) && parts == [Prompt(prompt)]
      ensures initialized && Or(images, Arr([])).Arr? ==>
        parts == [Prompt(prompt)] + ImageParts(Or(images, Arr([])).items)
        && r == Answer(gen(parts), parse)
      ensures |parts| <= 1 + (if Or(images, Arr([])).Arr? then |Or(images, Arr([])).items| else 0)
    {
      if !initialized {
        return Threw(NotInitialized), [];
      }
      var list := Or(images, Arr([]));
      parts := [Prompt(prompt)];
      if !list.Arr? {
        return Threw(NoForEach), parts;
      }
      parts := AddImages(parts, list.items);
      r := Answer(gen(parts), parse);
    }
  }
}
