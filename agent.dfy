/** The base agent (backend/src/core/Agent.js): a bounded retry loop around one generation
    call that retries only on rate-limit errors, with exponential backoff, and the cleanup
    that turns the generated text into a parsed JSON value. The generation service and
    `JSON.parse` are parameters: `gen(i)` is what the i-th attempt's call gives back. */
module AgentCore {
  import opened Js
  import opened JsText

  /** `JSON.parse`: a value, or a thrown SyntaxError with its message. */
  type Parser = string -> Outcome<Value>

  /** One call of the generation service: the response text, or the message of what it threw. */
  datatype Generation = Generated(text: string) | GenerationFailed(message: string)

  const MaxRetries: nat := 3
  const NotInitialized := "Agent not initialized with API Key"
  const JsonFence := "```json"

  function ExhaustedMessage(name: string): string
  {
    "[" + name + "] Failed after 3 retries due to rate limits."
  }

  /** A fence-free string stays fence-free when cut down to a slice. */
  lemma SliceFenceFree(s: string, i: nat, j: nat)
    requires FenceFree(s) && i <= j <= |s|
    ensures FenceFree(s[i..j])
  {
    var t := s[i..j];
    forall k | 0 <= k < |t| - 2 ensures !(t[k] == '`' && t[k + 1] == '`' && t[k + 2] == '`') {
      assert t[k] == s[i + k] && t[k + 1] == s[i + k + 1] && t[k + 2] == s[i + k + 2];
    }
  }

  /** `text.replace(/```json/g, '').replace(/```/g, '').trim()`: no fence is left and
      neither end is white space. */
  function StripFences(text: string): (r: string)
    ensures FenceFree(r)
    ensures r != [] ==> !IsSpace(r[0]) && !IsSpace(r[|r| - 1])
  {
    StrippedIsFenceFree(text);
    Trim(RemoveAll(RemoveAll(text, JsonFence), Fence))
  }

  /** Trimming keeps a slice of the text with every fence removed, so it has none either. */
  lemma StrippedIsFenceFree(text: string)
    ensures FenceFree(Trim(RemoveAll(RemoveAll(text, JsonFence), Fence)))
  {
    var unfenced := RemoveAll(RemoveAll(text, JsonFence), Fence);
    RemoveFenceLeavesNone(RemoveAll(text, JsonFence));
    var r := Trim(unfenced);
    SliceFenceFree(unfenced, LeadingSpace(unfenced), LeadingSpace(unfenced) + |r|);
  }

  /** Text without backticks is only trimmed. */
  lemma StripUnfenced(text: string)
    requires '`' !in text
    ensures StripFences(text) == Trim(text)
  {
    RemoveAllKeepsPrefix(text, [], JsonFence);
    RemoveAllKeepsPrefix(text, [], Fence);
    assert text + [] == text;
  }

  /** A response wrapped in a json fence gives back its trimmed body. */
  lemma StripJsonFence(body: string)
    requires '`' !in body
    ensures StripFences(JsonFence + body + Fence) == Trim(body)
  {
    assert JsonFence + body + Fence == JsonFence + (body + Fence);
    RemoveAllLeading(JsonFence, body + Fence);
    RemoveAllKeepsPrefix(body, Fence, JsonFence);
    RemoveAllKeepsPrefix(body, Fence, Fence);
    RemoveAllLeading(Fence, []);
    assert Fence + [] == Fence && body + [] == body;
  }

  /** A response wrapped in a plain fence gives back its trimmed body, unless the body
      begins with `json`, which would make the opening fence a json fence. */
  lemma StripPlainFence(body: string)
    requires '`' !in body && !StartsWith(body, "json")
    ensures StripFences(Fence + body + Fence) == Trim(body)
  {
    var s := Fence + body + Fence;
    forall i ensures !OccursAt(s, JsonFence, i) {
      if i == 0 && |body| >= 4 {
        assert s[i..i + 7][3..] == body[..4];
      } else if i == 0 && |s| >= 7 {
        assert s[i..i + 7][6] == Fence[3 - |body|];
      } else if 0 < i && i + 7 <= |s| {
        assert i + 2 < |Fence| + |body| && s[i + 2] == body[i - 1];
        assert s[i..i + 7][2] == s[i + 2];
      }
    }
    RemoveAllNoMatch(s, JsonFence);
    assert s == Fence + (body + Fence);
    RemoveAllLeading(Fence, body + Fence);
    RemoveAllKeepsPrefix(body, Fence, Fence);
    RemoveAllLeading(Fence, []);
    assert Fence + [] == Fence && body + [] == body;
  }

  /** The span from the first '{' to the last '}' when the text has both; `substring`
      swaps the bounds when the last '}' comes before the first '{'. */
  function SliceBraces(s: string): (r: string)
    ensures '{' !in s || '}' !in s ==> r == s
    ensures '{' in s && '}' in s && IndexOf(s, '{') < LastIndexOf(s, '}') ==>
      var first, last := IndexOf(s, '{'), LastIndexOf(s, '}');
      r == s[first..last + 1] && r[0] == '{' && r[|r| - 1] == '}'
      && '{' !in s[..first] && '}' !in s[last + 1..]
    ensures '{' in s && '}' in s && IndexOf(s, '{') > LastIndexOf(s, '}') ==>
      r == s[LastIndexOf(s, '}') + 1..IndexOf(s, '{')] && '{' !in r && '}' !in r
  {
    var first := IndexOf(s, '{');
    var last := LastIndexOf(s, '}');
    if first != -1 && last != -1 then
      var r := Substring(s, first, last + 1);
      if first > last then
        assert r == s[last + 1..first];
        SwappedSliceHasNoBraces(s, first, last);
        r
      else r
    else s
  }

  /** Between a last '}' and a later first '{' there is neither brace. */
  lemma SwappedSliceHasNoBraces(s: string, first: int, last: int)
    requires 0 <= last < first <= |s| && '{' !in s[..first] && '}' !in s[last + 1..]
    ensures '{' !in s[last + 1..first] && '}' !in s[last + 1..first]
  {
    var r := s[last + 1..first];
    assert forall k :: 0 <= k < |r| ==> r[k] == s[..first][last + 1 + k] && r[k] == s[last + 1..][k];
  }

  /** The text handed to `JSON.parse`. */
  function Clean(text: string): string
  {
    SliceBraces(StripFences(text))
  }

  /** A json-fenced answer reaches `JSON.parse` as the span between the first `{` and the
      last `}` of its trimmed body. */
  lemma CleanFencedJson(body: string)
    requires '`' !in body
    ensures Clean(JsonFence + body + Fence) == SliceBraces(Trim(body))
  {
    StripJsonFence(body);
  }

  /** One level of double-encoding repair: a string that itself parses to an object or an
      array is replaced by that value; anything else is kept. */
  function Unwrap(v: Value, parse: Parser): (r: Value)
    ensures !v.Str? ==> r == v
    ensures v.Str? && parse(v.s).Returned? && (parse(v.s).value.Obj? || parse(v.s).value.Arr?) ==>
      r == parse(v.s).value
    ensures r != v ==> v.Str? && parse(v.s) == Returned(r) && (r.Obj? || r.Arr?)
  {
    if v.Str? then
      match parse(v.s)
      case Returned(nested) => if IsObjectType(nested) && !nested.Null? then nested else v
      case Threw(_) => v
    else v
  }

  /** Unwrapping is one level only: an unwrapped value is never unwrapped again. */
  lemma UnwrapIsOneLevel(v: Value, parse: Parser)
    ensures Unwrap(Unwrap(v, parse), parse) == Unwrap(v, parse)
  {
  }

  /** What one attempt of the loop body gives: the generation error, the parse error, or the
      parsed and unwrapped value. */
  function Attempt(g: Generation, parse: Parser): (r: Outcome<Value>)
    ensures g.GenerationFailed? ==> r == Threw(g.message)
    ensures g.Generated? && parse(Clean(g.text)).Threw? ==> r == parse(Clean(g.text))
    ensures g.Generated? && parse(Clean(g.text)).Returned? ==>
      r == Returned(Unwrap(parse(Clean(g.text)).value, parse))
  {
    match g
    case GenerationFailed(m) => Threw(m)
    case Generated(text) =>
      match parse(Clean(text))
      case Threw(m) => Threw(m)
      case Returned(v) => Returned(Unwrap(v, parse))
  }

  /** The catch block's test: `429` or `Too Many Requests` occurs somewhere in the message. */
  predicate IsRateLimit(message: string)
  {
    (exists k :: 0 <= k < |message| && OccursAt(message, "429", k))
    || (exists k :: 0 <= k < |message| && OccursAt(message, "Too Many Requests", k))
  }

  /** The test is the source's pair of `includes` calls. */
  lemma IsRateLimitIncludes(message: string)
    ensures IsRateLimit(message) <==> Includes(message, "429") || Includes(message, "Too Many Requests")
  {
  }

  predicate RateLimited(o: Outcome<Value>)
  {
    o.Threw? && IsRateLimit(o.message)
  }

  function Pow2(n: nat): (r: nat)
    ensures r >= 1
  {
    if n == 0 then 1 else 2 * Pow2(n - 1)
  }

  /** `Math.pow(2, attempt) * 2000`, the sleep after the attempt-th rate-limit error. */
  function Backoff(attempt: nat): nat
  {
    Pow2(attempt) * 2000
  }

  /** The sleeps last 4, 8 and 16 seconds, and each is longer than the one before. */
  lemma {:induction false} BackoffSchedule(i: nat, j: nat)
    requires 1 <= i < j
    ensures Backoff(1) == 4000 && Backoff(2) == 8000 && Backoff(3) == 16000
    ensures Backoff(i) < Backoff(j)
    decreases j
  {
    if j > i + 1 {
      BackoffSchedule(i, j - 1);
    }
  }

  class Agent {
    const name: string
    const roleDefinition: string
    const outputSchema: Value
    /** `this.model` is set */
    var initialized: bool

    constructor (name: string, roleDefinition: string, outputSchema: Value)
      ensures this.name == name && this.roleDefinition == roleDefinition
      ensures this.outputSchema == outputSchema && !initialized
    {
      this.name := name;
      this.roleDefinition := roleDefinition;
      this.outputSchema := outputSchema;
      initialized := false;
    }

    /** Binding a model handle (the API key itself is not modelled). */
    method Initialize()
      modifies this
      ensures initialized
    {
      initialized := true;
    }

    /** `run`: `calls` is the number of generation calls made, `delays` the backoff sleeps
        in the order they happen. */
    method Run(gen: nat -> Generation, parse: Parser) returns (r: Outcome<Value>, calls: nat, delays: seq<nat>)
      ensures !initialized ==> r == Threw(NotInitialized) && calls == 0 && delays == []
      ensures initialized ==> 1 <= calls <= MaxRetries
      ensures forall i :: 0 <= i < |delays| ==> delays[i] == Backoff(i + 1)
      ensures initialized ==> forall i :: 0 <= i < calls - 1 ==> RateLimited(Attempt(gen(i), parse))
      ensures initialized && !RateLimited(Attempt(gen(calls - 1), parse)) ==>
        r == Attempt(gen(calls - 1), parse) && |delays| == calls - 1
      ensures initialized && RateLimited(Attempt(gen(calls - 1), parse)) ==>
        calls == MaxRetries && |delays| == MaxRetries && r == Threw(ExhaustedMessage(name))
    {
      if !initialized {
        return Threw(NotInitialized), 0, [];
      }
      var attempt: nat := 0;
      calls, delays := 0, [];
      while attempt < MaxRetries
        invariant calls == attempt == |delays| <= MaxRetries
        invariant forall i :: 0 <= i < |delays| ==> delays[i] == Backoff(i + 1)
        invariant forall i :: 0 <= i < calls ==> RateLimited(Attempt(gen(i), parse))
      {
        var outcome := Attempt(gen(attempt), parse);
        calls := calls + 1;
        if !RateLimited(outcome) {
          return outcome, calls, delays;
        }
        attempt := attempt + 1;
        delays := delays + [Backoff(attempt)];
      }
      r := Threw(ExhaustedMessage(name));
    }
  }
}
