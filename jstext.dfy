/** The JavaScript string operations the core relies on: `indexOf`, `lastIndexOf`,
    `includes`, `startsWith`, `substring` (which swaps reversed bounds), `trim`, a global
    `replace` of a literal pattern by nothing, and `replace` of the first occurrence of a
    string pattern (whose replacement text expands `$` patterns). */
module JsText {

  predicate StartsWith(s: string, p: string)
  {
    |p| <= |s| && s[..|p|] == p
  }

  /** `p` occurs in `s` at index `i`. */
  predicate OccursAt(s: string, p: string, i: int)
  {
    0 <= i && i + |p| <= |s| && s[i..i + |p|] == p
  }

  /** `s.indexOf(p)` */
  function IndexOfString(s: string, p: string): (i: int)
    ensures -1 <= i <= |s|
    ensures i == -1 <==> forall k :: !OccursAt(s, p, k)
    ensures i >= 0 ==> OccursAt(s, p, i) && forall k :: 0 <= k < i ==> !OccursAt(s, p, k)
    decreases |s|
  {
    if StartsWith(s, p) then
      assert OccursAt(s, p, 0);
      0
    else if s == [] then -1
    else
      var j := IndexOfString(s[1..], p);
      assert !OccursAt(s, p, 0);
      assert forall k :: 1 <= k ==> (OccursAt(s[1..], p, k - 1) <==> OccursAt(s, p, k)) by {
        forall k | 1 <= k ensures OccursAt(s[1..], p, k - 1) <==> OccursAt(s, p, k) {
          if k + |p| <= |s| { assert s[1..][k - 1..k - 1 + |p|] == s[k..k + |p|]; }
        }
      }
      if j == -1 then -1
      else
        assert OccursAt(s, p, j + 1);
        j + 1
  }

  /** `s.includes(p)` */
  predicate Includes(s: string, p: string)
  {
    IndexOfString(s, p) >= 0
  }

  /** `s.indexOf(c)` for a one-character pattern. */
  function IndexOf(s: string, c: char): (i: int)
    ensures -1 <= i < |s|
    ensures i == -1 <==> c !in s
    ensures i >= 0 ==> s[i] == c && c !in s[..i]
  {
    if s == [] then -1
    else if s[0] == c then 0
    else
      var j := IndexOf(s[1..], c);
      if j == -1 then -1 else j + 1
  }

  /** `s.lastIndexOf(c)` for a one-character pattern. */
  function LastIndexOf(s: string, c: char): (i: int)
    ensures -1 <= i < |s|
    ensures i == -1 <==> c !in s
    ensures i >= 0 ==> s[i] == c && c !in s[i + 1..]
  {
    if s == [] then -1
    else if s[|s| - 1] == c then |s| - 1
    else
      assert s == s[..|s| - 1] + [s[|s| - 1]];
      LastIndexOf(s[..|s| - 1], c)
  }

  /** `s.substring(a, b)`: both bounds are clamped to the string, and reversed bounds are swapped. */
  function Substring(s: string, a: int, b: int): (r: string)
    ensures var lo := Clamp(Min(a, b), |s|); var hi := Clamp(Max(a, b), |s|);
      lo <= hi && r == s[lo..hi]
  {
    var x := Clamp(a, |s|);
    var y := Clamp(b, |s|);
    if x <= y then s[x..y] else s[y..x]
  }

  function Min(a: int, b: int): int { if a <= b then a else b }
  function Max(a: int, b: int): int { if a <= b then b else a }

  function Clamp(x: int, n: nat): (r: nat)
    ensures r <= n
  {
    if x < 0 then 0 else if x > n then n else x
  }

  /** `s.replace(/p/g, '')` for a literal pattern `p`: matches are found left to right
      without overlap and dropped. */
  function RemoveAll(s: string, p: string): (r: string)
    requires p != []
    ensures |r| <= |s|
    decreases |s|
  {
    if |s| < |p| then s
    else if s[..|p|] == p then RemoveAll(s[|p|..], p)
    else [s[0]] + RemoveAll(s[1..], p)
  }

  /** With no match of `p` anywhere, the global replace leaves the text as it is. */
  lemma {:induction false} RemoveAllNoMatch(s: string, p: string)
    requires p != [] && forall i :: !OccursAt(s, p, i)
    ensures RemoveAll(s, p) == s
    decreases |s|
  {
    if |s| >= |p| {
      assert !OccursAt(s, p, 0);
      forall i ensures !OccursAt(s[1..], p, i) {
        assert !OccursAt(s, p, i + 1);
        if 0 <= i && i + |p| <= |s| - 1 {
          var w, v := s[1..][i..i + |p|], s[i + 1..i + 1 + |p|];
          assert |w| == |v| && forall j :: 0 <= j < |w| ==> w[j] == v[j];
          assert w == v;
        }
      }
      RemoveAllNoMatch(s[1..], p);
      assert s == [s[0]] + s[1..];
    }
  }

  /** A leading match is dropped. */
  lemma RemoveAllLeading(p: string, u: string)
    requires p != []
    ensures RemoveAll(p + u, p) == RemoveAll(u, p)
  {
    assert (p + u)[..|p|] == p && (p + u)[|p|..] == u;
  }

  /** A prefix that cannot start a match is kept as it is, and the replace goes on after it. */
  lemma {:induction false} RemoveAllKeepsPrefix(t: string, u: string, p: string)
    requires p != [] && p[0] !in t
    ensures RemoveAll(t + u, p) == t + RemoveAll(u, p)
    decreases |t|
  {
    if t == [] {
      assert t + u == u && t + RemoveAll(u, p) == RemoveAll(u, p);
    } else {
      var s := t + u;
      if |s| < |p| {
        assert RemoveAll(u, p) == u;
      } else {
        assert t[0] in t;
        assert s[..|p|][0] == t[0] != p[0];
        assert s[1..] == t[1..] + u;
        RemoveAllKeepsPrefix(t[1..], u, p);
        calc {
          RemoveAll(s, p);
          [s[0]] + RemoveAll(t[1..] + u, p);
          [t[0]] + (t[1..] + RemoveAll(u, p));
          { assert t == [t[0]] + t[1..]; }
          t + RemoveAll(u, p);
        }
      }
    }
  }

  const Fence := "```"

  /** No three backticks in a row. */
  predicate FenceFree(r: string)
  {
    forall i :: 0 <= i < |r| - 2 ==> !(r[i] == '`' && r[i + 1] == '`' && r[i + 2] == '`')
  }

  /** Removing every fence leaves the first character of a text that does not start with one. */
  lemma RemoveFenceKeepsHead(s: string)
    requires s != [] && !StartsWith(s, Fence)
    ensures RemoveAll(s, Fence) != [] && RemoveAll(s, Fence)[0] == s[0]
  {
  }

  /** After `replace(/```/g, '')` no fence is left, even where removals bring backticks together. */
  lemma {:induction false} RemoveFenceLeavesNone(s: string)
    ensures FenceFree(RemoveAll(s, Fence))
    decreases |s|
  {
    var r := RemoveAll(s, Fence);
    if |s| < 3 {
    } else if s[..3] == Fence {
      RemoveFenceLeavesNone(s[3..]);
    } else {
      var t := RemoveAll(s[1..], Fence);
      RemoveFenceLeavesNone(s[1..]);
      assert r == [s[0]] + t;
      if s[0] == '`' {
        if s[1] != '`' {
          RemoveFenceKeepsHead(s[1..]);
        } else {
          assert s[2] != '`';
          if |s| == 3 {
            assert t == s[1..];
          } else {
            RemoveFenceKeepsHead(s[2..]);
            assert t == [s[1]] + RemoveAll(s[2..], Fence);
          }
          assert t[1] != '`';
        }
      }
      forall i | 0 <= i < |r| - 2 ensures !(r[i] == '`' && r[i + 1] == '`' && r[i + 2] == '`') {
        if i > 0 {
          assert r[i] == t[i - 1] && r[i + 1] == t[i] && r[i + 2] == t[i + 1];
        }
      }
    }
  }

  /** The characters `String.prototype.trim` removes: white space and line terminators. */
  predicate IsSpace(c: char)
  {
    c == ' ' || c == '\t' || c == '\n' || c == '\r' || c == '\U{000B}' || c == '\U{000C}'
    || c == '\U{00A0}' || c == '\U{1680}' || ('\U{2000}' <= c <= '\U{200A}')
    || c == '\U{2028}' || c == '\U{2029}' || c == '\U{202F}' || c == '\U{205F}'
    || c == '\U{3000}' || c == '\U{FEFF}'
  }

  /** The number of white-space characters `s` starts with. */
  function LeadingSpace(s: string): (n: nat)
    ensures n <= |s|
    ensures forall i :: 0 <= i < n ==> IsSpace(s[i])
    ensures n < |s| ==> !IsSpace(s[n])
  {
    if s != [] && IsSpace(s[0]) then 1 + LeadingSpace(s[1..]) else 0
  }

  /** The number of white-space characters `s` ends with. */
  function TrailingSpace(s: string): (n: nat)
    ensures n <= |s|
    ensures forall i :: |s| - n <= i < |s| ==> IsSpace(s[i])
    ensures n < |s| ==> !IsSpace(s[|s| - n - 1])
  {
    if s != [] && IsSpace(s[|s| - 1]) then 1 + TrailingSpace(s[..|s| - 1]) else 0
  }

  /** `s.trim()`: what is left of `s` once its leading and its trailing white space are
      dropped; neither end of it is white space. */
  function Trim(s: string): (r: string)
    ensures LeadingSpace(s) + |r| <= |s| && r == s[LeadingSpace(s)..LeadingSpace(s) + |r|]
    ensures forall k :: LeadingSpace(s) + |r| <= k < |s| ==> IsSpace(s[k])
    ensures r != [] ==> !IsSpace(r[0]) && !IsSpace(r[|r| - 1])
  {
    var i := LeadingSpace(s);
    var t := s[i..];
    var n := TrailingSpace(t);
    assert forall k :: |t| - n <= k < |t| ==> IsSpace(t[k]);
    t[..|t| - n]
  }

  /** The replacement text `replace` inserts for a string pattern (no capture groups):
      `$$` is a dollar sign, `$&` the match, `` $` `` the text before it, `$'` the text after it. */
  function Substitute(repl: string, matched: string, before: string, after: string): string
    decreases |repl|
  {
    if repl == [] then []
    else if |repl| >= 2 && repl[0] == '$' && repl[1] == '$' then "$" + Substitute(repl[2..], matched, before, after)
    else if |repl| >= 2 && repl[0] == '$' && repl[1] == '&' then matched + Substitute(repl[2..], matched, before, after)
    else if |repl| >= 2 && repl[0] == '$' && repl[1] == '`' then before + Substitute(repl[2..], matched, before, after)
    else if |repl| >= 2 && repl[0] == '$' && repl[1] == '\'' then after + Substitute(repl[2..], matched, before, after)
    else [repl[0]] + Substitute(repl[1..], matched, before, after)
  }

  /** `s.replace(p, repl)` for a string pattern `p`: only the first occurrence is replaced. */
  function ReplaceFirst(s: string, p: string, repl: string): string
  {
    var i := IndexOfString(s, p);
    if i < 0 || i + |p| > |s| then s
    else s[..i] + Substitute(repl, p, s[..i], s[i + |p|..]) + s[i + |p|..]
  }

  /** `replace` copies the replacement text unchanged when it holds no `$`. */
  lemma {:induction false} SubstituteLiteral(repl: string, matched: string, before: string, after: string)
    requires '$' !in repl
    ensures Substitute(repl, matched, before, after) == repl
    decreases |repl|
  {
    if repl != [] {
      assert '$' !in repl[1..] by {
        forall x | x in repl[1..] ensures x in repl { }
      }
      SubstituteLiteral(repl[1..], matched, before, after);
      assert repl == [repl[0]] + repl[1..];
    }
  }
}
