/**
 A concrete engine for patterns made of ordinary characters only (no regular
 expression metacharacters). Such a pattern matches exactly where it occurs as
 a substring, it has no capture groups, and so a replacement template can use
 only the references that need no groups: `$$`, `$&`, `` $` `` and `$'`.
 */
module LiteralPatterns {
  import opened Matching

  /** `s[i..i + |p|]` is an occurrence of `p`. */
  predicate OccursAt(p: string, s: string, i: nat) {
    i + |p| <= |s| && s[i..i + |p|] == p
  }

  /** The first occurrence of `p` in `s` at or after `from`. */
  function IndexOf(p: string, s: string, from: nat): (r: Option<nat>)
    ensures r.Some? ==> from <= r.value && OccursAt(p, s, r.value)
    ensures r.Some? ==> forall j :: from <= j < r.value ==> !OccursAt(p, s, j)
    ensures r.None? ==> forall j :: from <= j ==> !OccursAt(p, s, j)
    decreases |s| - from
  {
    if from + |p| > |s| then None
    else if s[from..from + |p|] == p then Some(from)
    else IndexOf(p, s, from + 1)
  }

  /**
   Leftmost match of a pattern read as literal text: its first occurrence.
   Every pattern is read this way, so this agrees with `RegExp` only for
   patterns without metacharacters.
   */
  function LiteralExec(p: string, s: string): (r: Option<Span>)
    ensures r.Some? ==>
      && SpanWithin(r.value, s)
      && r.value.end - r.value.start == |p|
      && s[r.value.start..r.value.end] == p
    ensures r.Some? ==> forall j :: 0 <= j < r.value.start ==> !OccursAt(p, s, j)
    ensures r.None? <==> forall j: nat :: !OccursAt(p, s, j)
  {
    match IndexOf(p, s, 0)
    case None => None
    case Some(i) => Some(Span(i, i + |p|))
  }

  /**
   Expansion of a replacement template for a match with no capture groups:
   `$$` is a dollar sign, `$&` the matched text, `` $` `` the text before the
   match and `$'` the text after it; every other character, including a `$`
   not followed by one of these, stands for itself.
   */
  function ExpandNoCaptures(t: string, before: string, matched: string, after: string): (r: string)
  {
    if |t| >= 2 && t[0] == '$' && t[1] in "$&`'" then
      var reference := if t[1] == '$' then "$"
        else if t[1] == '&' then matched
        else if t[1] == '`' then before
        else after;
      reference + ExpandNoCaptures(t[2..], before, matched, after)
    else if |t| >= 1 then
      [t[0]] + ExpandNoCaptures(t[1..], before, matched, after)
    else
      ""
  }

  function LiteralSubstitute(p: string, t: string, s: string, span: Span): string
  {
    if SpanWithin(span, s) then ExpandNoCaptures(t, s[..span.start], s[span.start..span.end], s[span.end..])
    else t
  }

  const Literal: RegExpEngine := Engine(LiteralExec, LiteralSubstitute)

  /** A template without a dollar sign expands to itself, whatever was matched. */
  lemma {:induction false} NoDollarExpandsVerbatim(t: string, before: string, matched: string, after: string)
    requires '$' !in t
    ensures ExpandNoCaptures(t, before, matched, after) == t
  {
    if |t| >= 1 {
      assert t[0] != '$';
      assert '$' !in t[1..] by {
        forall k | 0 <= k < |t[1..]| ensures t[1..][k] != '$' { assert t[1..][k] == t[k + 1]; }
      }
      NoDollarExpandsVerbatim(t[1..], before, matched, after);
      assert [t[0]] + t[1..] == t;
    }
  }

  /** `$&` reinserts the matched text and `$$` yields a single dollar sign. */
  lemma MatchReferenceExpansion(before: string, matched: string, after: string)
    ensures ExpandNoCaptures("$&", before, matched, after) == matched
    ensures ExpandNoCaptures("$$", before, matched, after) == "$"
    ensures ExpandNoCaptures("[$`|$']", before, matched, after) == "[" + before + "|" + after + "]"
  {
    assert "$&"[2..] == "";
    assert "$$"[2..] == "";
    assert ExpandNoCaptures("]", before, matched, after) == "]" by { assert "]"[1..] == ""; }
    assert ExpandNoCaptures("$']", before, matched, after) == after + "]" by { assert "$']"[2..] == "]"; }
    assert ExpandNoCaptures("|$']", before, matched, after) == "|" + after + "]" by { assert "|$']"[1..] == "$']"; }
    assert ExpandNoCaptures("$`|$']", before, matched, after) == before + "|" + after + "]" by {
      assert "$`|$']"[2..] == "|$']";
    }
    assert "[$`|$']"[1..] == "$`|$']";
  }
}
