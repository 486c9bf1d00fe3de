/**
 The pattern-matching side of a blocking rule: an ordered list of URL filters,
 the first-match search over it, and the single (first-occurrence) replacement
 that `String.prototype.replace` performs with a non-global regular expression.

 The regular-expression engine itself is not modelled. It is a parameter: a
 pair of functions saying where a pattern first matches an input and what a
 replacement template expands to at that match.
 */
module Matching {

  datatype Option<+T> = None | Some(value: T)

  /** The half-open range `[start, end)` of an input that a pattern matched. */
  datatype Span = Span(start: nat, end: nat)

  /**
   An abstract regular-expression engine.
   - `exec(pattern, input)` is the leftmost match of `RegExp(pattern)` in
     `input`, if there is one.
   - `substitute(pattern, template, input, span)` is the replacement text that
     `template` expands to for the match `span` of `pattern` in `input`
     (capture references such as `$1` are resolved here).
   */
  datatype Engine = Engine(
    exec: (string, string) -> Option<Span>,
    substitute: (string, string, string, Span) -> string)

  /** A span lies within the input it was found in. */
  predicate SpanWithin(span: Span, input: string) {
    span.start <= span.end <= |input|
  }

  /** What every real engine guarantees: a match is a range of the input. */
  ghost predicate WellFormed(e: Engine) {
    forall p: string, s: string :: e.exec(p, s).Some? ==> SpanWithin(e.exec(p, s).value, s)
  }

  type RegExpEngine = e: Engine | WellFormed(e)
    witness Engine((p: string, s: string) => None, (p: string, t: string, s: string, m: Span) => t)

  /** `RegExp(pattern).test(input)`: the pattern matches somewhere in the input. */
  predicate Test(e: RegExpEngine, pattern: string, input: string) {
    e.exec(pattern, input).Some?
  }

  /** One entry of `urlFilter.url`: `{urlMatches}`. */
  datatype FilterEntry = FilterEntry(urlMatches: string)

  /** `urlFilter`: an object whose `url` list is ordered, first match wins. */
  datatype UrlFilter = UrlFilter(url: seq<FilterEntry>)

  /** Entry `i` is the first entry of `filters` whose pattern tests true on `url`. */
  ghost predicate IsFirstMatch(e: RegExpEngine, filters: seq<FilterEntry>, url: string, i: int) {
    && 0 <= i < |filters|
    && Test(e, filters[i].urlMatches, url)
    && forall j :: 0 <= j < i ==> !Test(e, filters[j].urlMatches, url)
  }

  /** No entry of `filters` tests true on `url` (in particular, when there are none). */
  ghost predicate NoneMatch(e: RegExpEngine, filters: seq<FilterEntry>, url: string) {
    forall j :: 0 <= j < |filters| ==> !Test(e, filters[j].urlMatches, url)
  }

  /** At most one index is the first match. */
  lemma FirstMatchIsUnique(e: RegExpEngine, filters: seq<FilterEntry>, url: string)
    ensures forall i, k :: IsFirstMatch(e, filters, url, i) && IsFirstMatch(e, filters, url, k) ==> i == k
  {
  }

  /**
   `filters.find(({urlMatches}) => RegExp(urlMatches).test(url))`: the first
   entry that matches, or nothing when none does.
   */
  function Find(e: RegExpEngine, filters: seq<FilterEntry>, url: string): (r: Option<FilterEntry>)
    ensures r.None? <==> NoneMatch(e, filters, url)
    ensures r.Some? ==> exists i :: IsFirstMatch(e, filters, url, i) && r.value == filters[i]
  {
    if filters == [] then None
    else if Test(e, filters[0].urlMatches, url) then
      assert IsFirstMatch(e, filters, url, 0);
      Some(filters[0])
    else
      var rest := Find(e, filters[1..], url);
      if rest.Some? then
        assert forall i :: IsFirstMatch(e, filters[1..], url, i) ==> IsFirstMatch(e, filters, url, i + 1);
        rest
      else
        assert forall j :: 1 <= j < |filters| ==> filters[j] == filters[1..][j - 1];
        rest
  }

  /**
   `input.replace(RegExp(pattern), template)` without the `g` flag: only the
   leftmost match is replaced, by the expanded template; the text before and
   after it is kept. Without a match the input comes back unchanged.
   */
  function ReplaceFirst(e: RegExpEngine, pattern: string, template: string, input: string): (r: string)
    ensures !Test(e, pattern, input) ==> r == input
    ensures Test(e, pattern, input) ==>
      var span := e.exec(pattern, input).value;
      var text := e.substitute(pattern, template, input, span);
      && |r| == |input| - (span.end - span.start) + |text|
      && r[..span.start] == input[..span.start]
      && r[span.start..span.start + |text|] == text
      && r[span.start + |text|..] == input[span.end..]
  {
    match e.exec(pattern, input)
    case None => input
    case Some(span) =>
      input[..span.start] + e.substitute(pattern, template, input, span) + input[span.end..]
  }

  /** Entries after the first matching one never change the outcome of the search. */
  lemma {:induction false} FindIgnoresLaterEntries(e: RegExpEngine, filters: seq<FilterEntry>, more: seq<FilterEntry>, url: string)
    requires Find(e, filters, url).Some?
    ensures Find(e, filters + more, url) == Find(e, filters, url)
  {
    if !Test(e, filters[0].urlMatches, url) {
      assert (filters + more)[1..] == filters[1..] + more;
      FindIgnoresLaterEntries(e, filters[1..], more, url);
    }
  }

  /** A list of entries none of which match can be put in front without changing the outcome. */
  lemma {:induction false} FindSkipsNonMatching(e: RegExpEngine, skipped: seq<FilterEntry>, filters: seq<FilterEntry>, url: string)
    requires NoneMatch(e, skipped, url)
    ensures Find(e, skipped + filters, url) == Find(e, filters, url)
  {
    if skipped != [] {
      assert (skipped + filters)[0] == skipped[0];
      assert (skipped + filters)[1..] == skipped[1..] + filters;
      assert !Test(e, skipped[0].urlMatches, url);
      FindSkipsNonMatching(e, skipped[1..], filters, url);
    } else {
      assert skipped + filters == filters;
    }
  }

  /** First match wins: when entry `i` is the first to match, the search yields entry `i`. */
  lemma FirstMatchWins(e: RegExpEngine, filters: seq<FilterEntry>, url: string, i: int)
    requires IsFirstMatch(e, filters, url, i)
    ensures Find(e, filters, url) == Some(filters[i])
  {
  }
}
