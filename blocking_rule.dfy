/**
 The blocking rule: for every request it is asked about it either redirects
 the request to a URL built from its `redirectUrl` template, or cancels it.
 */
module BlockingRules {
  import opened Matching
  import opened LiteralPatterns

  /**
   The `BlockingResponse` handed back to the browser: `{cancel: true}` or
   `{redirectUrl}`. A blocking rule has no "let the request through" answer.
   */
  datatype Verdict = Cancel | RedirectTo(redirectUrl: string)

  class BlockingRule {
    /** The filters inherited from the request-rule base; only read here. */
    var urlFilter: UrlFilter
    /** The redirect template; empty means "cancel". */
    var redirectUrl: string

    /**
     The redirect target for `url`: empty when there is no template; the
     template itself when no filter matches; otherwise `url` with the first
     match of the first matching filter's pattern replaced by the template.
     */
    function ExpressRedirectUrl(e: RegExpEngine, url: string): (r: string)
      reads this
      ensures redirectUrl == "" ==> r == ""
      ensures redirectUrl != "" && NoneMatch(e, urlFilter.url, url) ==> r == redirectUrl
      ensures forall i :: redirectUrl != "" && IsFirstMatch(e, urlFilter.url, url, i) ==>
        r == ReplaceFirst(e, urlFilter.url[i].urlMatches, redirectUrl, url)
    {
      if redirectUrl == "" then ""
      else
        match Find(e, urlFilter.url, url)
        case None => redirectUrl
        case Some(entry) =>
          FirstMatchIsUnique(e, urlFilter.url, url);
          ReplaceFirst(e, entry.urlMatches, redirectUrl, url)
    }

    /** The verdict for a request to `url`: redirect to the expressed URL, or cancel when it is empty. */
    function RequestCallback(e: RegExpEngine, url: string): (v: Verdict)
      reads this
      ensures v == Cancel <==> ExpressRedirectUrl(e, url) == ""
      ensures v != Cancel ==> v == RedirectTo(ExpressRedirectUrl(e, url))
      ensures redirectUrl == "" ==> v == Cancel
    {
      var target := ExpressRedirectUrl(e, url);
      if target != "" then RedirectTo(target) else Cancel
    }

    /** The setter that `setters` names for the `redirectUrl` detail. */
    method SetRedirectUrl(r: string)
      modifies this`redirectUrl
      ensures redirectUrl == r
      ensures urlFilter == old(urlFilter)
      ensures old(redirectUrl) == r ==> unchanged(this)
    {
      redirectUrl := r;
    }
  }

  /**
   On a match, the redirect target is `url` with exactly one span replaced:
   the leftmost match of the first matching filter, by the expanded template.
   */
  lemma MatchReplacesOneSpan(rule: BlockingRule, e: RegExpEngine, url: string, i: int)
    requires rule.redirectUrl != ""
    requires IsFirstMatch(e, rule.urlFilter.url, url, i)
    ensures
      var pattern := rule.urlFilter.url[i].urlMatches;
      var span := e.exec(pattern, url).value;
      rule.ExpressRedirectUrl(e, url)
        == url[..span.start] + e.substitute(pattern, rule.redirectUrl, url, span) + url[span.end..]
  {
  }

  /**
   Filters after a matching one have no effect: two rules with the same
   template, whose lists share a prefix in which some filter matches, give
   the same redirect target whatever follows that prefix.
   */
  lemma LaterFiltersHaveNoEffect(a: BlockingRule, b: BlockingRule, e: RegExpEngine, url: string,
                                 prefix: seq<FilterEntry>, x: seq<FilterEntry>, y: seq<FilterEntry>)
    requires b.redirectUrl == a.redirectUrl
    requires a.urlFilter.url == prefix + x && b.urlFilter.url == prefix + y
    requires !NoneMatch(e, prefix, url)
    ensures b.ExpressRedirectUrl(e, url) == a.ExpressRedirectUrl(e, url)
  {
    FindIgnoresLaterEntries(e, prefix, x, url);
    FindIgnoresLaterEntries(e, prefix, y, url);
  }

  /**
   With literal patterns and a template without `$`, a match gives
   `url[..start] + redirectUrl + url[end..]`, where `[start, end)` is the
   first occurrence of the pattern, so the length changes by the difference
   between the template's and the pattern's lengths.
   */
  lemma LiteralMatchSplicesTemplate(rule: BlockingRule, url: string, i: int)
    requires rule.redirectUrl != "" && '$' !in rule.redirectUrl
    requires IsFirstMatch(Literal, rule.urlFilter.url, url, i)
    ensures
      var pattern := rule.urlFilter.url[i].urlMatches;
      var span := LiteralExec(pattern, url).value;
      && url[span.start..span.end] == pattern
      && rule.ExpressRedirectUrl(Literal, url) == url[..span.start] + rule.redirectUrl + url[span.end..]
      && |rule.ExpressRedirectUrl(Literal, url)| == |url| - (span.end - span.start) + |rule.redirectUrl|
  {
    var pattern := rule.urlFilter.url[i].urlMatches;
    var span := LiteralExec(pattern, url).value;
    MatchReplacesOneSpan(rule, Literal, url, i);
    NoDollarExpandsVerbatim(rule.redirectUrl, url[..span.start], url[span.start..span.end], url[span.end..]);
  }

  /** With literal patterns, a non-empty template without `$` always redirects, never cancels. */
  lemma LiteralTemplateAlwaysRedirects(rule: BlockingRule, url: string)
    requires rule.redirectUrl != "" && '$' !in rule.redirectUrl
    ensures rule.RequestCallback(Literal, url).RedirectTo?
  {
  }

  /** The first listed filter decides even when a later one matches as well. */
  lemma FirstListedFilterDecides(rule: BlockingRule)
    requires rule.urlFilter.url == [FilterEntry("a"), FilterEntry("b")]
    requires rule.redirectUrl == "X"
    ensures rule.RequestCallback(Literal, "ab") == RedirectTo("Xb")
  {
    assert "ab"[0..1] == "a";
    assert IsFirstMatch(Literal, rule.urlFilter.url, "ab", 0);
    LiteralMatchSplicesTemplate(rule, "ab", 0);
    assert "ab"[1..] == "b";
  }

  /** Only the first occurrence of the pattern is replaced, the later ones are kept. */
  lemma OnlyFirstOccurrenceReplaced(rule: BlockingRule)
    requires rule.urlFilter.url == [FilterEntry("a")]
    requires rule.redirectUrl == "X"
    ensures rule.RequestCallback(Literal, "a-a") == RedirectTo("X-a")
  {
    assert "a-a"[0..1] == "a";
    assert IsFirstMatch(Literal, rule.urlFilter.url, "a-a", 0);
    LiteralMatchSplicesTemplate(rule, "a-a", 0);
    assert "a-a"[1..] == "-a";
  }

  /** A `$&` reference in the template reinserts the matched text around the replacement. */
  lemma MatchReferenceInTemplate(rule: BlockingRule)
    requires rule.urlFilter.url == [FilterEntry("b")]
    requires rule.redirectUrl == "$&"
    ensures rule.RequestCallback(Literal, "abc") == RedirectTo("abc")
  {
    var url := "abc";
    assert url[0..1][0] == 'a';
    assert url[1..2] == "b";
    assert IndexOf("b", url, 0) == Some(1);
    assert IsFirstMatch(Literal, rule.urlFilter.url, url, 0);
    MatchReplacesOneSpan(rule, Literal, url, 0);
    MatchReferenceExpansion(url[..1], url[1..2], url[2..]);
    assert url[..1] + "b" + url[2..] == url;
  }
}
