# Blocking rule of the request-interception engine

This project models the blocking rule of a browser extension that intercepts
outgoing requests. For each request it is asked about, a blocking rule gives a
verdict. It redirects the request to the target built from its `redirectUrl`
template, unless that target is empty (in particular when there is no
template); otherwise it cancels the request.

When the template is non-empty, the target is built like this:
- The rule's ordered `urlFilter.url` list of `{urlMatches}` patterns is searched
  for the first pattern that matches the URL.
- If no pattern matches, the target is the template itself.
- If one does, the target is the URL with the leftmost match of that pattern
  replaced by the expanded template. This is `String.prototype.replace` with a
  regular expression built without the `g` flag.

The project also models the class-level configuration of the rule kind:
- how its default details, its setter table and its extra-info list are laid
  over the ones it inherits;
- its registration with the rule factory.

Modules:
- `Matching` (matching.dfy): the abstract regular-expression engine `RegExpEngine`,
  the filter list, the first-match search `Find` and the single replacement
  `ReplaceFirst`. The engine is a pair of function values:
  - `exec(pattern, input)` gives the leftmost match span, if there is one.
    The subset type gives every match span the bounds
    `0 <= start <= end <= |input|`.
  - `substitute(pattern, template, input, span)` gives the text the template
    expands to for that match.
- `LiteralPatterns` (literal.dfy): a concrete engine, `Literal`, that reads
  every pattern as literal text: a pattern matches at its first occurrence and
  has no capture groups. This agrees with `RegExp` only for patterns made of
  ordinary characters (no metacharacters such as `+` or `.`); for a pattern
  like `a+` the results of `Literal` and of its lemmas say nothing about
  JavaScript. Its templates expand `$$`, `$&`,
  `` $` `` and `$'`; every other character stands for itself, which is how the
  ECMAScript replacement rules treat a match without captures.
- `BlockingRules` (blocking_rule.dfy): the `Verdict` datatype and the
  `BlockingRule` class with its fields `urlFilter` and `redirectUrl`, plus the
  lemmas about its behaviour.
- `RuleStatics` (statics.dfy): the layering functions, the `RuleClass` class
  (a rule kind's static properties), the `Factory` kind table, and the
  declaration sequence of the blocking rule kind.

Behaviour of the code worth noting:
- The code replaces only the first match (no `g` flag), not every match.
  `OnlyFirstOccurrenceReplaced` shows this.
- When a filter matches, the result is not the template verbatim. The text of
  the URL around the match is kept, even when the template has no capture
  references. `LiteralMatchSplicesTemplate` states the exact result.
- No `Allow` verdict exists. The code returns either `{redirectUrl}` or
  `{cancel: true}`.
- When the template is non-empty, the verdict depends on the expanded target,
  not on the template. A target that expands to the empty string (for example
  the template `$&` with an empty match in an empty URL) gives `Cancel`.

## Model

| member | source | states |
|---|---|---|
| `Matching.Find` | src/page/background/js/class/BlockingRule.js:36-38 | The result is empty exactly when no filter's pattern tests true on the URL; otherwise it is the entry at the first index whose pattern tests true, with every earlier entry failing the test. |
| `Matching.FirstMatchWins` | src/page/background/js/class/BlockingRule.js:36-38 | If entry `i` is the first one that matches, the search returns entry `i`. |
| `Matching.FindIgnoresLaterEntries` | src/page/background/js/class/BlockingRule.js:36-38 | Once some entry matches, appending more entries (matching or not) does not change the entry found. |
| `Matching.FindSkipsNonMatching` | src/page/background/js/class/BlockingRule.js:36-38 | Entries in front that do not match have no effect on the search. |
| `Matching.ReplaceFirst` | src/page/background/js/class/BlockingRule.js:40-43 | Without a match the input comes back unchanged. With a match, only the leftmost match span is replaced by the expanded template: the text before it and after it is kept, and the length changes by the length of the expansion minus the length of the span. |
| `LiteralPatterns.IndexOf` | src/page/background/js/class/BlockingRule.js:37 | The result is an occurrence of the pattern at or after the start position with no earlier occurrence at or after it; no result means no occurrence at or after the start position. |
| `LiteralPatterns.LiteralExec` | src/page/background/js/class/BlockingRule.js:40-41 | The match span lies within the input, has the pattern's length, covers exactly the pattern's text and is its first occurrence: no earlier position holds the pattern. No match exactly when the pattern occurs nowhere in the input. |
| `LiteralPatterns.NoDollarExpandsVerbatim` | src/page/background/js/class/BlockingRule.js:42 | The literal engine's template expansion (`ExpandNoCaptures`, used by `LiteralSubstitute`): a template with no `$` expands to itself, whatever the match and its surroundings. |
| `LiteralPatterns.MatchReferenceExpansion` | src/page/background/js/class/BlockingRule.js:42 | In the literal engine's template expansion (`ExpandNoCaptures`), `$&` expands to the matched text, `$$` to one dollar sign, `` $` `` and `$'` to the text before and after the match. |
| `BlockingRules.BlockingRule.ExpressRedirectUrl` | src/page/background/js/class/BlockingRule.js:31-45 | An empty template gives `''` for every URL and filter list. A non-empty template is returned verbatim when no filter matches, including when there are no filters. When filter `i` is the first to match, the result is the URL with that filter's pattern replaced once by the template. |
| `BlockingRules.BlockingRule.RequestCallback` | src/page/background/js/class/BlockingRule.js:12-17 | The verdict is `Cancel` exactly when the expressed redirect URL is empty. Otherwise it is `RedirectTo` of exactly that URL. An empty template always cancels. |
| `BlockingRules.BlockingRule.SetRedirectUrl` | src/page/background/js/class/BlockingRule.js:23-25 | Afterwards `redirectUrl` is the argument, and `urlFilter` and every other field are unchanged. When the field already holds the argument, nothing changes, so a repeated call is idempotent. |
| `BlockingRules.MatchReplacesOneSpan` | src/page/background/js/class/BlockingRule.js:39-43 | When filter `i` is the first match, the redirect target is `url[..start] + expansion + url[end..]` for the leftmost match `[start, end)` of that filter's pattern. |
| `BlockingRules.LaterFiltersHaveNoEffect` | src/page/background/js/class/BlockingRule.js:36-44 | Two rules with the same template whose lists are `prefix + x` and `prefix + y`, where some filter of `prefix` matches, give the same redirect target, whatever `x` and `y` are. |
| `BlockingRules.LiteralMatchSplicesTemplate` | src/page/background/js/class/BlockingRule.js:40-43 | With literal patterns and a template without `$`, a match at `[start, end)` gives `url[..start] + redirectUrl + url[end..]`, whose length is the URL's length minus `end - start` plus the template's length. |
| `BlockingRules.LiteralTemplateAlwaysRedirects` | src/page/background/js/class/BlockingRule.js:12-45 | With literal patterns, a non-empty template without `$` never cancels: the verdict is always a redirect. |
| `BlockingRules.FirstListedFilterDecides` | src/page/background/js/class/BlockingRule.js:36-43 | With filters `a` then `b`, template `X` and URL `ab`, both filters match, and the first one decides: the verdict is `RedirectTo("Xb")`. |
| `BlockingRules.OnlyFirstOccurrenceReplaced` | src/page/background/js/class/BlockingRule.js:40-43 | With filter `a`, template `X` and URL `a-a`, only the first occurrence is replaced: `RedirectTo("X-a")`. |
| `BlockingRules.MatchReferenceInTemplate` | src/page/background/js/class/BlockingRule.js:40-43 | With filter `b`, template `$&` and URL `abc`, the matched text is put back: `RedirectTo("abc")`. |
| `RuleStatics.LayerDetailsDefault` | src/page/background/js/class/BlockingRule.js:58-61 | The layered defaults keep every inherited key and value other than `redirectUrl`, have exactly one key more (unless `redirectUrl` was inherited), and map `redirectUrl` to `''`. |
| `RuleStatics.LayerSetters` | src/page/background/js/class/BlockingRule.js:66-69 | The layered setter table keeps every inherited entry other than `redirectUrl` and maps `redirectUrl` to `setRedirectUrl`. |
| `RuleStatics.RuleClass.Inherit` | src/page/background/js/class/BlockingRule.js:4 | Before the subclass declares its own statics, it sees the base class's statics, the same extra-info list object included. |
| `RuleStatics.RuleClass.DeclareBlockingStatics` | src/page/background/js/class/BlockingRule.js:53-81 | After the declarations, `instances` is a new empty map and the defaults and setters are the layered ones. `extraInfoSpec` is a freshly allocated list, element-wise equal to the inherited one. |
| `RuleStatics.Factory.Register` | src/page/background/js/class/BlockingRule.js:83 | The factory's kind table maps the kind name to the class and keeps every other entry. |
| `RuleStatics.DeclareBlockingRule` | src/page/background/js/class/BlockingRule.js:48-83 | The new kind has the layered statics and its own copy of the extra-info list. The base class is left untouched, and `blockingRules` is registered with the new kind. |

## Left out

- The regular-expression engine is not modelled: pattern compilation, capture groups, `$n` and `$<name>` expansion, and named groups. It is the parameter `RegExpEngine`. The concrete engine `Literal` covers only patterns without metacharacters.
- Exceptions thrown by `RegExp` on an invalid pattern are not modelled. The engine is total.
- The length of a string is counted in Dafny characters, not in UTF-16 code units as in JavaScript.
- The subscription to `browser.webRequest.onBeforeRequest` (line 75) is left out. It is host I/O: the host delivers URLs and receives verdicts.
- BlockingRule.RequestCallback: the `async` Promise wrapping is not modelled; the callback is a plain function. The `extraInfo` argument is omitted because the code never reads it.
- Concurrent evaluation, and any reader-writer discipline between setters and evaluation, are left out.
- `Binder.bind` (line 48) is left out. Its code is not part of this model.
- RuleStatics.Factory.Register: the factory's code is not part of this model. Registration is modelled only as adding the kind `blockingRules` to a map, with no error cases.
- The `RequestRule` base class is not part of this model. Its `urlFilter`, `detailsDefault`, `setters` and `extraInfoSpec` are given inputs. No member of the model writes `urlFilter`.
- RuleStatics.RuleClass.DeclareBlockingStatics: `instances` is a map value, so the identity of the fresh `Map` object is not captured. Key order of the spread objects is not captured either, since maps are unordered.
- The end-to-end scenario with a capturing pattern such as `^http://example\.com/(.*)$` and the template `https://safe.example/$1` cannot be stated. It needs a real regular-expression engine.
