/**
 * URL rewriting (`rewriteUrls`) and redirect translation (`handleRedirect`).
 *
 * `rewriteUrls` is two global regular-expression replacements, hand-coded here:
 *  1. the upstream base URL, used as a pattern as it stands, so each `.` in it
 *     matches any character except a line terminator, becomes the worker origin;
 *  2. `(href|src|action)=["'](\/.*?)["']` becomes `$1="<origin>$2"`.
 * A global replacement scans left to right and resumes after each match, so
 * matches never overlap.
 */
module UrlRewriter {
  import opened Builtins
  import opened Http

  /** `CHROME_WEBSTORE_BASE_URL` */
  const BaseUrl: string := "https://chromewebstore.google.com"

  /** The characters a regular-expression `.` does not match. */
  predicate IsLineTerminator(c: char) {
    c == '\n' || c == '\r' || c == '\U{2028}' || c == '\U{2029}'
  }

  /** One pattern character against one text character: `.` is the wildcard. */
  predicate PatternCharMatches(p: char, c: char) {
    if p == '.' then !IsLineTerminator(c) else c == p
  }

  /** The base URL, read as a pattern, matches at the start of `s`. */
  predicate BaseMatch(s: string) {
    |BaseUrl| <= |s| && forall k :: 0 <= k < |BaseUrl| ==> PatternCharMatches(BaseUrl[k], s[k])
  }

  // ---------------------------------------------------------------------------
  // Pass 1: `content.replace(new RegExp(BaseUrl, "g"), origin)`

  function ReplaceBase(s: string, origin: string): string
    decreases |s|
  {
    if |s| == 0 then ""
    else if BaseMatch(s) then origin + ReplaceBase(s[|BaseUrl|..], origin)
    else [s[0]] + ReplaceBase(s[1..], origin)
  }

  /** The number of matches the left-to-right scan of pass 1 replaces. */
  function BaseMatchCount(s: string): nat
    decreases |s|
  {
    if |s| == 0 then 0
    else if BaseMatch(s) then 1 + BaseMatchCount(s[|BaseUrl|..])
    else BaseMatchCount(s[1..])
  }

  /** A literal occurrence of the base URL is a match. */
  lemma LiteralBaseMatches(s: string)
    requires StartsWith(s, BaseUrl)
    ensures BaseMatch(s)
  {
    forall k | 0 <= k < |BaseUrl| ensures PatternCharMatches(BaseUrl[k], s[k]) {
      assert s[k] == s[..|BaseUrl|][k];
    }
  }

  /** Because the pattern is not escaped, a host with other characters in place of its dots matches too. */
  lemma {:induction false} DotsAreWildcards(origin: string, rest: string)
    ensures BaseMatch("https://chromewebstore-google-com" + rest)
    ensures ReplaceBase("https://chromewebstore-google-com" + rest, origin) == origin + ReplaceBase(rest, origin)
  {
    var s := "https://chromewebstore-google-com" + rest;
    assert s[..|BaseUrl|] == "https://chromewebstore-google-com";
    forall k | 0 <= k < |BaseUrl| ensures PatternCharMatches(BaseUrl[k], s[k]) {
      assert s[k] == s[..|BaseUrl|][k];
    }
    assert s[|BaseUrl|..] == rest;
  }

  /** With no match anywhere, pass 1 returns its input unchanged. */
  lemma {:induction false} ReplaceBaseUnchanged(s: string, origin: string)
    requires forall i :: 0 <= i < |s| ==> !BaseMatch(s[i..])
    ensures ReplaceBase(s, origin) == s
    decreases |s|
  {
    if |s| > 0 {
      assert s[0..] == s;
      forall i | 0 <= i < |s| - 1 ensures !BaseMatch(s[1..][i..]) {
        assert s[1..][i..] == s[i + 1..];
      }
      ReplaceBaseUnchanged(s[1..], origin);
      assert s == [s[0]] + s[1..];
    }
  }

  /** A position where no match starts is copied as it is. */
  lemma ReplaceBaseCopy(s: string, origin: string)
    requires |s| > 0 && !BaseMatch(s)
    ensures ReplaceBase(s, origin) == [s[0]] + ReplaceBase(s[1..], origin)
  {
  }

  /** Positions where no match starts are copied through as they are. */
  lemma ReplaceBaseSkip(s: string, k: nat, origin: string)
    requires k <= |s|
    requires forall i :: 0 <= i < k ==> !BaseMatch(s[i..])
    ensures ReplaceBase(s, origin) == s[..k] + ReplaceBase(s[k..], origin)
  {
    forall t | |t| > 0 && !BaseMatch(t) ensures ReplaceBase(t, origin) == [t[0]] + ReplaceBase(t[1..], origin) {
      ReplaceBaseCopy(t, origin);
    }
    CopiedPrefix(t => ReplaceBase(t, origin), t => !BaseMatch(t), s, k);
  }

  /** The leftmost match is replaced by the origin and the scan resumes after it. */
  lemma ReplaceBaseFirstMatch(s: string, k: nat, origin: string)
    requires k < |s| && BaseMatch(s[k..])
    requires forall i :: 0 <= i < k ==> !BaseMatch(s[i..])
    ensures ReplaceBase(s, origin) == s[..k] + origin + ReplaceBase(s[k + |BaseUrl|..], origin)
  {
    ReplaceBaseSkip(s, k, origin);
    assert s[k..][|BaseUrl|..] == s[k + |BaseUrl|..];
  }

  /** Each replaced match changes the length by the difference between origin and base URL. */
  lemma {:induction false} ReplaceBaseLength(s: string, origin: string)
    ensures |ReplaceBase(s, origin)| == |s| + BaseMatchCount(s) * (|origin| - |BaseUrl|)
    ensures BaseMatchCount(s) * |BaseUrl| <= |s|
    decreases |s|
  {
    if |s| > 0 {
      var d := |origin| - |BaseUrl|;
      if BaseMatch(s) {
        var rest := s[|BaseUrl|..];
        ReplaceBaseLength(rest, origin);
        var c := BaseMatchCount(rest);
        assert BaseMatchCount(s) == c + 1;
        MulSucc(c, d);
        MulSucc(c, |BaseUrl|);
      } else {
        ReplaceBaseLength(s[1..], origin);
      }
    }
  }

  // ---------------------------------------------------------------------------
  // Pass 2: `content.replace(/(href|src|action)=["'](\/.*?)["']/g, '$1="<origin>$2"')`

  predicate IsQuote(c: char) {
    c == '"' || c == '\''
  }

  predicate IsAttrName(name: string) {
    name == "href" || name == "src" || name == "action"
  }

  /** `s[from..to]` holds neither a quote nor a line terminator. */
  predicate Plain(s: string, from: nat, to: nat)
    requires from <= to <= |s|
  {
    forall k :: from <= k < to ==> !IsQuote(s[k]) && !IsLineTerminator(s[k])
  }

  /** A match of the attribute pattern at the start of `s`, `length` characters long. */
  datatype AttrMatch = AttrMatch(name: string, value: string, length: nat)

  /**
   * `m` is the match at the start of `s`: name `=` quote, then a value that
   * starts with `/` and runs, with no line break, to the first quote after it.
   */
  predicate IsAttrMatch(s: string, m: AttrMatch) {
    var n := |m.name|;
    IsAttrName(m.name) && StartsWith(s, m.name) &&
    m.length == n + |m.value| + 3 && m.length <= |s| &&
    s[n] == '=' && IsQuote(s[n + 1]) &&
    |m.value| >= 1 && m.value == s[n + 2..m.length - 1] && m.value[0] == '/' &&
    Plain(s, n + 3, m.length - 1) && IsQuote(s[m.length - 1])
  }

  /** Which attribute name starts `s` (at most one can). */
  function AttrNameAt(s: string): (r: Option<string>)
    ensures r.Some? ==> IsAttrName(r.value) && StartsWith(s, r.value)
    ensures r.None? ==> !StartsWith(s, "href") && !StartsWith(s, "src") && !StartsWith(s, "action")
  {
    if StartsWith(s, "href") then Some("href")
    else if StartsWith(s, "src") then Some("src")
    else if StartsWith(s, "action") then Some("action")
    else None
  }

  /** The lazy `.*?` then `["']`: the first quote at or after `from`, unless a line terminator comes first. */
  function ClosingQuote(s: string, from: nat): (r: Option<nat>)
    requires from <= |s|
    ensures r.Some? ==> from <= r.value < |s| && IsQuote(s[r.value]) && Plain(s, from, r.value)
    ensures r.None? ==> forall j :: from <= j < |s| && Plain(s, from, j) ==> !IsQuote(s[j])
    decreases |s| - from
  {
    if from == |s| || IsLineTerminator(s[from]) then None
    else if IsQuote(s[from]) then Some(from)
    else ClosingQuote(s, from + 1)
  }

  /** The attribute pattern tried at the start of `s`. */
  function AttrMatchAt(s: string): (r: Option<AttrMatch>)
    ensures r.Some? ==> IsAttrMatch(s, r.value)
    ensures r.None? ==> forall m :: !IsAttrMatch(s, m)
  {
    match AttrNameAt(s)
    case None =>
      assert forall m :: !IsAttrMatch(s, m) by {
        forall m | IsAttrMatch(s, m) ensures false {
          NameDetermined(s, m.name);
        }
      }
      None
    case Some(name) =>
      var n := |name|;
      if n + 3 <= |s| && s[n] == '=' && IsQuote(s[n + 1]) && s[n + 2] == '/' then
        match ClosingQuote(s, n + 3)
        case Some(j) => Some(AttrMatch(name, s[n + 2..j], j + 1))
        case None =>
          assert forall m :: !IsAttrMatch(s, m) by {
            forall m | IsAttrMatch(s, m) ensures false {
              NameDetermined(s, m.name);
            }
          }
          None
      else
        assert forall m :: !IsAttrMatch(s, m) by {
          forall m | IsAttrMatch(s, m) ensures false {
            NameDetermined(s, m.name);
          }
        }
        None
  }

  /** The attribute name at a position is unique: none of the three is a prefix of another. */
  lemma NameDetermined(s: string, name: string)
    requires IsAttrName(name) && StartsWith(s, name)
    ensures AttrNameAt(s) == Some(name)
  {
    assert s[0] == name[0];
  }

  /** The match, when there is one, is unique: the lazy value ends at the first quote. */
  lemma AttrMatchUnique(s: string, m: AttrMatch)
    requires IsAttrMatch(s, m)
    ensures AttrMatchAt(s) == Some(m)
  {
    NameDetermined(s, m.name);
    var n := |m.name|;
    assert s[n + 2] == m.value[0];
    var r := ClosingQuote(s, n + 3);
    assert Plain(s, n + 3, m.length - 1);
  }

  function RewriteAttrs(s: string, origin: string): string
    decreases |s|
  {
    if |s| == 0 then ""
    else match AttrMatchAt(s)
      case Some(m) => m.name + "=\"" + origin + m.value + "\"" + RewriteAttrs(s[m.length..], origin)
      case None => [s[0]] + RewriteAttrs(s[1..], origin)
  }

  /** `rewriteUrls(content, origin)`: pass 1, then pass 2 on its output. */
  function RewriteUrls(content: string, origin: string): string {
    RewriteAttrs(ReplaceBase(content, origin), origin)
  }

  /** With no attribute match anywhere, pass 2 returns its input unchanged. */
  lemma {:induction false} RewriteAttrsUnchanged(s: string, origin: string)
    requires forall i :: 0 <= i < |s| ==> AttrMatchAt(s[i..]).None?
    ensures RewriteAttrs(s, origin) == s
    decreases |s|
  {
    if |s| > 0 {
      assert s[0..] == s;
      forall i | 0 <= i < |s| - 1 ensures AttrMatchAt(s[1..][i..]).None? {
        assert s[1..][i..] == s[i + 1..];
      }
      RewriteAttrsUnchanged(s[1..], origin);
      assert s == [s[0]] + s[1..];
    }
  }

  /** A position where no attribute match starts is copied as it is. */
  lemma RewriteAttrsCopy(s: string, origin: string)
    requires |s| > 0 && AttrMatchAt(s).None?
    ensures RewriteAttrs(s, origin) == [s[0]] + RewriteAttrs(s[1..], origin)
  {
  }

  /** Positions where no attribute match starts are copied through as they are. */
  lemma RewriteAttrsSkip(s: string, k: nat, origin: string)
    requires k <= |s|
    requires forall i :: 0 <= i < k ==> AttrMatchAt(s[i..]).None?
    ensures RewriteAttrs(s, origin) == s[..k] + RewriteAttrs(s[k..], origin)
  {
    forall t | |t| > 0 && AttrMatchAt(t).None? ensures RewriteAttrs(t, origin) == [t[0]] + RewriteAttrs(t[1..], origin) {
      RewriteAttrsCopy(t, origin);
    }
    CopiedPrefix(t => RewriteAttrs(t, origin), t => AttrMatchAt(t).None?, s, k);
  }

  /**
   * One attribute with a root-relative value: the value is prefixed with the
   * origin and re-quoted with double quotes, whatever the two quotes were
   * (they need not match). A value starting with `//` is prefixed as well.
   */
  lemma AttributeRewritten(name: string, q1: char, value: string, q2: char, rest: string, origin: string)
    requires IsAttrName(name) && IsQuote(q1) && IsQuote(q2)
    requires |value| >= 1 && value[0] == '/'
    requires forall k :: 1 <= k < |value| ==> !IsQuote(value[k]) && !IsLineTerminator(value[k])
    ensures RewriteAttrs(name + "=" + [q1] + value + [q2] + rest, origin)
         == name + "=\"" + origin + value + "\"" + RewriteAttrs(rest, origin)
  {
    var s := name + "=" + [q1] + value + [q2] + rest;
    AttrText(name, q1, value, q2, rest);
    AttrMatchUnique(s, AttrMatch(name, value, |name| + |value| + 3));
  }

  /** `name=q1 value q2` followed by more text is a match of the attribute pattern. */
  lemma AttrText(name: string, q1: char, value: string, q2: char, rest: string)
    requires IsAttrName(name) && IsQuote(q1) && IsQuote(q2)
    requires |value| >= 1 && value[0] == '/'
    requires forall k :: 1 <= k < |value| ==> !IsQuote(value[k]) && !IsLineTerminator(value[k])
    ensures var s := name + "=" + [q1] + value + [q2] + rest;
            var m := AttrMatch(name, value, |name| + |value| + 3);
            IsAttrMatch(s, m) && s[m.length..] == rest
  {
    var a := name + "=" + [q1];
    var c := [q2] + rest;
    var s := name + "=" + [q1] + value + [q2] + rest;
    var n := |name|;
    AppendAssoc(a + value, [q2], rest);
    SliceParts(a, value, c);
    assert s[n] == a[n] && s[n + 1] == a[n + 1] by { assert s[..|a|] == a; }
    assert StartsWith(s, name) by { assert s[..n] == a[..n]; }
    SliceElements(s, n + 2, value);
    assert s[n + |value| + 2] == c[0] && s[n + |value| + 3..] == c[1..];
    var m := AttrMatch(name, value, n + |value| + 3);
    assert Plain(s, n + 3, m.length - 1);
  }

  /** Pass 2 leaves an attribute whose value does not start with `/` alone. */
  lemma NonRootValueKept(name: string, q: char, rest: string)
    requires IsAttrName(name) && IsQuote(q)
    requires |rest| == 0 || rest[0] != '/'
    ensures AttrMatchAt(name + "=" + [q] + rest).None?
  {
    var s := name + "=" + [q] + rest;
    NameDetermined(s, name) by { assert s[..|name|] == name; }
    if |rest| > 0 {
      assert s[|name| + 2] == rest[0];
    }
  }

  /** Content holding no match of either pattern is returned unchanged. */
  lemma RewriteUrlsUnchanged(content: string, origin: string)
    requires forall i :: 0 <= i < |content| ==> !BaseMatch(content[i..])
    requires forall i :: 0 <= i < |content| ==> AttrMatchAt(content[i..]).None?
    ensures RewriteUrls(content, origin) == content
  {
    ReplaceBaseUnchanged(content, origin);
    RewriteAttrsUnchanged(content, origin);
  }

  /** Pass 1 on an attribute holding the base URL: only the base URL itself is replaced in the head. */
  lemma PassOneOnAbsoluteAttr(name: string, q: char, tail: string, origin: string)
    requires IsAttrName(name) && IsQuote(q)
    ensures ReplaceBase(name + "=" + [q] + BaseUrl + tail, origin)
         == name + "=" + [q] + origin + ReplaceBase(tail, origin)
  {
    var head := name + "=" + [q];
    var s := head + BaseUrl + tail;
    var k := |head|;
    NoBaseMatchBeforeValue(name, q, tail);
    SliceParts(head, BaseUrl, tail);
    StartsWithAppend(BaseUrl, tail);
    LiteralBaseMatches(BaseUrl + tail);
    ReplaceBaseFirstMatch(s, k, origin);
  }

  /** No match of pass 1 starts inside `name=q`. */
  lemma NoBaseMatchBeforeValue(name: string, q: char, tail: string)
    requires IsAttrName(name) && IsQuote(q)
    ensures var s := name + "=" + [q] + BaseUrl + tail;
            forall i :: 0 <= i < |name| + 2 ==> !BaseMatch(s[i..])
  {
    var head := name + "=" + [q];
    var s := head + BaseUrl + tail;
    forall i | 0 <= i < |head| ensures !BaseMatch(s[i..]) {
      assert s[i..] == head[i..] + (BaseUrl + tail);
      NoBaseMatchInHead(name, q, i, s[i..], BaseUrl + tail);
    }
  }

  lemma NoBaseMatchInHead(name: string, q: char, i: nat, u: string, after: string)
    requires IsAttrName(name) && IsQuote(q) && i < |name| + 2
    requires |after| > 0 && after[0] == 'h'
    requires u == (name + "=" + [q])[i..] + after
    ensures !BaseMatch(u)
  {
    var head := name + "=" + [q];
    assert u[0] == head[i];
    if i + 1 < |head| {
      assert u[1] == head[i + 1];
    } else {
      assert u[1] == after[0];
    }
    assert !(u[0] == 'h' && u[1] == 't');
    assert !PatternCharMatches(BaseUrl[0], u[0]) || !PatternCharMatches(BaseUrl[1], u[1]);
  }

  /** Pass 2 starts no match inside `name=q` when the value does not start with `/`. */
  lemma PassTwoSkipsHead(name: string, q: char, value: string, origin: string)
    requires IsAttrName(name) && IsQuote(q)
    requires |value| == 0 || value[0] != '/'
    ensures RewriteAttrs(name + "=" + [q] + value, origin) == name + "=" + [q] + RewriteAttrs(value, origin)
  {
    var head := name + "=" + [q];
    var t := head + value;
    var k := |head|;
    forall i | 0 <= i < k ensures AttrMatchAt(t[i..]).None? {
      if i == 0 {
        assert t[0..] == t;
        NonRootValueKept(name, q, value);
      } else {
        assert t[i..][0] == head[i];
        NoNameInside(name, q, i, t[i..]);
      }
    }
    RewriteAttrsSkip(t, k, origin);
    assert t[..k] == head;
    assert t[k..] == value;
  }

  /**
   * Pass order: an absolute upstream URL inside an attribute is turned into
   * the origin by pass 1; since the origin does not start with `/`, pass 2
   * does not prefix it a second time, and the attribute keeps its own quote.
   */
  lemma AbsoluteAttrRewrittenOnce(name: string, q: char, tail: string, origin: string)
    requires IsAttrName(name) && IsQuote(q)
    requires |origin| > 0 && origin[0] != '/'
    ensures RewriteUrls(name + "=" + [q] + BaseUrl + tail, origin)
         == name + "=" + [q] + RewriteAttrs(origin + ReplaceBase(tail, origin), origin)
  {
    var head := name + "=" + [q];
    var value := origin + ReplaceBase(tail, origin);
    assert ReplaceBase(head + BaseUrl + tail, origin) == head + value by {
      PassOneOnAbsoluteAttr(name, q, tail, origin);
    }
    assert RewriteAttrs(head + value, origin) == head + RewriteAttrs(value, origin) by {
      PassTwoSkipsHead(name, q, value, origin);
    }
  }

  /** Past its first character, `name=q` contains no start of an attribute name. */
  lemma NoNameInside(name: string, q: char, i: nat, u: string)
    requires IsAttrName(name) && IsQuote(q) && 0 < i < |name| + 2
    requires |u| > 0 && u[0] == (name + "=" + [q])[i]
    ensures AttrMatchAt(u).None?
  {
    var head := name + "=" + [q];
    assert head[i] != 'h' && head[i] != 's' && head[i] != 'a';
  }

  // ---------------------------------------------------------------------------
  // Redirects: `handleRedirect(response, request)`

  /** Where a `Location` value is sent; an unparsable base-prefixed location throws. */
  function RedirectTarget(location: string, workerOrigin: string, parseUrl: string -> Option<UrlParts>): (r: Result<string>)
    ensures StartsWith(location, BaseUrl) ==>
      r == (if parseUrl(location).Some?
            then Ok(workerOrigin + parseUrl(location).value.pathname + parseUrl(location).value.search)
            else Err(InvalidUrl))
    ensures !StartsWith(location, BaseUrl) && StartsWith(location, "http") ==> r == Ok(location)
    ensures !StartsWith(location, BaseUrl) && !StartsWith(location, "http") ==> r == Ok(workerOrigin + location)
  {
    if StartsWith(location, BaseUrl) then
      match parseUrl(location)
      case None => Err(InvalidUrl)
      case Some(u) => Ok(workerOrigin + u.pathname + u.search)
    else if StartsWith(location, "http") then Ok(location)
    else Ok(workerOrigin + location)
  }

  /**
   * The redirect carries the upstream status and the translated location; with
   * no (or an empty) `Location` header the upstream response is returned as is.
   * `Response.redirect` parses the location it is given and throws when that
   * fails.
   */
  function HandleRedirect(up: Upstream, workerOrigin: string, parseUrl: string -> Option<UrlParts>): (r: Result<Response>)
    ensures !Truthy(HeaderGet(up.headers, "location")) ==> r == Ok(Forward(up))
    ensures Truthy(HeaderGet(up.headers, "location")) ==>
      match RedirectTarget(up.headers["location"], workerOrigin, parseUrl)
      case Ok(target) =>
        if parseUrl(target).Some?
        then r.Ok? && r.value.status == up.status && r.value.body == Empty &&
             HeaderGet(r.value.headers, "location") == Some(target)
        else r == Err(InvalidUrl)
      case Err(e) => r == Err(e)
  {
    var location := HeaderGet(up.headers, "location");
    if !Truthy(location) then Ok(Forward(up))
    else match RedirectTarget(location.value, workerOrigin, parseUrl)
      case Ok(target) =>
        if parseUrl(target).None? then Err(InvalidUrl) else Ok(Redirect(target, up.status))
      case Err(e) => Err(e)
  }

  /**
   * A location that only looks absolute (`httpfoo`) is kept by the translation,
   * and the redirect then throws when the platform cannot parse it.
   */
  lemma UnparsableRedirectThrows(up: Upstream, workerOrigin: string, parseUrl: string -> Option<UrlParts>)
    requires HeaderGet(up.headers, "location") == Some("httpfoo") && parseUrl("httpfoo").None?
    ensures RedirectTarget("httpfoo", workerOrigin, parseUrl) == Ok("httpfoo")
    ensures HandleRedirect(up, workerOrigin, parseUrl) == Err(InvalidUrl)
  {
    assert "httpfoo"[..4] == "http";
    assert "httpfoo"[4] != BaseUrl[4];
  }

  /**
   * With a URL parser that splits a base-prefixed location into path, query and
   * fragment, the translated location is the worker origin followed by the
   * location's path and query: the fragment is dropped.
   */
  lemma RedirectDropsFragment(location: string, workerOrigin: string, parseUrl: string -> Option<UrlParts>,
                              path: string, query: string, fragment: string)
    requires location == BaseUrl + path + query + fragment
    requires parseUrl(location) == Some(UrlParts(BaseUrl, path, query))
    ensures RedirectTarget(location, workerOrigin, parseUrl)
         == Ok(workerOrigin + location[|BaseUrl|..|location| - |fragment|])
  {
    assert location[..|BaseUrl|] == BaseUrl;
    assert location[|BaseUrl|..|location| - |fragment|] == path + query;
    assert workerOrigin + path + query == workerOrigin + (path + query);
  }

  /**
   * `startsWith` is literal, unlike pass 1: a location on a host that only
   * matches the base URL as a pattern is passed through unchanged.
   */
  lemma RedirectPrefixIsLiteral(rest: string, workerOrigin: string, parseUrl: string -> Option<UrlParts>)
    ensures RedirectTarget("https://chromewebstore-google-com" + rest, workerOrigin, parseUrl)
         == Ok("https://chromewebstore-google-com" + rest)
  {
    var s := "https://chromewebstore-google-com" + rest;
    assert s[22] == '-' != BaseUrl[22];
    assert s[..4] == "http";
  }
}
