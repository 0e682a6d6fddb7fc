/**
 * URL splitting as CPython's urllib.parse.urlsplit/urlparse does it, reduced
 * to the generic URI syntax of section 3 of RFC 3986 that the pipeline needs:
 * a scheme (section 3.1), an authority or "netloc" introduced by "//"
 * (section 3.2), and the path, query and fragment after it. On top of it sit
 * the URL check of the intake handler and its scheme-plus-netloc normalization
 * (the netloc is kept whole, userinfo and port included).
 */
module UrlParse {
  import opened Wrappers
  import Text

  /** The five parts urlsplit returns; urlparse's ";params" stay inside `path` here. */
  datatype SplitResult = SplitResult(scheme: string, netloc: string, path: string, query: string, fragment: string)

  /** The ValueError urlsplit raises for a netloc with one square bracket but not the other. */
  datatype ParseError = InvalidIPv6Url

  /** C0 control characters and space, removed from the start of the URL before splitting. */
  predicate IsC0OrSpace(c: char) { c <= ' ' }

  /** Tab, carriage return and line feed, removed everywhere in the URL before splitting. */
  predicate IsUnsafe(c: char) { c == '\t' || c == '\r' || c == '\n' }

  predicate IsColon(c: char) { c == ':' }

  predicate IsAsciiLetter(c: char) { 'a' <= c <= 'z' || 'A' <= c <= 'Z' }

  predicate IsDigit(c: char) { '0' <= c <= '9' }

  /** The characters allowed in a scheme name (section 3.1 of RFC 3986). */
  predicate IsSchemeChar(c: char) { IsAsciiLetter(c) || IsDigit(c) || c == '+' || c == '-' || c == '.' }

  predicate IsHash(c: char) { c == '#' }

  predicate IsQuestionMark(c: char) { c == '?' }

  /** The characters that end the authority (section 3.2 of RFC 3986). */
  predicate IsNetlocDelimiter(c: char) { c == '/' || c == '?' || c == '#' }

  /** A scheme name: a letter followed by letters, digits, '+', '-' or '.'. */
  predicate IsSchemeName(s: string)
  {
    |s| > 0 && IsAsciiLetter(s[0]) && forall k :: 0 <= k < |s| ==> IsSchemeChar(s[k])
  }

  predicate HasNoDelimiter(n: string)
  {
    forall k :: 0 <= k < |n| ==> !IsNetlocDelimiter(n[k])
  }

  /** urlsplit raises when a netloc holds '[' without ']' or ']' without '['. */
  predicate UnbalancedBrackets(netloc: string)
  {
    ('[' in netloc && ']' !in netloc) || (']' in netloc && '[' !in netloc)
  }

  function LowerChar(c: char): char
  {
    if 'A' <= c <= 'Z' then (c as int + 32) as char else c
  }

  /** str.lower, on the ASCII letters that a scheme name can hold. */
  function Lower(s: string): (r: string)
    ensures |r| == |s|
  {
    if s == [] then [] else [LowerChar(s[0])] + Lower(s[1..])
  }

  /** The clean-up urlsplit does first: strip leading C0/space, delete tab, CR and LF. */
  function Clean(url: string): string
  {
    Text.RemoveWhere(Text.TrimStart(url, IsC0OrSpace), IsUnsafe)
  }

  /**
   * The scheme is the text before the first ':' when that text is a scheme
   * name; it is lower-cased and the ':' is dropped. Otherwise there is no
   * scheme and the whole text is left.
   */
  function SplitScheme(c: string): (string, string)
  {
    var i := Text.IndexWhere(c, IsColon);
    if 0 < i < |c| && IsSchemeName(c[..i]) then (Lower(c[..i]), c[i + 1..]) else ("", c)
  }

  /** The netloc is present only after "//" and runs up to the first '/', '?' or '#'. */
  function SplitNetloc(rest: string): (string, string)
  {
    if |rest| >= 2 && rest[..2] == "//" then
      var d := 2 + Text.IndexWhere(rest[2..], IsNetlocDelimiter);
      (rest[2..d], rest[d..])
    else
      ("", rest)
  }

  /** What follows the netloc: the fragment after the first '#', then the query after the first '?'. */
  function SplitTail(tail: string): (string, string, string)
  {
    var (beforeFragment, fragment) := Text.SplitOnce(tail, IsHash);
    var (path, query) := Text.SplitOnce(beforeFragment, IsQuestionMark);
    (path, query, fragment)
  }

  /**
   * urlparse(url), or the ValueError it raises. A scheme it finds is a
   * lower-case scheme name, and a netloc holds no tab, CR, LF or
   * delimiter and has balanced brackets.
   */
  function Split(url: string): (r: Result<SplitResult, ParseError>)
    ensures r.Ok? ==> WellFormedParts(r.value)
  {
    var c := Clean(url);
    SplitParts(c);
    SplitCleaned(c)
  }

  /** What every successful split promises about its scheme and netloc. */
  predicate WellFormedParts(p: SplitResult)
  {
    (p.scheme == "" || (IsSchemeName(p.scheme) && Lower(p.scheme) == p.scheme))
    && HasNoDelimiter(p.netloc) && !UnbalancedBrackets(p.netloc)
    && forall k :: 0 <= k < |p.netloc| ==> !IsUnsafe(p.netloc[k])
  }

  /** The splitting that follows the clean-up. */
  function SplitCleaned(c: string): Result<SplitResult, ParseError>
  {
    var (scheme, rest) := SplitScheme(c);
    var (netloc, tail) := SplitNetloc(rest);
    if UnbalancedBrackets(netloc) then
      Err(InvalidIPv6Url)
    else
      var (path, query, fragment) := SplitTail(tail);
      Ok(SplitResult(scheme, netloc, path, query, fragment))
  }

  /**
   * url_validator: true when the split has a non-empty scheme and a
   * non-empty netloc; a split that raises gives false. What it accepts is
   * characterised independently by ValidateMeansAuthority.
   */
  function Validate(url: string): (ok: bool)
    ensures ok <==> Split(url).Ok? && Split(url).value.scheme != "" && Split(url).value.netloc != ""
    ensures ok ==> IsSchemeName(Split(url).value.scheme)
  {
    match Split(url)
    case Err(_) => false
    case Ok(p) => p.scheme != "" && p.netloc != ""
  }

  /**
   * The root URL the intake handler keeps: scheme + "://" + netloc. It is
   * itself accepted and splits back into the same scheme and netloc with
   * no path, query or fragment.
   */
  function Normalize(url: string): (root: string)
    requires Validate(url)
    ensures Split(root) == Ok(SplitResult(Split(url).value.scheme, Split(url).value.netloc, "", "", ""))
    ensures Validate(root)
  {
    var p := Split(url).value;
    RootSplits(p.scheme, p.netloc, p.scheme + "://" + p.netloc);
    p.scheme + "://" + p.netloc
  }

  /**
   * The parts of an absolute URL with an authority: a scheme name, a
   * non-empty authority free of '/', '?', '#' with balanced brackets, and
   * a rest that is empty or starts with one of those three delimiters.
   */
  predicate AuthorityParts(s: string, n: string, rest: string)
  {
    IsSchemeName(s) && n != [] && HasNoDelimiter(n) && !UnbalancedBrackets(n)
      && (rest == [] || IsNetlocDelimiter(rest[0]))
  }

  /** Reference definition of an accepted URL: `scheme "://" authority rest`. */
  ghost predicate IsAbsoluteWithAuthority(c: string)
  {
    exists s, n, rest :: c == s + "://" + n + rest && AuthorityParts(s, n, rest)
  }

  /** A scheme name followed by ':' is split off and lower-cased. */
  lemma SchemeOfForm(c: string, s: string, after: string)
    requires c == s + [':'] + after && IsSchemeName(s)
    ensures SplitScheme(c) == (Lower(s), after)
  {
    assert c == s + ([':'] + after);
    assert forall k :: 0 <= k < |s| ==> !IsColon(s[k]);
    Text.IndexWhereAfterPrefix(s, [':'] + after, IsColon);
    assert c[..|s|] == s && c[|s| + 1..] == after;
  }

  /** After "//", the netloc is everything up to a rest that is empty or starts with a delimiter. */
  lemma NetlocOfForm(n: string, rest: string)
    requires HasNoDelimiter(n) && (rest == [] || IsNetlocDelimiter(rest[0]))
    ensures SplitNetloc("//" + n + rest) == (n, rest)
  {
    var after := "//" + n + rest;
    assert after[..2] == "//" && after[2..] == n + rest;
    Text.IndexWhereAfterPrefix(n, rest, IsNetlocDelimiter);
    assert after[2..2 + |n|] == n && after[2 + |n|..] == rest;
  }

  /** When a scheme was found, the text is that scheme's original spelling, ':', and the rest. */
  lemma SchemeFound(c: string)
    requires SplitScheme(c).0 != ""
    ensures 0 < Text.IndexWhere(c, IsColon) < |c|
    ensures var i := Text.IndexWhere(c, IsColon); IsSchemeName(c[..i])
    ensures var i := Text.IndexWhere(c, IsColon); SplitScheme(c) == (Lower(c[..i]), c[i + 1..])
    ensures var i := Text.IndexWhere(c, IsColon); c == c[..i] + [':'] + c[i + 1..]
  {
    SchemeFoundIsName(c);
    SchemeFoundSplits(c);
    ColonSplits(c);
  }

  /*
   * The three facts of SchemeFound, each proved in a context of its own:
   * together in one context the unfolding of SplitScheme outgrows the
   * resource limit.
   */

  lemma SchemeFoundIsName(c: string)
    requires SplitScheme(c).0 != ""
    ensures var i := Text.IndexWhere(c, IsColon); 0 < i < |c| && IsSchemeName(c[..i])
  {
  }

  lemma SchemeFoundSplits(c: string)
    requires SplitScheme(c).0 != ""
    ensures var i := Text.IndexWhere(c, IsColon); 0 < i < |c| && SplitScheme(c) == (Lower(c[..i]), c[i + 1..])
  {
  }

  lemma ColonSplits(c: string)
    requires 0 < Text.IndexWhere(c, IsColon) < |c|
    ensures var i := Text.IndexWhere(c, IsColon); c == c[..i] + [':'] + c[i + 1..]
  {
  }

  /** When a netloc was found, the text is "//", the netloc, and a rest that starts with a delimiter if any. */
  lemma NetlocFound(after: string)
    requires SplitNetloc(after).0 != ""
    ensures var (n, rest) := SplitNetloc(after);
      after == "//" + n + rest && HasNoDelimiter(n) && (rest == [] || IsNetlocDelimiter(rest[0]))
  {
    var d := 2 + Text.IndexWhere(after[2..], IsNetlocDelimiter);
    var n, rest := after[2..d], after[d..];
    assert after == after[..2] + n + rest;
    forall k | 0 <= k < |n| ensures !IsNetlocDelimiter(n[k]) {
      assert n[k] == after[2..][k];
    }
  }

  /**
   * Splitting `s "://" n rest`, when s is a scheme name and n holds no
   * delimiter, gives the lower-cased s as scheme, n as netloc and splits
   * the rest into path, query and fragment; it raises exactly when n has
   * unbalanced brackets.
   */
  lemma SplitAuthorityForm(c: string, s: string, n: string, rest: string)
    requires c == s + "://" + n + rest
    requires IsSchemeName(s) && HasNoDelimiter(n)
    requires rest == [] || IsNetlocDelimiter(rest[0])
    ensures UnbalancedBrackets(n) ==> SplitCleaned(c) == Err(InvalidIPv6Url)
    ensures !UnbalancedBrackets(n) ==>
      SplitCleaned(c) == Ok(SplitResult(Lower(s), n, SplitTail(rest).0, SplitTail(rest).1, SplitTail(rest).2))
  {
    var after := "//" + n + rest;
    assert c == s + [':'] + after;
    SchemeOfForm(c, s, after);
    NetlocOfForm(n, rest);
  }

  /** Text that splits into a scheme and a netloc has the form `scheme "://" authority rest`. */
  lemma AcceptedIsAuthorityForm(c: string)
    requires SplitCleaned(c).Ok? && SplitCleaned(c).value.scheme != "" && SplitCleaned(c).value.netloc != ""
    ensures IsAbsoluteWithAuthority(c)
  {
    SplitSteps(c);
    AuthorityFormOfSteps(c);
  }

  lemma AuthorityFormOfSteps(c: string)
    requires SplitScheme(c).0 != ""
    requires SplitNetloc(SplitScheme(c).1).0 != ""
    requires !UnbalancedBrackets(SplitNetloc(SplitScheme(c).1).0)
    ensures IsAbsoluteWithAuthority(c)
  {
    SchemeFound(c);
    var i := Text.IndexWhere(c, IsColon);
    var s, after := c[..i], c[i + 1..];
    NetlocFound(after);
    var (n, rest) := SplitNetloc(after);
    AuthorityWitness(c, s, after, n, rest);
  }

  /** The scheme, ':' and "//" netloc rest found by the two steps witness the reference form. */
  lemma AuthorityWitness(c: string, s: string, after: string, n: string, rest: string)
    requires c == s + [':'] + after && after == "//" + n + rest
    requires AuthorityParts(s, n, rest)
    ensures IsAbsoluteWithAuthority(c)
  {
    assert c == s + "://" + n + rest;
  }

  /** The scheme and netloc of a successful split come from its two steps, and the netloc is balanced. */
  lemma SplitSteps(c: string)
    requires SplitCleaned(c).Ok?
    ensures var (scheme, rest) := SplitScheme(c);
      SplitCleaned(c).value.scheme == scheme && SplitCleaned(c).value.netloc == SplitNetloc(rest).0
      && !UnbalancedBrackets(SplitNetloc(rest).0)
  {
  }

  lemma NetlocInRest(rest: string)
    ensures var n := SplitNetloc(rest).0;
      ((forall k :: 0 <= k < |rest| ==> !IsUnsafe(rest[k])) ==> forall k :: 0 <= k < |n| ==> !IsUnsafe(n[k]))
      && HasNoDelimiter(n)
  {
    var (n, tail) := SplitNetloc(rest);
    if n != "" {
      NetlocFound(rest);
      forall k | 0 <= k < |n| && (forall j :: 0 <= j < |rest| ==> !IsUnsafe(rest[j]))
        ensures !IsUnsafe(n[k])
      {
        assert n[k] == rest[2 + k];
      }
    }
  }

  /** The parts a split of clean text finds are well formed. */
  lemma SplitParts(c: string)
    requires forall k :: 0 <= k < |c| ==> !IsUnsafe(c[k])
    ensures SplitCleaned(c).Ok? ==> WellFormedParts(SplitCleaned(c).value)
  {
    if SplitCleaned(c).Ok? {
      SplitSteps(c);
      var (scheme, rest) := SplitScheme(c);
      if scheme != "" {
        SchemeFound(c);
        var i := Text.IndexWhere(c, IsColon);
        LowerKeepsSchemeName(c[..i]);
        LowerIsIdempotent(c[..i]);
      }
      assert forall k :: 0 <= k < |rest| ==> !IsUnsafe(rest[k]);
      NetlocInRest(rest);
    }
  }

  /** url_validator accepts exactly the absolute URLs with an authority (after clean-up). */
  lemma ValidateMeansAuthority(url: string)
    ensures Validate(url) <==> IsAbsoluteWithAuthority(Clean(url))
  {
    var c := Clean(url);
    if Validate(url) {
      AcceptedIsAuthorityForm(c);
    }
    if IsAbsoluteWithAuthority(c) {
      var s, n, rest :| c == s + "://" + n + rest && AuthorityParts(s, n, rest);
      SplitAuthorityForm(c, s, n, rest);
    }
  }

  lemma {:induction false} LowerIsIdempotent(s: string)
    ensures Lower(Lower(s)) == Lower(s)
  {
    if s != [] {
      LowerIsIdempotent(s[1..]);
      assert Lower(s)[1..] == Lower(s[1..]);
    }
  }

  lemma {:induction false} LowerAt(s: string, k: nat)
    requires k < |s|
    ensures Lower(s)[k] == LowerChar(s[k])
  {
    if k > 0 {
      LowerAt(s[1..], k - 1);
    }
  }

  lemma LowerKeepsSchemeName(s: string)
    requires IsSchemeName(s)
    ensures IsSchemeName(Lower(s))
  {
    var t := Lower(s);
    forall k | 0 <= k < |s| ensures IsSchemeChar(t[k]) {
      LowerAt(s, k);
    }
    LowerAt(s, 0);
  }

  /** A string that starts with a visible character and holds no tab, CR or LF is already clean. */
  lemma CleanKeepsCleanText(s: string)
    requires s == [] || !IsC0OrSpace(s[0])
    requires forall k :: 0 <= k < |s| ==> !IsUnsafe(s[k])
    ensures Clean(s) == s
  {
    Text.TrimStartNoop(s, IsC0OrSpace);
  }

  /** `scheme "://" netloc`, with a lower-case scheme name, splits into exactly that scheme and netloc. */
  lemma RootSplits(scheme: string, netloc: string, root: string)
    requires IsSchemeName(scheme) && Lower(scheme) == scheme
    requires HasNoDelimiter(netloc) && !UnbalancedBrackets(netloc)
    requires forall k :: 0 <= k < |netloc| ==> !IsUnsafe(netloc[k])
    requires root == scheme + "://" + netloc
    ensures Split(root) == Ok(SplitResult(scheme, netloc, "", "", ""))
  {
    RootCleanedSplits(scheme, netloc, root);
    RootIsClean(scheme, netloc, root);
  }

  lemma RootCleanedSplits(scheme: string, netloc: string, root: string)
    requires IsSchemeName(scheme) && Lower(scheme) == scheme
    requires HasNoDelimiter(netloc) && !UnbalancedBrackets(netloc)
    requires root == scheme + "://" + netloc
    ensures SplitCleaned(root) == Ok(SplitResult(scheme, netloc, "", "", ""))
  {
    assert root == scheme + "://" + netloc + "";
    SplitAuthorityForm(root, scheme, netloc, "");
  }

  /** `scheme "://" netloc` with a scheme name and a netloc free of tab, CR and LF is clean. */
  lemma RootIsClean(scheme: string, netloc: string, root: string)
    requires IsSchemeName(scheme)
    requires forall k :: 0 <= k < |netloc| ==> !IsUnsafe(netloc[k])
    requires root == scheme + "://" + netloc
    ensures Clean(root) == root
  {
    forall k | 0 <= k < |root| ensures !IsUnsafe(root[k]) {
      if k < |scheme| {
        assert root[k] == scheme[k];
      } else if k >= |scheme| + 3 {
        assert root[k] == netloc[k - |scheme| - 3];
      }
    }
    CleanKeepsCleanText(root);
  }

  /** Normalizing a normalized root changes nothing. */
  lemma NormalizeIsIdempotent(url: string)
    requires Validate(url)
    ensures Validate(Normalize(url)) && Normalize(Normalize(url)) == Normalize(url)
  {
  }

  /**
   * An absolute URL with an authority and a path, query or fragment after
   * it is accepted, and its root is the lower-cased scheme, "://" and the
   * authority: everything from the first '/', '?' or '#' on is dropped.
   */
  lemma NormalizeDropsRest(url: string, s: string, n: string, rest: string)
    requires url == s + "://" + n + rest && AuthorityParts(s, n, rest)
    requires forall k :: 0 <= k < |n| ==> !IsUnsafe(n[k])
    requires forall k :: 0 <= k < |rest| ==> !IsUnsafe(rest[k])
    ensures Validate(url) && Normalize(url) == Lower(s) + "://" + n
  {
    forall k | 0 <= k < |url| ensures !IsUnsafe(url[k]) {
      if k < |s| {
        assert url[k] == s[k];
      } else if |s| + 3 <= k < |s| + 3 + |n| {
        assert url[k] == n[k - |s| - 3];
      } else if |s| + 3 + |n| <= k {
        assert url[k] == rest[k - |s| - 3 - |n|];
      }
    }
    assert url[0] == s[0];
    CleanKeepsCleanText(url);
    SplitAuthorityForm(url, s, n, rest);
    assert Split(url) == SplitCleaned(url);
  }

  /** "https" is a scheme name, already in lower case. */
  lemma HttpsIsLowerSchemeName(s: string)
    requires s == "https"
    ensures IsSchemeName(s) && Lower(s) == s
  {
    assert Lower("https") == "https";
  }

  /**
   * The parts of the two example links: the lower-case scheme "https", an
   * authority (a plain host, or one with userinfo and a port) and a path.
   */
  lemma ExampleParts(s: string, n: string, rest: string)
    requires s == "https"
    requires (n == "example.com" && rest == "/a/b") || (n == "u:pw@example.com:8443" && rest == "/x")
    ensures AuthorityParts(s, n, rest) && Lower(s) == s
    ensures forall k :: 0 <= k < |n| ==> !IsUnsafe(n[k])
    ensures forall k :: 0 <= k < |rest| ==> !IsUnsafe(rest[k])
  {
    HttpsIsLowerSchemeName(s);
    assert HasNoDelimiter(n) && !UnbalancedBrackets(n) && IsNetlocDelimiter(rest[0]);
  }

  /*
   * How the parts join into each example link and its root; kept apart from
   * ExampleParts and from the callers so that each proof context unfolds
   * only one set of literals.
   */
  lemma ExampleJoins(url: string, root: string, s: string, n: string, rest: string)
    requires s == "https"
    requires (url == "https://example.com/a/b" && root == "https://example.com" && n == "example.com" && rest == "/a/b")
      || (url == "https://u:pw@example.com:8443/x" && root == "https://u:pw@example.com:8443"
          && n == "u:pw@example.com:8443" && rest == "/x")
    ensures url == s + "://" + n + rest && root == s + "://" + n
  {
  }

  /** "https://example.com/a/b" is accepted and normalizes to "https://example.com". */
  lemma ExampleWithPath()
    ensures Validate("https://example.com/a/b")
    ensures Normalize("https://example.com/a/b") == "https://example.com"
  {
    var url, s, n, rest := "https://example.com/a/b", "https", "example.com", "/a/b";
    ExampleParts(s, n, rest);
    ExampleJoins(url, "https://example.com", s, n, rest);
    NormalizeDropsRest(url, s, n, rest);
  }

  /**
   * The root keeps the whole netloc, userinfo and port included:
   * "https://u:pw@example.com:8443/x" normalizes to "https://u:pw@example.com:8443".
   */
  lemma ExampleKeepsUserinfoAndPort()
    ensures Validate("https://u:pw@example.com:8443/x")
    ensures Normalize("https://u:pw@example.com:8443/x") == "https://u:pw@example.com:8443"
  {
    var url, s, n, rest := "https://u:pw@example.com:8443/x", "https", "u:pw@example.com:8443", "/x";
    ExampleParts(s, n, rest);
    ExampleJoins(url, "https://u:pw@example.com:8443", s, n, rest);
    NormalizeDropsRest(url, s, n, rest);
  }

  /** Text without a ':' has no scheme, so "not a url" is refused. */
  lemma ExampleNotAUrl()
    ensures !Validate("not a url")
  {
    var u := "not a url";
    ExampleNotAUrlIsClean(u);
    ExampleNotAUrlHasNoScheme(u);
  }

  lemma ExampleNotAUrlIsClean(u: string)
    requires u == "not a url"
    ensures Clean(u) == u
  {
    CleanKeepsCleanText(u);
  }

  lemma ExampleNotAUrlHasNoScheme(u: string)
    requires u == "not a url"
    ensures SplitCleaned(u).Err? || SplitCleaned(u).value.scheme == ""
  {
    Text.IndexWhereAfterPrefix(u, [], IsColon);
    assert u + [] == u;
  }

  /** The empty string is refused. */
  lemma ExampleEmpty()
    ensures !Validate("")
  {
  }
}
