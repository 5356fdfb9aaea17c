/** `src/config.rs`: endpoint validation, canonical URLs, deduplication and `Config::finalize`. */
module Config {
  import opened Prelude

  datatype EndpointConfig = EndpointConfig(
    url: string,
    rateLimitPerSec: u32,
    burstSize: u32,
    weight: Option<u32>)

  datatype Result<+T> = Ok(value: T) | NoValidEndpoints

  const MAX_URL_LEN := 2048
  const MAX_RATE_LIMIT := 100_000
  const MAX_BURST_SIZE := 10_000

  // ---- Characters and strings ----

  /** The Unicode `White_Space` property. */
  predicate IsWhitespace(c: char) {
    var n := c as int;
    0x9 <= n <= 0xD || n == 0x20 || n == 0x85 || n == 0xA0 || n == 0x1680 || 0x2000 <= n <= 0x200A
    || n == 0x2028 || n == 0x2029 || n == 0x202F || n == 0x205F || n == 0x3000
  }

  /** The Unicode `Cc` category. */
  predicate IsControl(c: char) {
    var n := c as int;
    n <= 0x1F || 0x7F <= n <= 0x9F
  }

  function TrimStart(s: string): string {
    if s != "" && IsWhitespace(s[0]) then TrimStart(s[1..]) else s
  }

  function TrimEnd(s: string): string {
    if s != "" && IsWhitespace(s[|s| - 1]) then TrimEnd(s[..|s| - 1]) else s
  }

  function Trim(s: string): string {
    TrimEnd(TrimStart(s))
  }

  function Utf8Width(c: char): nat {
    var n := c as int;
    if n < 0x80 then 1 else if n < 0x800 then 2 else if n < 0x1_0000 then 3 else 4
  }

  /** `String::len`: the number of bytes of the UTF-8 encoding. */
  function Utf8Len(s: string): nat {
    if s == "" then 0 else Utf8Len(s[..|s| - 1]) + Utf8Width(s[|s| - 1])
  }

  function Lower(c: char): char {
    if 'A' <= c <= 'Z' then (c as int + 32) as char else c
  }

  /** `s.to_lowercase().starts_with(scheme)` for a lower-case ASCII scheme. */
  predicate HasPrefixIgnoringCase(s: string, scheme: string) {
    |scheme| <= |s| && forall i :: 0 <= i < |scheme| ==> Lower(s[i]) == scheme[i]
  }

  predicate IsHttp(url: string) {
    HasPrefixIgnoringCase(url, "http://")
  }

  predicate IsHttps(url: string) {
    HasPrefixIgnoringCase(url, "https://")
  }

  predicate HasScheme(url: string) {
    IsHttp(url) || IsHttps(url)
  }

  predicate CleanChars(s: string) {
    forall i :: 0 <= i < |s| ==> !IsControl(s[i]) && !IsWhitespace(s[i])
  }

  // ---- Validation and canonical form ----

  /** The checks an entry must pass to be kept, on its trimmed URL. */
  predicate Accepts(e: EndpointConfig) {
    var url := Trim(e.url);
    && url != ""
    && HasScheme(url)
    && Utf8Len(url) <= MAX_URL_LEN
    && CleanChars(url)
    && 0 < e.rateLimitPerSec <= MAX_RATE_LIMIT
    && 0 < e.burstSize <= MAX_BURST_SIZE
  }

  function LowerScheme(url: string): string {
    if IsHttp(url) then "http://" + url[7..]
    else if IsHttps(url) then "https://" + url[8..]
    else url
  }

  function StripSlashes(s: string): string {
    if s != "" && s[|s| - 1] == '/' then StripSlashes(s[..|s| - 1]) else s
  }

  function CanonicalUrl(url: string): string {
    StripSlashes(LowerScheme(url))
  }

  /** The entry as it is stored: canonical URL, all other settings untouched. */
  function Canonical(e: EndpointConfig): EndpointConfig {
    e.(url := CanonicalUrl(Trim(e.url)))
  }

  method Canonicalize(url: string) returns (canonical: string)
    ensures canonical == CanonicalUrl(url)
  {
    canonical := url;
    if IsHttp(url) {
      canonical := "http://" + url[7..];
    } else if IsHttps(url) {
      canonical := "https://" + url[8..];
    }
    while canonical != "" && canonical[|canonical| - 1] == '/'
      invariant StripSlashes(canonical) == CanonicalUrl(url)
      decreases |canonical|
    {
      canonical := canonical[..|canonical| - 1];
    }
  }

  function Urls(es: seq<EndpointConfig>): set<string> {
    set i | 0 <= i < |es| :: es[i].url
  }

  /** One input entry after validation: its stored form, or nothing. */
  function Sanitized(e: EndpointConfig): Option<EndpointConfig> {
    if Accepts(e) then Some(Canonical(e)) else None
  }

  function SanitizeAll(es: seq<EndpointConfig>): seq<Option<EndpointConfig>> {
    seq(|es|, i requires 0 <= i < |es| => Sanitized(es[i]))
  }

  /** Keeps, in order, the first entry of every URL. */
  function KeepFirst(os: seq<Option<EndpointConfig>>): seq<EndpointConfig> {
    if os == [] then []
    else
      var kept, o := KeepFirst(os[..|os| - 1]), os[|os| - 1];
      if o.Some? && o.value.url !in Urls(kept) then kept + [o.value] else kept
  }

  /** The entries a configuration keeps. */
  function Dedupe(es: seq<EndpointConfig>): seq<EndpointConfig> {
    KeepFirst(SanitizeAll(es))
  }

  method ValidateAndDedupeEndpoints(endpoints: seq<EndpointConfig>) returns (r: Result<seq<EndpointConfig>>)
    ensures r == if Dedupe(endpoints) == [] then NoValidEndpoints else Ok(Dedupe(endpoints))
  {
    var seen: set<string> := {};
    var kept: seq<EndpointConfig> := [];
    ghost var os := SanitizeAll(endpoints);
    for i := 0 to |endpoints|
      invariant kept == KeepFirst(os[..i])
      invariant seen == Urls(kept)
    {
      assert os[..i + 1][..i] == os[..i];
      assert os[i] == Sanitized(endpoints[i]);
      var e := endpoints[i];
      if Accepts(e) {
        var url := Canonicalize(Trim(e.url));
        if url !in seen {
          seen := seen + {url};
          UrlsAppend(kept, e.(url := url));
          kept := kept + [e.(url := url)];
        }
      }
    }
    assert os[..|endpoints|] == os;
    r := if kept == [] then NoValidEndpoints else Ok(kept);
  }

  lemma UrlsAppend(es: seq<EndpointConfig>, e: EndpointConfig)
    ensures Urls(es + [e]) == Urls(es) + {e.url}
  {
    var all := es + [e];
    assert all[|es|] == e;
    forall i | 0 <= i < |es|
      ensures es[i].url in Urls(all)
    {
      assert all[i] == es[i];
    }
  }

  ghost predicate DistinctUrls(es: seq<EndpointConfig>) {
    forall i, j :: 0 <= i < j < |es| ==> es[i].url != es[j].url
  }

  /** No earlier entry has the URL of entry `i`. */
  ghost predicate IsFirst(os: seq<Option<EndpointConfig>>, i: nat) {
    && i < |os|
    && os[i].Some?
    && forall j :: 0 <= j < i && os[j].Some? ==> os[j].value.url != os[i].value.url
  }

  /** The positions of the first occurrences, in order. */
  ghost function Firsts(os: seq<Option<EndpointConfig>>): seq<nat> {
    if os == [] then []
    else
      var last := |os| - 1;
      Firsts(os[..last]) + if IsFirst(os, last) then [last] else []
  }

  /** `Firsts` lists these positions, all of them and no others, in increasing order. */
  lemma {:induction false} FirstsComplete(os: seq<Option<EndpointConfig>>)
    ensures forall k :: 0 <= k < |Firsts(os)| ==> IsFirst(os, Firsts(os)[k])
    ensures forall k, l :: 0 <= k < l < |Firsts(os)| ==> Firsts(os)[k] < Firsts(os)[l]
    ensures forall i :: IsFirst(os, i) ==> i in Firsts(os)
  {
    if os != [] {
      var last := |os| - 1;
      FirstsComplete(os[..last]);
      forall i | 0 <= i < last
        ensures IsFirst(os[..last], i) <==> IsFirst(os, i)
      {
        assert forall j :: 0 <= j <= i ==> os[..last][j] == os[j];
      }
    }
  }

  lemma {:induction false} KeptUrls(os: seq<Option<EndpointConfig>>)
    ensures Urls(KeepFirst(os)) == set i | 0 <= i < |os| && os[i].Some? :: os[i].value.url
  {
    if os != [] {
      var last := |os| - 1;
      var front, kept := os[..last], KeepFirst(os[..last]);
      KeptUrls(front);
      var urls := set i | 0 <= i < |os| && os[i].Some? :: os[i].value.url;
      assert forall i :: 0 <= i < last ==> front[i] == os[i];
      if os[last].Some? {
        UrlsAppend(kept, os[last].value);
        assert urls == Urls(kept) + {os[last].value.url};
      } else {
        assert urls == Urls(kept);
      }
    }
  }

  /** Deduplication keeps exactly the first occurrences, in order and with their own settings. */
  lemma {:induction false} KeepsFirstOccurrences(os: seq<Option<EndpointConfig>>)
    ensures |KeepFirst(os)| == |Firsts(os)|
    ensures forall k :: 0 <= k < |Firsts(os)| ==> Firsts(os)[k] < |os| && os[Firsts(os)[k]] == Some(KeepFirst(os)[k])
    ensures DistinctUrls(KeepFirst(os))
  {
    if os != [] {
      var last := |os| - 1;
      var front := os[..last];
      KeepsFirstOccurrences(front);
      KeptUrls(front);
      assert forall i :: 0 <= i < last ==> front[i] == os[i];
      assert IsFirst(os, last) <==> os[last].Some? && os[last].value.url !in Urls(KeepFirst(front));
    }
  }

  /** Entry `i` is acceptable, and no acceptable entry before it has the same canonical URL. */
  ghost predicate IsFirstAccepted(es: seq<EndpointConfig>, i: nat) {
    && i < |es|
    && Accepts(es[i])
    && forall j :: 0 <= j < i && Accepts(es[j]) ==> Canonical(es[j]).url != Canonical(es[i]).url
  }

  lemma FirstAcceptedIsFirst(es: seq<EndpointConfig>, i: nat)
    ensures IsFirst(SanitizeAll(es), i) <==> IsFirstAccepted(es, i)
  {
    var os := SanitizeAll(es);
    assert forall j :: 0 <= j < |es| ==> os[j] == Sanitized(es[j]);
  }

  /** The same, about the entries of a configuration: what is kept, where it comes from, and in which order. */
  lemma DedupeSpecification(es: seq<EndpointConfig>)
    ensures var picked := Firsts(SanitizeAll(es));
      && |Dedupe(es)| == |picked|
      && (forall k :: 0 <= k < |picked| ==>
            picked[k] < |es| && Accepts(es[picked[k]]) && Dedupe(es)[k] == Canonical(es[picked[k]]))
      && (forall k, l :: 0 <= k < l < |picked| ==> picked[k] < picked[l])
      && (forall i :: i in picked <==> IsFirstAccepted(es, i))
    ensures DistinctUrls(Dedupe(es))
    ensures forall i :: 0 <= i < |es| && Accepts(es[i]) ==> Canonical(es[i]).url in Urls(Dedupe(es))
  {
    var os := SanitizeAll(es);
    KeepsFirstOccurrences(os);
    KeptUrls(os);
    FirstsComplete(os);
    forall i: nat
      ensures IsFirst(os, i) <==> IsFirstAccepted(es, i)
    {
      FirstAcceptedIsFirst(es, i);
    }
    forall i | 0 <= i < |es| && Accepts(es[i])
      ensures Canonical(es[i]).url in Urls(Dedupe(es))
    {
      assert os[i] == Some(Canonical(es[i]));
    }
  }

  /**
   * `kept` is `url` with its scheme in lower case and the slashes at its end removed; of a URL that is nothing but a
   * scheme and slashes, the scheme with its colon is left.
   */
  ghost predicate IsCanonicalOf(kept: string, url: string) {
    var scheme := if IsHttps(url) then "https://" else "http://";
    if exists k :: |scheme| <= k < |url| && url[k] != '/' then
      && |scheme| < |kept| <= |url|
      && kept == scheme + url[|scheme|..|kept|]
      && kept[|kept| - 1] != '/'
      && forall k :: |kept| <= k < |url| ==> url[k] == '/'
    else
      kept == if IsHttps(url) then "https:" else "http:"
  }

  lemma CanonicalUrlIs(url: string)
    requires HasScheme(url) && CleanChars(url)
    ensures IsCanonicalOf(CanonicalUrl(url), url)
  {
    SchemeIs(url);
    LowerSchemeShape(url);
    var k := CanonicalShape(url);
    var low, n := LowerScheme(url), SchemeLen(url);
    if HasHost(url) {
      PrefixWithScheme(low, url, n, k);
      var stripped := StripIsPrefix(low);
      assert |low[..k]| == |low[..stripped]|;
      assert forall i :: k <= i < |url| ==> url[i] == low[i];
    } else {
      assert low[..k] == low[..n][..k];
    }
  }

  lemma PrefixWithScheme(low: string, url: string, n: nat, k: nat)
    requires n <= k <= |low| == |url| && forall i :: n <= i < |url| ==> low[i] == url[i]
    ensures low[..k] == low[..n] + url[n..k]
  {
  }

  /** The schemes, letter by letter; no URL has both. */
  lemma SchemeIs(url: string)
    ensures IsHttp(url)
      <==> (7 <= |url| && url[0] in {'h', 'H'} && url[1] in {'t', 'T'} && url[2] in {'t', 'T'} && url[3] in {'p', 'P'}
            && url[4] == ':' && url[5] == '/' && url[6] == '/')
    ensures IsHttps(url)
      <==> (8 <= |url| && url[0] in {'h', 'H'} && url[1] in {'t', 'T'} && url[2] in {'t', 'T'} && url[3] in {'p', 'P'}
            && url[4] in {'s', 'S'} && url[5] == ':' && url[6] == '/' && url[7] == '/')
  {
  }

  /** The `k`-th entry kept is a first acceptable one with all its own settings and its canonical URL. */
  lemma KeptAsConfigured(es: seq<EndpointConfig>, k: nat) returns (i: nat)
    requires k < |Dedupe(es)|
    ensures k < |Firsts(SanitizeAll(es))| && i == Firsts(SanitizeAll(es))[k] && IsFirstAccepted(es, i)
    ensures var kept, e := Dedupe(es)[k], es[i];
      && kept.rateLimitPerSec == e.rateLimitPerSec && kept.burstSize == e.burstSize && kept.weight == e.weight
      && IsCanonicalOf(kept.url, Trim(e.url))
  {
    DedupeSpecification(es);
    i := Firsts(SanitizeAll(es))[k];
    CanonicalUrlIs(Trim(es[i].url));
  }

  /** Trimming removes whitespace, at both ends, and all of it. */
  lemma TrimIs(s: string) returns (i: nat, j: nat)
    ensures i <= j <= |s| && Trim(s) == s[i..j]
    ensures forall k :: 0 <= k < i || j <= k < |s| ==> IsWhitespace(s[k])
    ensures i < j ==> !IsWhitespace(s[i]) && !IsWhitespace(s[j - 1])
  {
    i := TrimStartIs(s);
    var n := TrimEndIs(s[i..]);
    j := i + n;
    assert s[i..][..n] == s[i..j];
    forall k | j <= k < |s|
      ensures IsWhitespace(s[k])
    {
      assert s[i..][k - i] == s[k];
    }
  }

  lemma {:induction false} TrimStartIs(s: string) returns (i: nat)
    ensures i <= |s| && TrimStart(s) == s[i..]
    ensures forall k :: 0 <= k < i ==> IsWhitespace(s[k])
    ensures i < |s| ==> !IsWhitespace(s[i])
  {
    i := 0;
    if s != "" && IsWhitespace(s[0]) {
      var n := TrimStartIs(s[1..]);
      i := n + 1;
      assert s[1..][n..] == s[i..];
      assert forall k :: 1 <= k < i ==> s[k] == s[1..][k - 1];
    }
  }

  lemma {:induction false} TrimEndIs(s: string) returns (n: nat)
    ensures n <= |s| && TrimEnd(s) == s[..n]
    ensures forall k :: n <= k < |s| ==> IsWhitespace(s[k])
    ensures 0 < n ==> !IsWhitespace(s[n - 1])
  {
    n := |s|;
    if s != "" && IsWhitespace(s[|s| - 1]) {
      var front := s[..|s| - 1];
      n := TrimEndIs(front);
      assert front[..n] == s[..n];
      assert forall k :: 0 <= k < |front| ==> s[k] == front[k];
    } else {
      assert s[..n] == s;
    }
  }

  /** Validation fails exactly when no entry is acceptable. */
  lemma ValidationFailsIff(es: seq<EndpointConfig>)
    ensures Dedupe(es) == [] <==> forall i :: 0 <= i < |es| ==> !Accepts(es[i])
  {
    DedupeSpecification(es);
    if Dedupe(es) != [] {
      assert Accepts(es[Firsts(SanitizeAll(es))[0]]);
    }
    if exists i :: 0 <= i < |es| && Accepts(es[i]) {
      var i :| 0 <= i < |es| && Accepts(es[i]);
      assert Canonical(es[i]).url in Urls(Dedupe(es));
    }
  }

  // ---- A second pass over the output ----

  function SchemeLen(url: string): nat {
    if IsHttp(url) then 7 else 8
  }

  /** There is something other than slashes after the scheme. */
  ghost predicate HasHost(url: string) {
    exists k :: SchemeLen(url) <= k < |url| && url[k] != '/'
  }

  lemma {:induction false} StripIsPrefix(s: string) returns (k: nat)
    ensures k <= |s| && StripSlashes(s) == s[..k]
    ensures k == 0 || s[k - 1] != '/'
    ensures forall i :: k <= i < |s| ==> s[i] == '/'
  {
    if s != "" && s[|s| - 1] == '/' {
      k := StripIsPrefix(s[..|s| - 1]);
      assert s[..|s| - 1][..k] == s[..k];
      assert forall i :: 0 <= i < |s| - 1 ==> s[..|s| - 1][i] == s[i];
    } else {
      k := |s|;
      assert s[..k] == s;
    }
  }

  lemma {:induction false} Utf8LenOfPrefix(s: string, t: string)
    requires |s| <= |t| && forall i :: 0 <= i < |s| ==> Utf8Width(s[i]) == Utf8Width(t[i])
    ensures Utf8Len(s) <= Utf8Len(t)
    decreases |t|
  {
    if |s| < |t| {
      Utf8LenOfPrefix(s, t[..|t| - 1]);
    } else if s != "" {
      Utf8LenOfPrefix(s[..|s| - 1], t[..|t| - 1]);
    }
  }

  lemma {:induction false} TrimmedEnds(s: string)
    requires s != "" && !IsWhitespace(s[0]) && !IsWhitespace(s[|s| - 1])
    ensures Trim(s) == s
  {
  }

  lemma LowerSchemeShape(url: string)
    requires HasScheme(url) && CleanChars(url)
    ensures var low := LowerScheme(url);
      && |low| == |url| && SchemeLen(low) == SchemeLen(url) && HasScheme(low) && CleanChars(low)
      && LowerScheme(low) == low
      && (forall i :: SchemeLen(url) <= i < |url| ==> low[i] == url[i])
      && (forall i :: 0 <= i < |url| ==> Utf8Width(low[i]) == Utf8Width(url[i]))
      && low[..SchemeLen(url)] == if IsHttp(url) then "http://" else "https://"
  {
    var low, n := LowerScheme(url), SchemeLen(url);
    var scheme := if IsHttp(url) then "http://" else "https://";
    assert low == scheme + url[n..];
    assert forall i :: 0 <= i < n ==> low[i] == scheme[i] == Lower(url[i]);
    assert forall i :: n <= i < |url| ==> low[i] == url[i];
    assert low[..n] == scheme && low[n..] == url[n..];
    assert low[4] == if IsHttp(url) then ':' else 's';
  }

  /** Stripping stops in the host if there is one, and right after the colon of the scheme if not. */
  lemma CanonicalShape(url: string) returns (k: nat)
    requires HasScheme(url) && CleanChars(url)
    ensures k <= |url| && CanonicalUrl(url) == LowerScheme(url)[..k]
    ensures if HasHost(url) then SchemeLen(url) < k && LowerScheme(url)[k - 1] != '/' else k == SchemeLen(url) - 2
  {
    LowerSchemeShape(url);
    var low, n := LowerScheme(url), SchemeLen(url);
    k := StripIsPrefix(low);
    assert low[n - 3] == low[..n][n - 3] == ':';
    assert low[n - 2] == low[..n][n - 2] == '/';
    assert low[n - 1] == low[..n][n - 1] == '/';
    if HasHost(url) {
      var j :| n <= j < |url| && url[j] != '/';
      assert low[j] != '/';
    }
  }

  lemma PrefixKeepsScheme(low: string, k: nat)
    requires HasScheme(low) && LowerScheme(low) == low && SchemeLen(low) <= k <= |low|
    ensures HasScheme(low[..k]) && LowerScheme(low[..k]) == low[..k]
  {
    var n, c := SchemeLen(low), low[..k];
    assert forall i :: 0 <= i < n ==> c[i] == low[i];
    assert IsHttp(c) <==> IsHttp(low);
    assert low == low[..n] + low[n..];
    assert c == low[..n] + c[n..];
  }

  /** Without a host the canonical form is no longer a URL. */
  lemma HostlessCollapses(url: string)
    requires HasScheme(url) && CleanChars(url) && !HasHost(url)
    ensures |CanonicalUrl(url)| < 7
  {
    var k := CanonicalShape(url);
  }

  /** With a host the canonical form is accepted again, unchanged. */
  lemma {:induction false} CanonicalUrlStable(url: string)
    requires HasScheme(url) && CleanChars(url) && HasHost(url)
    ensures var c := CanonicalUrl(url); c != "" && HasScheme(c) && CleanChars(c) && Trim(c) == c
    ensures CanonicalUrl(CanonicalUrl(url)) == CanonicalUrl(url)
    ensures Utf8Len(CanonicalUrl(url)) <= Utf8Len(url)
  {
    LowerSchemeShape(url);
    var low := LowerScheme(url);
    var k := CanonicalShape(url);
    PrefixKeepsScheme(low, k);
    CleanPrefix(low, k);
    CanonicalIsShorter(url);
  }

  lemma {:induction false} CanonicalIsShorter(url: string)
    requires HasScheme(url) && CleanChars(url)
    ensures Utf8Len(CanonicalUrl(url)) <= Utf8Len(url)
  {
    LowerSchemeShape(url);
    var k := CanonicalShape(url);
    Utf8LenOfPrefix(LowerScheme(url)[..k], url);
  }

  lemma CleanPrefix(s: string, k: nat)
    requires CleanChars(s) && 0 < k <= |s| && s[k - 1] != '/'
    ensures CleanChars(s[..k]) && Trim(s[..k]) == s[..k] && StripSlashes(s[..k]) == s[..k]
  {
    TrimmedEnds(s[..k]);
  }

  /** What a second pass makes of an entry the first pass kept. */
  lemma SecondPassEntry(e: EndpointConfig)
    requires Accepts(e)
    ensures HasHost(Trim(e.url)) <==> HasScheme(Canonical(e).url)
    ensures Sanitized(Canonical(e)) == if HasHost(Trim(e.url)) then Some(Canonical(e)) else None
  {
    var url := Trim(e.url);
    if HasHost(url) {
      CanonicalUrlStable(url);
    } else {
      HostlessCollapses(url);
      NoSchemeNotAccepted(Canonical(e));
    }
  }

  lemma NoSchemeNotAccepted(e: EndpointConfig)
    requires |e.url| < 7
    ensures !Accepts(e)
  {
    TrimShortens(e.url);
  }

  lemma TrimShortens(s: string)
    ensures |Trim(s)| <= |s|
  {
    TrimStartShortens(s);
    TrimEndShortens(TrimStart(s));
  }

  lemma {:induction false} TrimStartShortens(s: string)
    ensures |TrimStart(s)| <= |s|
  {
    if s != "" && IsWhitespace(s[0]) {
      TrimStartShortens(s[1..]);
    }
  }

  lemma {:induction false} TrimEndShortens(s: string)
    ensures |TrimEnd(s)| <= |s|
  {
    if s != "" && IsWhitespace(s[|s| - 1]) {
      TrimEndShortens(s[..|s| - 1]);
    }
  }

  lemma {:induction false} KeepFirstIdentity(es: seq<EndpointConfig>, os: seq<Option<EndpointConfig>>)
    requires |os| == |es| && DistinctUrls(es)
    requires forall i :: 0 <= i < |es| ==> os[i] == Some(es[i])
    ensures KeepFirst(os) == es
  {
    if es != [] {
      var last := |es| - 1;
      KeepFirstIdentity(es[..last], os[..last]);
      assert es == es[..last] + [es[last]];
    }
  }

  lemma {:induction false} KeepFirstDrops(os: seq<Option<EndpointConfig>>, k: nat)
    requires k < |os|
    ensures |KeepFirst(os[..k])| <= k
    ensures os[k].None? ==> |KeepFirst(os)| < |os|
    decreases |os|
  {
    var last := |os| - 1;
    if k < last {
      KeepFirstDrops(os[..last], k);
      assert os[..last][..k] == os[..k];
    } else if k > 0 {
      KeepFirstDrops(os[..last], k - 1);
      KeepFirstLength(os[..k]);
    }
  }

  lemma {:induction false} KeepFirstLength(os: seq<Option<EndpointConfig>>)
    ensures |KeepFirst(os)| <= |os|
  {
    if os != [] {
      KeepFirstLength(os[..|os| - 1]);
    }
  }

  ghost predicate AllHaveHosts(es: seq<EndpointConfig>) {
    forall i :: 0 <= i < |es| && Accepts(es[i]) ==> HasHost(Trim(es[i].url))
  }

  /** `out` is what the first pass kept, up to the weights `finalize` fills in. */
  ghost predicate KeptEntries(es: seq<EndpointConfig>, out: seq<EndpointConfig>) {
    |out| == |Dedupe(es)| && forall k :: 0 <= k < |out| ==> out[k] == Dedupe(es)[k].(weight := out[k].weight)
  }

  lemma WeightIsNotChecked(e: EndpointConfig, weight: Option<u32>)
    ensures Sanitized(e.(weight := weight)) == if Accepts(e) then Some(Canonical(e).(weight := weight)) else None
  {
  }

  /** What a second pass makes of each entry. */
  lemma SecondPassEntries(es: seq<EndpointConfig>, out: seq<EndpointConfig>, k: nat) returns (i: nat)
    requires KeptEntries(es, out) && k < |out|
    ensures i < |es| && Accepts(es[i]) && Dedupe(es)[k] == Canonical(es[i])
    ensures Sanitized(out[k]) == if HasHost(Trim(es[i].url)) then Some(out[k]) else None
  {
    i := KeptAsConfigured(es, k);
    DedupeSpecification(es);
    SecondPassEntry(es[i]);
    WeightIsNotChecked(Dedupe(es)[k], out[k].weight);
  }

  lemma SecondPassKeeps(es: seq<EndpointConfig>, out: seq<EndpointConfig>)
    requires KeptEntries(es, out) && AllHaveHosts(es)
    ensures Dedupe(out) == out
  {
    DedupeSpecification(es);
    forall k | 0 <= k < |out|
      ensures SanitizeAll(out)[k] == Some(out[k])
    {
      var i := SecondPassEntries(es, out, k);
    }
    KeepFirstIdentity(out, SanitizeAll(out));
  }

  lemma SecondPassDrops(es: seq<EndpointConfig>, out: seq<EndpointConfig>, i: nat)
    requires KeptEntries(es, out) && i < |es| && Accepts(es[i]) && !HasHost(Trim(es[i].url))
    ensures |Dedupe(out)| < |out|
  {
    DedupeSpecification(es);
    SecondPassEntry(es[i]);
    var k :| 0 <= k < |out| && Dedupe(es)[k].url == Canonical(es[i]).url;
    var j := SecondPassEntries(es, out, k);
    SecondPassEntry(es[j]);
    KeepFirstDrops(SanitizeAll(out), k);
  }

  /** A second pass keeps everything if every accepted URL has a host, and loses an entry otherwise. */
  lemma SecondPass(es: seq<EndpointConfig>, out: seq<EndpointConfig>)
    requires KeptEntries(es, out)
    ensures AllHaveHosts(es) ==> Dedupe(out) == out
    ensures !AllHaveHosts(es) ==> |Dedupe(out)| < |out|
  {
    if AllHaveHosts(es) {
      SecondPassKeeps(es, out);
    } else {
      var i :| 0 <= i < |es| && Accepts(es[i]) && !HasHost(Trim(es[i].url));
      SecondPassDrops(es, out, i);
    }
  }

  /**
   * Deduplicating a second time changes nothing exactly when every accepted URL has a host:
   * `http://` on its own collapses to `http:`, which the second pass rejects.
   */
  lemma DedupeIdempotentIff(es: seq<EndpointConfig>)
    ensures Dedupe(Dedupe(es)) == Dedupe(es) <==> AllHaveHosts(es)
  {
    SecondPass(es, Dedupe(es));
  }

  /** What is left of a URL that is nothing but a scheme. */
  lemma BareSchemeAccepted(e: EndpointConfig)
    requires e == EndpointConfig("http://", 20, 25, None)
    ensures Accepts(e) && !HasHost(Trim(e.url))
  {
    TrimmedEnds(e.url);
    Utf8LenAscii(e.url);
    assert IsHttp(e.url);
  }

  /** An input that shows it: the only entry of the first pass is gone after the second. */
  lemma DedupeNotIdempotent(e: EndpointConfig)
    requires e == EndpointConfig("http://", 20, 25, None)
    ensures |Dedupe([e])| == 1 && Dedupe(Dedupe([e])) == []
  {
    var es := [e];
    BareSchemeAccepted(e);
    DedupeSpecification(es);
    SecondPass(es, Dedupe(es));
    KeepFirstLength(SanitizeAll(es));
  }

  // ---- Config::finalize ----

  const DEFAULT_BIND_ADDR := "0.0.0.0:8549"
  const DEFAULT_HEALTH_CHECK_INTERVAL_SECS: u64 := 30
  const DEFAULT_HEALTH_CHECK_TIMEOUT_SECS: u64 := 5
  const DEFAULT_BASE_COOLDOWN_SECS: u64 := 3
  const DEFAULT_MAX_COOLDOWN_SECS: u64 := 60
  const DEFAULT_LATENCY_SMOOTHING_FACTOR := 0.1
  const DEFAULT_ENDPOINT_RATE_LIMIT: u32 := 20
  const DEFAULT_ENDPOINT_WEIGHT: u32 := 20
  const DEFAULT_BURST_SIZE: u32 := 25
  const DEFAULT_MAX_BATCH_SIZE: nat := 100
  const DEFAULT_MAX_CONCURRENCY: nat := 50
  const DEFAULT_CONNECT_TIMEOUT_MS: u64 := 500
  const DEFAULT_TIMEOUT_SECS: u64 := 5
  const DEFAULT_POOL_IDLE_TIMEOUT_SECS: u64 := 20
  const DEFAULT_POOL_MAX_IDLE_PER_HOST: nat := 50
  /** The default URLs, without the access keys that end the first three of them. */
  const DEFAULT_ENDPOINTS: seq<string> := [
    "https://arbitrum-one.blastapi.io/",
    "https://arbitrum.blockpi.network/v1/rpc/",
    "https://rpc.ankr.com/arbitrum/",
    "https://arbitrum.drpc.org/"
  ]

  datatype ServerConfig = ServerConfig(bindAddr: Option<string>)

  datatype BalancerConfig = BalancerConfig(
    healthCheckIntervalSecs: Option<u64>,
    healthCheckTimeoutSecs: Option<u64>,
    baseCooldownSecs: Option<u64>,
    maxCooldownSecs: Option<u64>,
    latencySmoothingFactor: Option<real>,
    endpoints: Option<seq<EndpointConfig>>,
    maxBatchSize: Option<nat>,
    maxConcurrency: Option<nat>,
    connectTimeoutMs: Option<u64>,
    timeoutSecs: Option<u64>,
    poolIdleTimeoutSecs: Option<u64>,
    poolMaxIdlePerHost: Option<nat>)

  datatype Config = Config(server: Option<ServerConfig>, balancer: Option<BalancerConfig>)

  const EMPTY_BALANCER :=
    BalancerConfig(None, None, None, None, None, None, None, None, None, None, None, None)

  function Or<T>(o: Option<T>, default: T): Option<T> {
    if o.Some? then o else Some(default)
  }

  function GetOr<T>(o: Option<T>, default: T): T {
    if o.Some? then o.value else default
  }

  function Clamp(x: real): real {
    if x < 0.0 then 0.0 else if x > 1.0 then 1.0 else x
  }

  function DefaultEndpoints(): seq<EndpointConfig> {
    seq(|DEFAULT_ENDPOINTS|, i requires 0 <= i < |DEFAULT_ENDPOINTS| =>
      EndpointConfig(DEFAULT_ENDPOINTS[i], DEFAULT_ENDPOINT_RATE_LIMIT,
                     DEFAULT_BURST_SIZE, Some(DEFAULT_ENDPOINT_WEIGHT)))
  }

  /** The final constraints on one validated entry. */
  function Constrained(e: EndpointConfig): EndpointConfig {
    e.(rateLimitPerSec := Max(e.rateLimitPerSec, 1),
       burstSize := Max(e.burstSize, 1),
       weight := Or(e.weight, DEFAULT_ENDPOINT_WEIGHT))
  }

  function ConstrainAll(es: seq<EndpointConfig>): seq<EndpointConfig> {
    seq(|es|, i requires 0 <= i < |es| => Constrained(es[i]))
  }

  /** The entries `finalize` starts from. */
  function Listed(b: BalancerConfig): seq<EndpointConfig> {
    GetOr(b.endpoints, DefaultEndpoints())
  }

  function WithDefaults(b: BalancerConfig): BalancerConfig {
    BalancerConfig(
      Or(b.healthCheckIntervalSecs, DEFAULT_HEALTH_CHECK_INTERVAL_SECS),
      Or(b.healthCheckTimeoutSecs, DEFAULT_HEALTH_CHECK_TIMEOUT_SECS),
      Or(b.baseCooldownSecs, DEFAULT_BASE_COOLDOWN_SECS),
      Or(b.maxCooldownSecs, DEFAULT_MAX_COOLDOWN_SECS),
      Some(Clamp(GetOr(b.latencySmoothingFactor, DEFAULT_LATENCY_SMOOTHING_FACTOR))),
      Some(ConstrainAll(Dedupe(Listed(b)))),
      Some(Max(GetOr(b.maxBatchSize, DEFAULT_MAX_BATCH_SIZE), 1)),
      Some(Max(GetOr(b.maxConcurrency, DEFAULT_MAX_CONCURRENCY), 1)),
      Or(b.connectTimeoutMs, DEFAULT_CONNECT_TIMEOUT_MS),
      Or(b.timeoutSecs, DEFAULT_TIMEOUT_SECS),
      Or(b.poolIdleTimeoutSecs, DEFAULT_POOL_IDLE_TIMEOUT_SECS),
      Or(b.poolMaxIdlePerHost, DEFAULT_POOL_MAX_IDLE_PER_HOST))
  }

  function Finalized(c: Config): Result<Config> {
    var server := GetOr(c.server, ServerConfig(None));
    var b := GetOr(c.balancer, EMPTY_BALANCER);
    if Dedupe(Listed(b)) == [] then NoValidEndpoints
    else Ok(Config(Some(ServerConfig(Or(server.bindAddr, DEFAULT_BIND_ADDR))), Some(WithDefaults(b))))
  }

  method Finalize(c: Config) returns (r: Result<Config>)
    ensures r == Finalized(c)
  {
    var server := GetOr(c.server, ServerConfig(None));
    server := server.(bindAddr := Or(server.bindAddr, DEFAULT_BIND_ADDR));
    var b := GetOr(c.balancer, EMPTY_BALANCER);
    ghost var given := b;
    b := b.(healthCheckIntervalSecs := Or(b.healthCheckIntervalSecs, DEFAULT_HEALTH_CHECK_INTERVAL_SECS));
    b := b.(healthCheckTimeoutSecs := Or(b.healthCheckTimeoutSecs, DEFAULT_HEALTH_CHECK_TIMEOUT_SECS));
    b := b.(baseCooldownSecs := Or(b.baseCooldownSecs, DEFAULT_BASE_COOLDOWN_SECS));
    b := b.(maxCooldownSecs := Or(b.maxCooldownSecs, DEFAULT_MAX_COOLDOWN_SECS));
    b := b.(latencySmoothingFactor := Some(Clamp(GetOr(b.latencySmoothingFactor, DEFAULT_LATENCY_SMOOTHING_FACTOR))));
    b := b.(maxBatchSize := Some(Max(GetOr(b.maxBatchSize, DEFAULT_MAX_BATCH_SIZE), 1)));
    b := b.(maxConcurrency := Some(Max(GetOr(b.maxConcurrency, DEFAULT_MAX_CONCURRENCY), 1)));
    b := b.(connectTimeoutMs := Or(b.connectTimeoutMs, DEFAULT_CONNECT_TIMEOUT_MS));
    b := b.(timeoutSecs := Or(b.timeoutSecs, DEFAULT_TIMEOUT_SECS));
    b := b.(poolIdleTimeoutSecs := Or(b.poolIdleTimeoutSecs, DEFAULT_POOL_IDLE_TIMEOUT_SECS));
    b := b.(poolMaxIdlePerHost := Or(b.poolMaxIdlePerHost, DEFAULT_POOL_MAX_IDLE_PER_HOST));
    var validated := ValidateAndDedupeEndpoints(GetOr(b.endpoints, DefaultEndpoints()));
    if validated.NoValidEndpoints? {
      return NoValidEndpoints;
    }
    var endpoints := validated.value;
    ghost var kept := endpoints;
    for i := 0 to |endpoints|
      invariant |endpoints| == |kept|
      invariant forall j :: 0 <= j < |kept| ==> endpoints[j] == if j < i then Constrained(kept[j]) else kept[j]
    {
      var e := endpoints[i];
      e := e.(rateLimitPerSec := Max(e.rateLimitPerSec, 1));
      e := e.(burstSize := Max(e.burstSize, 1));
      if e.weight.None? {
        e := e.(weight := Some(DEFAULT_ENDPOINT_WEIGHT));
      }
      endpoints := endpoints[i := e];
    }
    assert endpoints == ConstrainAll(kept);
    b := b.(endpoints := Some(endpoints));
    assert b == WithDefaults(given);
    r := Ok(Config(Some(server), Some(b)));
  }

  /** What every user of a finalized endpoint list may rely on. */
  ghost predicate UsableEndpoints(es: seq<EndpointConfig>) {
    && es != []
    && DistinctUrls(es)
    && forall i :: 0 <= i < |es| ==> Usable(es[i])
  }

  predicate Usable(e: EndpointConfig) {
    && e.weight.Some?
    && 1 <= e.rateLimitPerSec <= MAX_RATE_LIMIT
    && 1 <= e.burstSize <= MAX_BURST_SIZE
  }

  /** Every setting is present and in range. */
  ghost predicate Complete(b: BalancerConfig) {
    && b.healthCheckIntervalSecs.Some? && b.healthCheckTimeoutSecs.Some?
    && b.baseCooldownSecs.Some? && b.maxCooldownSecs.Some?
    && b.latencySmoothingFactor.Some? && 0.0 <= b.latencySmoothingFactor.value <= 1.0
    && b.maxBatchSize.Some? && 1 <= b.maxBatchSize.value
    && b.maxConcurrency.Some? && 1 <= b.maxConcurrency.value
    && b.connectTimeoutMs.Some? && b.timeoutSecs.Some?
    && b.poolIdleTimeoutSecs.Some? && b.poolMaxIdlePerHost.Some?
    && b.endpoints.Some? && UsableEndpoints(b.endpoints.value)
  }

  /** A finalized configuration is complete, so nothing downstream meets a missing or unusable value. */
  lemma FinalizedIsComplete(c: Config)
    requires Finalized(c).Ok?
    ensures var f := Finalized(c).value; f.server.Some? && f.balancer.Some? && Complete(f.balancer.value)
  {
    var es := Listed(GetOr(c.balancer, EMPTY_BALANCER));
    DedupeSpecification(es);
    var picked := Firsts(SanitizeAll(es));
    forall k | 0 <= k < |Dedupe(es)|
      ensures Usable(ConstrainAll(Dedupe(es))[k])
    {
      assert Accepts(es[picked[k]]);
    }
  }

  /** The endpoints of a finalized configuration: the kept entries with their settings, and weight 20 by default. */
  lemma FinalizedEndpoints(c: Config, k: nat) returns (i: nat)
    requires Finalized(c).Ok? && Complete(Finalized(c).value.balancer.value)
    requires k < |Finalized(c).value.balancer.value.endpoints.value|
    ensures var es := Listed(GetOr(c.balancer, EMPTY_BALANCER));
      && IsFirstAccepted(es, i)
      && var out := Finalized(c).value.balancer.value.endpoints.value[k];
      && out.rateLimitPerSec == es[i].rateLimitPerSec && out.burstSize == es[i].burstSize
      && out.weight == Some(if es[i].weight.Some? then es[i].weight.value else 20)
      && IsCanonicalOf(out.url, Trim(es[i].url))
  {
    var es := Listed(GetOr(c.balancer, EMPTY_BALANCER));
    i := KeptAsConfigured(es, k);
  }

  /** A setting that is given stays, and one that is absent takes its default. */
  ghost predicate GivenOr<T>(given: Option<T>, out: Option<T>, default: T) {
    out == Some(if given.Some? then given.value else default)
  }

  ghost predicate AtLeastOne(given: Option<nat>, out: Option<nat>, default: nat) {
    out == Some(if given.Some? then (if given.value == 0 then 1 else given.value) else default)
  }

  /** Every setting of a finalized configuration: as given, in range, or the default. */
  ghost predicate SettingsFinalized(b: BalancerConfig, f: BalancerConfig) {
    && GivenOr(b.healthCheckIntervalSecs, f.healthCheckIntervalSecs, 30)
    && GivenOr(b.healthCheckTimeoutSecs, f.healthCheckTimeoutSecs, 5)
    && GivenOr(b.baseCooldownSecs, f.baseCooldownSecs, 3)
    && GivenOr(b.maxCooldownSecs, f.maxCooldownSecs, 60)
    && AtLeastOne(b.maxBatchSize, f.maxBatchSize, 100)
    && AtLeastOne(b.maxConcurrency, f.maxConcurrency, 50)
    && GivenOr(b.connectTimeoutMs, f.connectTimeoutMs, 500)
    && GivenOr(b.timeoutSecs, f.timeoutSecs, 5)
    && GivenOr(b.poolIdleTimeoutSecs, f.poolIdleTimeoutSecs, 20)
    && GivenOr(b.poolMaxIdlePerHost, f.poolMaxIdlePerHost, 50)
    && f.latencySmoothingFactor.Some? && 0.0 <= f.latencySmoothingFactor.value <= 1.0
    && match b.latencySmoothingFactor
       case None => f.latencySmoothingFactor.value == 0.1
       case Some(x) =>
         && (0.0 <= x <= 1.0 ==> f.latencySmoothingFactor.value == x)
         && (x < 0.0 ==> f.latencySmoothingFactor.value == 0.0)
         && (1.0 < x ==> f.latencySmoothingFactor.value == 1.0)
  }

  lemma DefaultsKeepSettings(b: BalancerConfig)
    ensures SettingsFinalized(b, WithDefaults(b))
  {
  }

  lemma FinalizedKeepsSettings(c: Config)
    requires Finalized(c).Ok?
    ensures var f := Finalized(c).value;
      && f.balancer.Some? && SettingsFinalized(GetOr(c.balancer, EMPTY_BALANCER), f.balancer.value)
      && f.server.Some?
      && GivenOr(if c.server.Some? then c.server.value.bindAddr else None, f.server.value.bindAddr, "0.0.0.0:8549")
  {
    DefaultsKeepSettings(GetOr(c.balancer, EMPTY_BALANCER));
  }

  /** Without any endpoints in the file there are four, all of rate 20, burst 25 and weight 20. */
  lemma ListedByDefault(b: BalancerConfig, k: nat)
    requires k < |Listed(b)|
    ensures b.endpoints.Some? ==> Listed(b) == b.endpoints.value
    ensures b.endpoints.None? ==>
      |Listed(b)| == 4 && Listed(b)[k].rateLimitPerSec == 20 && Listed(b)[k].burstSize == 25
      && Listed(b)[k].weight == Some(20) && Listed(b)[k].url == DEFAULT_ENDPOINTS[k]
  {
  }

  lemma ConstrainedTwice(es: seq<EndpointConfig>)
    ensures ConstrainAll(ConstrainAll(es)) == ConstrainAll(es)
  {
  }

  /** Apart from the endpoints, the defaults of a completed configuration are its own values. */
  lemma DefaultsTwice(b: BalancerConfig)
    ensures WithDefaults(WithDefaults(b))
      == WithDefaults(b).(endpoints := Some(ConstrainAll(Dedupe(ConstrainAll(Dedupe(Listed(b)))))))
  {
  }

  /** Finalizing a finalized configuration changes nothing exactly when every accepted URL has a host. */
  lemma FinalizeIdempotentIff(c: Config)
    requires Finalized(c).Ok?
    ensures Finalized(Finalized(c).value) == Finalized(c) <==> AllHaveHosts(Listed(GetOr(c.balancer, EMPTY_BALANCER)))
  {
    var b := GetOr(c.balancer, EMPTY_BALANCER);
    var es := Listed(b);
    var out := ConstrainAll(Dedupe(es));
    DedupeSpecification(es);
    ConstrainedTwice(Dedupe(es));
    DefaultsTwice(b);
    SecondPass(es, out);
  }

  /** A configuration that finalizes, while what it is finalized to does not. */
  lemma FinalizeNotIdempotent(e: EndpointConfig, c: Config)
    requires e == EndpointConfig("http://", 20, 25, None)
    requires c == Config(None, Some(EMPTY_BALANCER.(endpoints := Some([e]))))
    ensures Finalized(c).Ok? && Finalized(Finalized(c).value) == NoValidEndpoints
  {
    DedupeNotIdempotent(e);
    BareSchemeAccepted(e);
    SecondPass([e], ConstrainAll(Dedupe([e])));
  }

  predicate IsPlain(s: string) {
    forall i :: 0 <= i < |s| ==> '!' <= s[i] <= '~'
  }

  lemma LastDefaultIsPlain(url: string)
    requires url == "https://arbitrum.drpc.org/"
    ensures IsPlain(url) && |url| <= MAX_URL_LEN
  {
  }

  lemma LastDefaultIsHttps(url: string)
    requires url == "https://arbitrum.drpc.org/"
    ensures IsHttps(url)
  {
  }

  /** Startup without a configuration file succeeds: the last default endpoint alone is enough. */
  lemma DefaultsFinalize()
    ensures Finalized(Config(None, None)).Ok?
  {
    var es := DefaultEndpoints();
    LastDefaultIsPlain(es[3].url);
    LastDefaultIsHttps(es[3].url);
    PlainUrlAcceptedIff(es[3]);
    ValidationFailsIff(es);
  }

  /** Exactly what is accepted of an entry whose URL is plain ASCII: all bounds are inclusive. */
  lemma PlainUrlAcceptedIff(e: EndpointConfig)
    requires IsPlain(e.url) && e.url != ""
    ensures Accepts(e)
      <==> (HasScheme(e.url) && |e.url| <= 2048
            && 1 <= e.rateLimitPerSec <= 100_000 && 1 <= e.burstSize <= 10_000)
  {
    TrimmedEnds(e.url);
    Utf8LenAscii(e.url);
  }

  lemma {:induction false} Utf8LenAscii(s: string)
    requires forall i :: 0 <= i < |s| ==> (s[i] as int) < 0x80
    ensures Utf8Len(s) == |s|
  {
    if s != "" {
      Utf8LenAscii(s[..|s| - 1]);
    }
  }
}
