/** Deriving the API base URL and the API origin (`apiBase.js`, and the older copy of the base
    URL derivation at the top of `client.js`). Build-time variables and `window.location` are
    inputs. */
module ApiBase {
  import opened Base
  import opened Text

  /** `import.meta.env`: the two build-time variables (None when unset). */
  datatype Env = Env(apiBaseUrl: Option<string>, apiUrl: Option<string>)

  /** `window.location` (`protocol` includes the colon, as in `"https:"`). */
  datatype Location = Location(protocol: string, hostname: string)

  const ApiPath: string := "/api/v1"
  const BackendPort: string := "8000"
  const CodespacesSuffix: string := ".github.dev"
  const FallbackBaseUrl: string := "http://localhost:8000/api/v1"

  /** `s.replace(/\/$/, '')`: drops one trailing slash. */
  function StripTrailingSlash(s: string): (r: string)
    ensures |s| > 0 && s[|s| - 1] == '/' ==> r == s[..|s| - 1]
    ensures !(|s| > 0 && s[|s| - 1] == '/') ==> r == s
  {
    if |s| > 0 && s[|s| - 1] == '/' then s[..|s| - 1] else s
  }

  /** Stripping undoes appending a slash, and otherwise removes at most the one slash at
      the end. */
  lemma StripTrailingSlashUndoesAppend(s: string)
    ensures StripTrailingSlash(s + "/") == s
    ensures StripTrailingSlash(s) == s || StripTrailingSlash(s) + "/" == s
  {
    assert (s + "/")[..|s|] == s;
    if |s| > 0 && s[|s| - 1] == '/' {
      assert s[..|s| - 1] + "/" == s;
    }
  }

  /** The first position at or after `j` that is not an ASCII digit. */
  function DigitRunEnd(s: string, j: nat): (k: nat)
    requires j <= |s|
    ensures j <= k <= |s|
    ensures forall m :: j <= m < k ==> IsAsciiDigit(s[m])
    ensures k == |s| || !IsAsciiDigit(s[k])
    decreases |s| - j
  {
    if j < |s| && IsAsciiDigit(s[j]) then DigitRunEnd(s, j + 1) else j
  }

  /** `/-\d+\./` matches at position `i`. */
  predicate PortSegmentAt(s: string, i: nat) {
    i + 1 < |s| && s[i] == '-' && IsAsciiDigit(s[i + 1]) &&
    var k := DigitRunEnd(s, i + 1); k < |s| && s[k] == '.'
  }

  /** The text after the match at `i`. */
  function AfterSegment(s: string, i: nat): string
    requires PortSegmentAt(s, i)
  {
    s[DigitRunEnd(s, i + 1) + 1..]
  }

  function RewriteFrom(s: string, i: nat): string
    decreases |s| - i
  {
    if i >= |s| then s
    else if PortSegmentAt(s, i) then s[..i] + "-" + BackendPort + "." + AfterSegment(s, i)
    else RewriteFrom(s, i + 1)
  }

  /** `hostname.replace(/-\d+\./, '-8000.')`: the leftmost `-<digits>.` becomes `-8000.`. */
  function RewriteCodespaceHost(s: string): string {
    RewriteFrom(s, 0)
  }

  lemma {:induction false} RewriteFromLeftmost(s: string, k: nat, i: nat)
    requires k <= i && PortSegmentAt(s, i)
    requires forall j :: k <= j < i ==> !PortSegmentAt(s, j)
    ensures RewriteFrom(s, k) == s[..i] + "-8000." + AfterSegment(s, i)
    decreases i - k
  {
    if k < i {
      RewriteFromLeftmost(s, k + 1, i);
    }
  }

  lemma {:induction false} RewriteFromNone(s: string, k: nat)
    requires forall j :: k <= j < |s| ==> !PortSegmentAt(s, j)
    ensures RewriteFrom(s, k) == s
    decreases |s| - k
  {
    if k < |s| {
      RewriteFromNone(s, k + 1);
    }
  }

  /** The rewrite replaces the LEFTMOST `-<digits>.` and nothing else; a host without one
      comes back unchanged. */
  lemma RewriteCodespaceHostSpec(s: string)
    ensures (exists i :: 0 <= i < |s| && PortSegmentAt(s, i)) ==>
      exists i :: 0 <= i < |s| && PortSegmentAt(s, i) && (forall j :: 0 <= j < i ==> !PortSegmentAt(s, j)) &&
        RewriteCodespaceHost(s) == s[..i] + "-8000." + AfterSegment(s, i)
    ensures (forall i :: 0 <= i < |s| ==> !PortSegmentAt(s, i)) ==> RewriteCodespaceHost(s) == s
  {
    if exists i :: 0 <= i < |s| && PortSegmentAt(s, i) {
      var i := Leftmost(s);
      RewriteFromLeftmost(s, 0, i);
    } else {
      RewriteFromNone(s, 0);
    }
  }

  lemma Leftmost(s: string) returns (i: nat)
    requires exists i :: 0 <= i < |s| && PortSegmentAt(s, i)
    ensures i < |s| && PortSegmentAt(s, i) && forall j :: 0 <= j < i ==> !PortSegmentAt(s, j)
  {
    i := 0;
    while !PortSegmentAt(s, i)
      invariant i < |s|
      invariant forall j :: 0 <= j < i ==> !PortSegmentAt(s, j)
      decreases |s| - i
    {
      i := i + 1;
    }
  }

  /** The base URL, given the chosen build-time value and the window (None outside a
      browser). */
  function BaseUrlFrom(envUrl: Option<string>, window: Option<Location>): string {
    if envUrl.Some? && envUrl.value != "" then StripTrailingSlash(envUrl.value)
    else if window.Some? then
      var loc := window.value;
      var host := if Contains(loc.hostname, CodespacesSuffix) then RewriteCodespaceHost(loc.hostname)
                  else if !Contains(loc.hostname, ":") then loc.hostname + ":" + BackendPort
                  else loc.hostname;
      loc.protocol + "//" + host + ApiPath
    else FallbackBaseUrl
  }

  /** `deriveFromEnv` / `deriveApiBaseUrl` of `apiBase.js`: `VITE_API_BASE_URL ?? VITE_API_URL`. */
  function DeriveFromEnv(env: Env, window: Option<Location>): string {
    BaseUrlFrom(if env.apiBaseUrl.Some? then env.apiBaseUrl else env.apiUrl, window)
  }

  /** `deriveApiBaseUrl` of `client.js`, which reads only `VITE_API_BASE_URL`. */
  function ClientBaseUrl(env: Env, window: Option<Location>): string {
    BaseUrlFrom(env.apiBaseUrl, window)
  }

  /** The env value wins when non-empty, losing at most one trailing slash. An empty
      `VITE_API_BASE_URL` is not nullish, so `VITE_API_URL` is then ignored. */
  lemma EnvValueWins(env: Env, window: Option<Location>)
    ensures env.apiBaseUrl.Some? && env.apiBaseUrl.value != "" ==>
      DeriveFromEnv(env, window) == StripTrailingSlash(env.apiBaseUrl.value)
    ensures env.apiBaseUrl.None? && env.apiUrl.Some? && env.apiUrl.value != "" ==>
      DeriveFromEnv(env, window) == StripTrailingSlash(env.apiUrl.value)
    ensures env.apiBaseUrl == Some("") ==> DeriveFromEnv(env, window) == DeriveFromEnv(Env(None, None), window)
  {
  }

  /** The client's copy differs from `deriveFromEnv` only in ignoring `VITE_API_URL`: with
      `VITE_API_BASE_URL` unset and `VITE_API_URL` set, the client falls back to the window
      while `deriveFromEnv` uses the variable. */
  lemma ClientIgnoresApiUrl(env: Env, window: Option<Location>)
    ensures ClientBaseUrl(env, window) == DeriveFromEnv(Env(env.apiBaseUrl, None), window)
    ensures env.apiBaseUrl.Some? ==> ClientBaseUrl(env, window) == DeriveFromEnv(env, window)
    ensures env.apiBaseUrl.None? ==> ClientBaseUrl(env, window) == DeriveFromEnv(Env(None, None), window)
  {
  }

  /** Without an env value: the Codespaces rewrite for `.github.dev` hosts, `:8000` for hosts
      without a colon, always the `/api/v1` path; the fixed localhost URL outside a browser. */
  lemma WindowFallback(loc: Location)
    ensures var h := loc.hostname;
      && (Contains(h, CodespacesSuffix) ==>
            DeriveFromEnv(Env(None, None), Some(loc)) == loc.protocol + "//" + RewriteCodespaceHost(h) + "/api/v1")
      && (!Contains(h, CodespacesSuffix) && !Contains(h, ":") ==>
            DeriveFromEnv(Env(None, None), Some(loc)) == loc.protocol + "//" + h + ":8000/api/v1")
      && (!Contains(h, CodespacesSuffix) && Contains(h, ":") ==>
            DeriveFromEnv(Env(None, None), Some(loc)) == loc.protocol + "//" + h + "/api/v1")
    ensures DeriveFromEnv(Env(None, None), None) == "http://localhost:8000/api/v1"
  {
    var h := loc.hostname;
    assert loc.protocol + "//" + (h + ":" + BackendPort) + ApiPath == loc.protocol + "//" + h + ":8000/api/v1";
  }

  /** `/\/api\/v/i` at the end of `s[..k]`: the six characters before the trailing digits. */
  predicate VersionMarkerBefore(s: string, k: nat)
    requires k <= |s|
  {
    k >= 6 && LowerAscii(s[k - 6..k]) == "/api/v"
  }

  /** Where the trailing run of ASCII digits of `s` starts. */
  function TrailingDigitsStart(s: string): (k: nat)
    ensures k <= |s|
    ensures forall m :: k <= m < |s| ==> IsAsciiDigit(s[m])
    ensures k == 0 || !IsAsciiDigit(s[k - 1])
  {
    if |s| > 0 && IsAsciiDigit(s[|s| - 1]) then TrailingDigitsStart(s[..|s| - 1]) else |s|
  }

  /** `s.match(/^(.*)\/api\/v\d+$/i)`: Some(group 1) when it matches. */
  function MatchVersionedPath(s: string): Option<string> {
    var k := TrailingDigitsStart(s);
    if k < |s| && VersionMarkerBefore(s, k) && !Any(s[..k - 6], IsLineTerminator)
    then Some(s[..k - 6]) else None
  }

  /** `s` is `p`, then `/api/v` in any letter case, then one or more ASCII digits, and `p`
      holds no line break: the strings `/^(.*)\/api\/v\d+$/i` matches, `p` being group 1. */
  predicate Versioned(s: string, p: string, marker: string, digits: string) {
    && s == p + marker + digits
    && |marker| == 6 && LowerAscii(marker) == "/api/v"
    && |digits| > 0 && All(digits, IsAsciiDigit)
    && !Any(p, IsLineTerminator)
  }

  /** A versioned string is matched, with its prefix as the group. */
  lemma MatchFindsVersioned(s: string, p: string, marker: string, digits: string)
    requires Versioned(s, p, marker, digits)
    ensures MatchVersionedPath(s) == Some(p)
  {
    assert ToLowerAscii(marker[5]) == LowerAscii(marker)[5] == 'v';
    assert !IsAsciiDigit(marker[5]);
    assert (p + marker)[|p + marker| - 1] == marker[5];
    assert s == (p + marker) + digits;
    TrailingDigitsOfSuffix(p + marker, digits);
    assert s[|p|..|p| + 6] == marker;
    assert s[..|p|] == p;
  }

  /** The matcher succeeds exactly on versioned strings, and then yields their prefix. */
  lemma MatchVersionedPathExactly(s: string)
    ensures MatchVersionedPath(s).Some? ==>
      exists marker, digits :: Versioned(s, MatchVersionedPath(s).value, marker, digits)
    ensures MatchVersionedPath(s).None? <==> forall p, marker, digits :: !Versioned(s, p, marker, digits)
  {
    if MatchVersionedPath(s).Some? {
      var k := TrailingDigitsStart(s);
      var p, marker, digits := s[..k - 6], s[k - 6..k], s[k..];
      assert s == p + marker + digits;
      assert All(digits, IsAsciiDigit) by {
        forall m | 0 <= m < |digits| ensures IsAsciiDigit(digits[m]) {
          assert digits[m] == s[k + m];
        }
      }
      assert Versioned(s, p, marker, digits);
    }
    forall p, marker, digits | Versioned(s, p, marker, digits)
      ensures MatchVersionedPath(s).Some?
    {
      MatchFindsVersioned(s, p, marker, digits);
    }
  }

  /** `deriveApiOrigin(baseUrl)`. */
  function DeriveApiOrigin(baseUrl: string): string {
    var normalized := StripTrailingSlash(baseUrl);
    match MatchVersionedPath(normalized)
    case Some(prefix) => prefix
    case None => normalized
  }

  lemma {:induction false} TrailingDigitsOfSuffix(p: string, digits: string)
    requires |digits| > 0 && All(digits, IsAsciiDigit)
    requires |p| > 0 && !IsAsciiDigit(p[|p| - 1])
    ensures TrailingDigitsStart(p + digits) == |p|
    decreases |digits|
  {
    var s := p + digits;
    assert IsAsciiDigit(s[|s| - 1]);
    assert s[..|s| - 1] == p + digits[..|digits| - 1];
    if |digits| > 1 {
      TrailingDigitsOfSuffix(p, digits[..|digits| - 1]);
    } else {
      assert s[..|s| - 1] == p;
    }
  }

  /** A URL ending in `/api/v<digits>` (any letter case in `api` and `v`) yields the text
      before that suffix, provided that text holds no line break. */
  lemma OriginStripsVersionedPath(p: string, marker: string, digits: string)
    requires |marker| == 6 && LowerAscii(marker) == "/api/v"
    requires |digits| > 0 && All(digits, IsAsciiDigit)
    requires !Any(p, IsLineTerminator)
    ensures DeriveApiOrigin(p + marker + digits) == p
  {
    var s := p + marker + digits;
    assert s[|s| - 1] == digits[|digits| - 1];
    assert StripTrailingSlash(s) == s;
    MatchFindsVersioned(s, p, marker, digits);
  }

  /** A URL that, once its trailing slash is stripped, is not of the versioned form comes
      back with just that slash removed. */
  lemma OriginWithoutVersionedPath(s: string)
    requires forall p, marker, digits :: !Versioned(StripTrailingSlash(s), p, marker, digits)
    ensures DeriveApiOrigin(s) == StripTrailingSlash(s)
  {
    MatchVersionedPathExactly(StripTrailingSlash(s));
  }

  /** The origin of a base URL derived from the window is the backend's scheme and host. */
  lemma OriginOfWindowBaseUrl(loc: Location)
    requires !Any(loc.protocol, IsLineTerminator) && !Any(loc.hostname, IsLineTerminator)
    requires !Contains(loc.hostname, CodespacesSuffix)
    ensures DeriveApiOrigin(DeriveFromEnv(Env(None, None), Some(loc))) ==
      loc.protocol + "//" + (if Contains(loc.hostname, ":") then loc.hostname else loc.hostname + ":8000")
  {
    var host := if Contains(loc.hostname, ":") then loc.hostname else loc.hostname + ":8000";
    var p := loc.protocol + "//" + host;
    assert !Any(p, IsLineTerminator) by {
      forall i | 0 <= i < |p| ensures !IsLineTerminator(p[i]) {
        if i < |loc.protocol| {
          assert p[i] == loc.protocol[i];
        } else if i < |loc.protocol| + 2 {
          assert p[i] == '/';
        } else if i < |loc.protocol| + 2 + |loc.hostname| {
          assert p[i] == loc.hostname[i - |loc.protocol| - 2];
        }
      }
    }
    assert LowerAscii("/api/v") == "/api/v";
    assert DeriveFromEnv(Env(None, None), Some(loc)) == p + "/api/v" + "1";
    OriginStripsVersionedPath(p, "/api/v", "1");
  }
}
