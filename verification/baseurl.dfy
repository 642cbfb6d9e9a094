/** The API base address fixed at construction: the user's base URL with
    every trailing `/` removed, then `:` and the port in decimal. */
module BaseUrl {
  import opened Js

  const DefaultPort: nat := 8080
  const DefaultBaseUrl: string := "http://localhost"

  predicate AllSlashes(s: string)
  {
    forall i :: 0 <= i < |s| ==> s[i] == '/'
  }

  predicate EndsWithSlash(s: string)
  {
    |s| > 0 && s[|s| - 1] == '/'
  }

  /** The base URL without its run of trailing slashes. */
  function TrimTrailingSlashes(s: string): (r: string)
    ensures r <= s
    ensures AllSlashes(s[|r|..])
    ensures !EndsWithSlash(r)
    decreases |s|
  {
    if EndsWithSlash(s) then TrimTrailingSlashes(s[..|s| - 1]) else s
  }

  /** A string that does not end in `/`, followed by any run of slashes,
      trims back to that string: the trim removes exactly the trailing
      run, no more and no less. */
  lemma {:induction false} TrimRemovesExactlyTheRun(p: string, tail: string)
    requires !EndsWithSlash(p)
    requires AllSlashes(tail)
    ensures TrimTrailingSlashes(p + tail) == p
    decreases |tail|
  {
    if |tail| > 0 {
      assert (p + tail)[..|p + tail| - 1] == p + tail[..|tail| - 1];
      TrimRemovesExactlyTheRun(p, tail[..|tail| - 1]);
    } else {
      assert p + tail == p;
    }
  }

  lemma TrimIdempotent(s: string)
    ensures TrimTrailingSlashes(TrimTrailingSlashes(s)) == TrimTrailingSlashes(s)
  {
    var t := TrimTrailingSlashes(s);
    assert t + [] == t;
    TrimRemovesExactlyTheRun(t, []);
  }

  /** The constructor's loop: drops one trailing slash at a time until none
      is left. */
  method TrimLoop(baseUrl: string) returns (b: string)
    ensures b <= baseUrl
    ensures !EndsWithSlash(b)
    ensures AllSlashes(baseUrl[|b|..])
    ensures b == TrimTrailingSlashes(baseUrl)
  {
    b := baseUrl;
    while EndsWithSlash(b)
      invariant b <= baseUrl
      invariant AllSlashes(baseUrl[|b|..])
      decreases |b|
    {
      b := b[..|b| - 1];
    }
    assert baseUrl == b + baseUrl[|b|..];
    TrimRemovesExactlyTheRun(b, baseUrl[|b|..]);
  }

  predicate IsDigit(c: char)
  {
    '0' <= c <= '9'
  }

  predicate AllDigits(s: string)
  {
    forall i :: 0 <= i < |s| ==> IsDigit(s[i])
  }

  function DigitChar(d: nat): (c: char)
    requires d < 10
    ensures IsDigit(c)
    ensures c as int - '0' as int == d
  {
    ('0' as int + d) as char
  }

  /** A template literal's rendering of a non-negative integer: decimal,
      no leading zeros. */
  function NatToString(n: nat): (s: string)
    ensures |s| > 0 && AllDigits(s)
    ensures |s| > 1 ==> s[0] != '0'
    decreases n
  {
    if n < 10 then [DigitChar(n)] else NatToString(n / 10) + [DigitChar(n % 10)]
  }

  function ParseDigits(s: string): nat
    requires AllDigits(s)
    decreases |s|
  {
    if |s| == 0 then 0
    else ParseDigits(s[..|s| - 1]) * 10 + (s[|s| - 1] as int - '0' as int)
  }

  lemma {:induction false} ParseNatToString(n: nat)
    ensures ParseDigits(NatToString(n)) == n
    decreases n
  {
    if n >= 10 {
      var s := NatToString(n);
      assert s[..|s| - 1] == NatToString(n / 10);
      ParseNatToString(n / 10);
    }
  }

  /** The API base address: the trimmed base URL, a colon, and the port in
      decimal. */
  function ApiBaseUrl(baseUrl: string, port: nat): string
  {
    TrimTrailingSlashes(baseUrl) + ":" + NatToString(port)
  }

  /** Index of the last occurrence of `c`. */
  function LastIndexOf(s: string, c: char): (r: Option<nat>)
    ensures r.Some? ==> r.value < |s| && s[r.value] == c
    ensures r.Some? ==> forall j :: r.value < j < |s| ==> s[j] != c
    ensures r.None? ==> forall j :: 0 <= j < |s| ==> s[j] != c
    decreases |s|
  {
    if |s| == 0 then None
    else if s[|s| - 1] == c then Some(|s| - 1)
    else LastIndexOf(s[..|s| - 1], c)
  }

  /** Reads an API base address back into the trimmed base and the port:
      the port is the digit run after the last `:`. */
  function SplitApiBaseUrl(api: string): Option<(string, nat)>
  {
    match LastIndexOf(api, ':')
    case None => None
    case Some(i) =>
      var digits := api[i + 1..];
      if |digits| > 0 && AllDigits(digits) then Some((api[..i], ParseDigits(digits)))
      else None
  }

  /** The constructed base address determines both the trimmed base URL
      and the port. */
  lemma ApiBaseUrlRoundTrip(baseUrl: string, port: nat)
    ensures SplitApiBaseUrl(ApiBaseUrl(baseUrl, port)) == Some((TrimTrailingSlashes(baseUrl), port))
  {
    var t := TrimTrailingSlashes(baseUrl);
    var digits := NatToString(port);
    var api := ApiBaseUrl(baseUrl, port);
    assert api[|t|] == ':';
    assert api[|t| + 1..] == digits;
    assert api[..|t|] == t;
    assert forall j :: |t| < j < |api| ==> api[j] == digits[j - |t| - 1];
    ParseNatToString(port);
  }

  /** The default client talks to `http://localhost:8080`. */
  lemma DefaultApiBaseUrl()
    ensures ApiBaseUrl(DefaultBaseUrl, DefaultPort) == "http://localhost:8080"
  {
    assert NatToString(8) == "8";
    assert NatToString(80) == "80";
    assert NatToString(808) == "808";
    assert NatToString(8080) == "8080";
  }
}
