/** lib/utils/rate-limit.ts: choosing the client identifier from proxy headers,
    and the response headers built from the limiter's verdict. The limiter
    itself (a hosted sliding window) is not part of this model: its numbers
    are inputs. */
module RateLimit {
  import opened Wrappers
  import opened Text

  /** The three request headers consulted, as `Headers.get` returns them
      (None for a header the request does not carry). */
  datatype ClientHeaders = ClientHeaders(forwardedFor: Option<string>, realIP: Option<string>, cfConnectingIP: Option<string>)

  const Unknown := "unknown"

  /** `getClientIP`: the first non-empty header in the order x-forwarded-for,
      x-real-ip, cf-connecting-ip; of x-forwarded-for only its first
      comma-separated entry, trimmed; "unknown" when none is non-empty. */
  function GetClientIP(h: ClientHeaders): (r: string)
    ensures Truthy(h.forwardedFor) ==> r == Trim(Split(h.forwardedFor.value, ',')[0])
    ensures !Truthy(h.forwardedFor) && Truthy(h.realIP) ==> r == h.realIP.value
    ensures !Truthy(h.forwardedFor) && !Truthy(h.realIP) && Truthy(h.cfConnectingIP) ==> r == h.cfConnectingIP.value
    ensures !Truthy(h.forwardedFor) && !Truthy(h.realIP) && !Truthy(h.cfConnectingIP) ==> r == Unknown
  {
    if Truthy(h.forwardedFor) then Trim(Split(h.forwardedFor.value, ',')[0])
    else if Truthy(h.realIP) then h.realIP.value
    else if Truthy(h.cfConnectingIP) then h.cfConnectingIP.value
    else Unknown
  }

  /** The identifier never carries a comma or surrounding white space from
      x-forwarded-for, and it is empty only when that header's first entry is
      blank. */
  lemma ClientIPShape(h: ClientHeaders)
    ensures var r := GetClientIP(h);
      && (Truthy(h.forwardedFor) ==> ',' !in r && (r == [] || (!IsWhiteSpace(r[0]) && !IsWhiteSpace(r[|r| - 1]))))
      && (r == "" ==> Truthy(h.forwardedFor) && Trim(Split(h.forwardedFor.value, ',')[0]) == "")
  {
    if Truthy(h.forwardedFor) {
      var first := Split(h.forwardedFor.value, ',')[0];
      var r := Trim(first);
      assert r == first[|first| - |TrimStart(first)|..][..|r|];
    }
  }

  /** Priority is strict: while a higher header is non-empty, the lower ones
      are never consulted. */
  lemma HeaderPriority(h: ClientHeaders, realIP: Option<string>, cfConnectingIP: Option<string>)
    ensures Truthy(h.forwardedFor) ==>
      GetClientIP(ClientHeaders(h.forwardedFor, realIP, cfConnectingIP)) == GetClientIP(h)
    ensures Truthy(h.realIP) ==>
      GetClientIP(ClientHeaders(h.forwardedFor, h.realIP, cfConnectingIP)) == GetClientIP(h)
  {
  }

  const LimitHeader := "X-RateLimit-Limit"
  const RemainingHeader := "X-RateLimit-Remaining"
  const ResetHeader := "X-RateLimit-Reset"

  /** What the limiter answers for one identifier. */
  datatype LimitVerdict = LimitVerdict(success: bool, limit: nat, reset: nat, remaining: nat)

  datatype RateLimitInfo = RateLimitInfo(success: bool, limit: nat, reset: nat, remaining: nat, headers: map<string, string>)

  /** The `headers` literal of `checkRateLimit`: exactly three entries, each
      the decimal rendering of its number. */
  function RateLimitHeaders(limit: nat, remaining: nat, reset: nat): (m: map<string, string>)
    ensures m.Keys == {LimitHeader, RemainingHeader, ResetHeader}
    ensures AllDigits(m[LimitHeader]) && ParseDecimal(m[LimitHeader]) == limit
    ensures AllDigits(m[RemainingHeader]) && ParseDecimal(m[RemainingHeader]) == remaining
    ensures AllDigits(m[ResetHeader]) && ParseDecimal(m[ResetHeader]) == reset
  {
    ParseNatToString(limit);
    ParseNatToString(remaining);
    ParseNatToString(reset);
    map[LimitHeader := NatToString(limit), RemainingHeader := NatToString(remaining), ResetHeader := NatToString(reset)]
  }

  /** `checkRateLimit` once the limiter has answered: the verdict passed
      through, with its headers. */
  function CheckRateLimit(v: LimitVerdict): (r: RateLimitInfo)
    ensures r.success == v.success && r.limit == v.limit && r.reset == v.reset && r.remaining == v.remaining
    ensures r.headers == RateLimitHeaders(v.limit, v.remaining, v.reset)
  {
    RateLimitInfo(v.success, v.limit, v.reset, v.remaining, RateLimitHeaders(v.limit, v.remaining, v.reset))
  }
}
