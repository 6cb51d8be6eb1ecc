/**
 * `is_safe_url` and `redirect_back`: redirect to the first candidate target
 * that stays on this host, or to a default endpoint.
 *
 * URL parsing is abstract: `parse` gives a URL's scheme and network location,
 * `join` resolves a target against the host URL.
 */
module Redirects {
  import opened Wrappers

  /** The two parts of a parsed URL the check looks at. */
  datatype Url = Url(scheme: string, netloc: string)

  /** What `redirect_back` answers: a redirect to a target URL, or to `url_for(endpoint, **args)`. */
  datatype Response = ToUrl(target: string) | ToEndpoint(endpoint: string, args: map<string, string>)

  /** `is_safe_url(target)`: the resolved target is http(s) on the host's own network location. */
  function IsSafeUrl(hostUrl: string, target: string, parse: string -> Url, join: (string, string) -> string): (safe: bool)
    ensures safe <==> parse(join(hostUrl, target)).scheme in {"http", "https"} && parse(join(hostUrl, target)).netloc == parse(hostUrl).netloc
  {
    var refUrl := parse(hostUrl);
    var testUrl := parse(join(hostUrl, target));
    (testUrl.scheme == "http" || testUrl.scheme == "https") && refUrl.netloc == testUrl.netloc
  }

  /** A candidate `redirect_back` takes: present, non-empty and safe. */
  predicate Acceptable(candidate: Option<string>, hostUrl: string, parse: string -> Url, join: (string, string) -> string)
  {
    candidate.Some? && candidate.value != "" && IsSafeUrl(hostUrl, candidate.value, parse, join)
  }

  /**
   * `redirect_back(default, **kwargs)`: tries the `next` query argument and
   * then the referrer, skipping empty ones, and redirects to the first safe
   * one; otherwise to the default endpoint.
   */
  method RedirectBack(next: Option<string>, referrer: Option<string>, hostUrl: string,
                      parse: string -> Url, join: (string, string) -> string,
                      default: string := "main.index", args: map<string, string> := map[])
    returns (r: Response)
    ensures Acceptable(next, hostUrl, parse, join) ==> r == ToUrl(next.value)
    ensures !Acceptable(next, hostUrl, parse, join) && Acceptable(referrer, hostUrl, parse, join) ==> r == ToUrl(referrer.value)
    ensures !Acceptable(next, hostUrl, parse, join) && !Acceptable(referrer, hostUrl, parse, join) ==> r == ToEndpoint(default, args)
    // never an open redirect: any URL answered is non-empty, http(s) and on this host
    ensures r.ToUrl? ==> r.target != "" && parse(join(hostUrl, r.target)).netloc == parse(hostUrl).netloc
    ensures r.ToUrl? ==> parse(join(hostUrl, r.target)).scheme in {"http", "https"}
  {
    var candidates := [next, referrer];
    var i := 0;
    while i < |candidates|
      invariant 0 <= i <= |candidates|
      invariant forall j :: 0 <= j < i ==> !Acceptable(candidates[j], hostUrl, parse, join)
    {
      var target := candidates[i];
      if target.None? || target.value == "" {
        i := i + 1;
        continue;
      }
      if IsSafeUrl(hostUrl, target.value, parse, join) {
        assert i > 0 ==> !Acceptable(candidates[0], hostUrl, parse, join);
        return ToUrl(target.value);
      }
      i := i + 1;
    }
    assert !Acceptable(candidates[0], hostUrl, parse, join) && !Acceptable(candidates[1], hostUrl, parse, join);
    return ToEndpoint(default, args);
  }
}
