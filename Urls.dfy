/** An abstract view of the `url` crate's `Url`: the components the prefetcher
    reads or writes, a serialiser for them, and the three setters it calls.
    Parsing is not modelled: a URL is given by its components. */
module Urls {
  import opened Wrappers
  import opened Strings

  /** `userinfo` is the text before `@` in the authority; `host` is `host_str()`;
      `path` is `path()`; `query` and `fragment` are the parts after `?` and `#`. */
  datatype Url = Url(
    scheme: string,
    userinfo: Option<string>,
    host: Option<string>,
    path: string,
    query: Option<string>,
    fragment: Option<string>)

  /** The URL Standard's serialisation, restricted to the modelled components. */
  function Serialize(u: Url): string
  {
    u.scheme + ":"
    + (match u.host
       case None => ""
       case Some(h) => "//" + (match u.userinfo case None => "" case Some(i) => i + "@") + h)
    + u.path
    + (match u.query case None => "" case Some(q) => "?" + q)
    + (match u.fragment case None => "" case Some(f) => "#" + f)
  }

  /** A URL without a host whose path does not start with `/`, such as
      `github:user/repo`: it has no path segments and no host can be set on it. */
  predicate CannotBeABase(u: Url)
  {
    u.host.None? && !StartsWith(u.path, "/")
  }

  /** `path_segments()`: the path after its leading `/`, split on `/`; `None`
      when the path does not start with `/`. */
  function PathSegments(u: Url): (r: Option<seq<string>>)
    ensures r.Some? <==> StartsWith(u.path, "/")
    ensures r.Some? ==> |r.value| >= 1 && Join(r.value, '/') == u.path[1..]
    ensures r.Some? ==> forall i :: 0 <= i < |r.value| ==> '/' !in r.value[i]
  {
    if StartsWith(u.path, "/") then
      JoinSplit(u.path[1..], '/');
      Some(Split(u.path[1..], '/'))
    else None
  }

  datatype UrlError = SetHostOnCannotBeABaseUrl

  /** `set_host(Some(host))`, which fails on a cannot-be-a-base URL. */
  function SetHost(u: Url, host: string): (r: Result<Url, UrlError>)
    ensures r.Err? <==> CannotBeABase(u)
    ensures r.Ok? ==> r.value == u.(host := Some(host))
  {
    if CannotBeABase(u) then Err(SetHostOnCannotBeABaseUrl) else Ok(u.(host := Some(host)))
  }

  /** `set_path(path)`: on a URL that is not cannot-be-a-base, a non-empty
      path gains the leading `/` that a hierarchical path always has. */
  function SetPath(u: Url, path: string): (r: Url)
    ensures r == u.(path := r.path)
    ensures !CannotBeABase(u) && path != "" ==> StartsWith(r.path, "/")
    ensures r.path == path || r.path == "/" + path
  {
    if !CannotBeABase(u) && path != "" && !StartsWith(path, "/") then u.(path := "/" + path)
    else u.(path := path)
  }

  /** `set_fragment(fragment)`. */
  function SetFragment(u: Url, fragment: Option<string>): (r: Url)
    ensures r.fragment == fragment
    ensures r == u.(fragment := r.fragment)
  {
    u.(fragment := fragment)
  }
}
