/** What `main` does with a parsed lockfile, as a plan: pick the package map
    by lockfile version, keep the dependencies that resolve to a URL, and for
    each decide the URL to download, the cache key to store it under and the
    digest to record. The downloads, the cache writes and the final hash of the
    output directory are effects outside this model. */
module FetchPlan {
  import opened Wrappers
  import opened Strings
  import opened Urls
  import opened Lockfile
  import opened IdealHash
  import opened HostedGit
  import opened Flatten

  /** The key prefix `make-fetch-happen` uses for its HTTP cache entries. */
  const CacheKeyPrefix: string := "make-fetch-happen:request-cache:"

  /** `format!("make-fetch-happen:request-cache:{resolved}")`. */
  function CacheKey(u: Url): (r: string)
    ensures StartsWith(r, CacheKeyPrefix)
    ensures r[|CacheKeyPrefix|..] == Serialize(u)
  {
    var r := CacheKeyPrefix + Serialize(u);
    assert r[..|CacheKeyPrefix|] == CacheKeyPrefix;
    r
  }

  /** The cache key names the URL: two keys agree exactly when the URLs
      serialise alike. */
  lemma CacheKeyNamesUrl(a: Url, b: Url)
    ensures CacheKey(a) == CacheKey(b) <==> Serialize(a) == Serialize(b)
  {
    if CacheKey(a) == CacheKey(b) {
      assert CacheKey(a)[|CacheKeyPrefix|..] == CacheKey(b)[|CacheKeyPrefix|..];
    }
  }

  /** One `cache.put(key, url, data, integrity)`, the data left out. */
  datatype Put = Put(key: string, url: Url, integrity: Option<string>)

  /** The two filters: a non-empty name (the root package of a version 2 or 3
      lockfile has the empty name) and a `resolved` that parsed as a URL. */
  predicate IsFetched(dep: string, p: Package)
  {
    dep != "" && p.resolved.Some? && p.resolved.value.Url?
  }

  datatype JobError =
    | MissingCommit        // `commit.unwrap()` on a GitHub URL with no commit
    | AmbiguousDigest(error: HashError)

  /** The URL actually downloaded: the hosted tarball when there is one. */
  function Target(url: Url): (r: Url)
    requires !MissingGitHubCommit(url)
    ensures GetHostedGitUrl(url).Some? ==> r == GetHostedGitUrl(url).value
    ensures GetHostedGitUrl(url).None? ==> r == url
    ensures !MissingGitHubCommit(r) && GetHostedGitUrl(r).None?
  {
    match GetHostedGitUrl(url)
    case Some(h) =>
      HostedGitUrlIsFixedPoint(url);
      h
    case None => url
  }

  /** The body of the per-dependency closure of `main`. */
  function Job(dep: string, p: Package): (r: Result<Put, JobError>)
    requires IsFetched(dep, p)
    ensures var url := p.resolved.value.url;
      r == Err(MissingCommit) <==> MissingGitHubCommit(url)
    ensures r.Err? && r.error.AmbiguousDigest? ==>
      p.integrity.Some? && GetIdealHash(p.integrity.value) == Err(r.error.error)
    ensures r.Ok? <==>
      var url := p.resolved.value.url;
      !MissingGitHubCommit(url) && (p.integrity.None? || GetIdealHash(p.integrity.value).Ok?)
    ensures r.Ok? ==>
      var url := p.resolved.value.url;
      && r.value.url == Target(url)
      && r.value.key == CacheKey(r.value.url)
      && (p.integrity.None? ==> r.value.integrity.None?)
      && (p.integrity.Some? ==> r.value.integrity == Some(GetIdealHash(p.integrity.value).value))
      && (r.value.integrity.Some? ==> r.value.integrity.value in Tokens(p.integrity.value))
  {
    var url := p.resolved.value.url;
    if MissingGitHubCommit(url) then Err(MissingCommit)
    else
      var target := Target(url);
      match p.integrity
      case None => Ok(Put(CacheKey(target), target, None))
      case Some(i) =>
        match GetIdealHash(i)
        case Err(e) => Err(AmbiguousDigest(e))
        case Ok(h) => Ok(Put(CacheKey(target), target, Some(h)))
  }

  /** The names the filters let through. */
  function FetchedNames(packages: map<string, Package>): (r: set<string>)
    ensures forall dep :: dep in r <==>
      dep in packages && dep != "" && packages[dep].resolved.Some? && packages[dep].resolved.value.Url?
    ensures "" !in r
  {
    set dep | dep in packages && IsFetched(dep, packages[dep])
  }

  /** Every job of the parallel `try_for_each`: all the puts when each job
      succeeds, otherwise the failing names with their errors. */
  function Plan(packages: map<string, Package>): (r: Result<map<string, Put>, map<string, JobError>>)
    ensures r.Ok? <==> forall dep :: dep in FetchedNames(packages) ==> Job(dep, packages[dep]).Ok?
    ensures r.Ok? ==>
      && r.value.Keys == FetchedNames(packages)
      && forall dep :: dep in r.value ==> Job(dep, packages[dep]) == Ok(r.value[dep])
    ensures r.Err? ==>
      && r.error != map[]
      && (forall dep :: dep in r.error <==> dep in FetchedNames(packages) && Job(dep, packages[dep]).Err?)
      && (forall dep :: dep in r.error ==> Job(dep, packages[dep]) == Err(r.error[dep]))
  {
    var names := FetchedNames(packages);
    var failed := map dep | dep in names && Job(dep, packages[dep]).Err? :: Job(dep, packages[dep]).error;
    if failed == map[] then
      assert forall dep :: dep in names && Job(dep, packages[dep]).Err? ==> dep in failed;
      Ok(map dep | dep in names :: Job(dep, packages[dep]).value)
    else
      Err(failed)
  }

  /** Every planned download is a direct link: rewriting it again changes
      nothing, and its key is the cache key of that URL. */
  lemma PlannedUrlsAreFinal(packages: map<string, Package>)
    requires Plan(packages).Ok?
    ensures forall dep :: dep in Plan(packages).value ==>
      var put := Plan(packages).value[dep];
      && !MissingGitHubCommit(put.url)
      && GetHostedGitUrl(put.url).None?
      && put.key == CacheKeyPrefix + Serialize(put.url)
  {
    forall dep | dep in Plan(packages).value
      ensures var put := Plan(packages).value[dep];
        && !MissingGitHubCommit(put.url)
        && GetHostedGitUrl(put.url).None?
        && put.key == CacheKeyPrefix + Serialize(put.url)
    {
      var put := Plan(packages).value[dep];
      assert Job(dep, packages[dep]) == Ok(put);
      var key := CacheKey(put.url);
      assert key == key[..|CacheKeyPrefix|] + key[|CacheKeyPrefix|..];
    }
  }

  datatype MainError =
    | UnsupportedVersion(version: u8)
    | FetchFailed(failed: map<string, JobError>)

  /** A run that returns normally: the cache entries written, and whether
      `package-lock.json` is copied into the output directory. */
  datatype Outcome = Outcome(puts: map<string, Put>, copiesLockfile: bool)

  /** The initial URL has a host, so no shorthand rewrite can fail on it. */
  lemma InitialUrlNeverFails(m: map<string, OldPackage>)
    ensures !TreeFails(m, InitialUrl())
  {
  }

  /** The version dispatch of `main`: version 1 flattens its dependency tree,
      versions 2 and 3 already hold the flat map, anything else is refused. */
  method Packages(lock: PackageLock) returns (r: Result<Option<map<string, Package>>, MainError>)
    ensures lock.version == 1 && lock.dependencies.None? ==> r == Ok(None)
    ensures lock.version == 1 && lock.dependencies.Some? ==>
      r.Ok? && r.value.Some? && IsFlattening(lock.dependencies.value, InitialUrl(), r.value.value)
    ensures lock.version == 2 || lock.version == 3 ==> r == Ok(lock.packages)
    ensures lock.version !in {1, 2, 3} ==> r == Err(UnsupportedVersion(lock.version))
  {
    if lock.version == 1 {
      match lock.dependencies {
        case None =>
          return Ok(None);
        case Some(m) =>
          var flat := ToNewPackages(m, InitialUrl());
          InitialUrlNeverFails(m);
          if flat.Err? {
            assert false;
          }
          return Ok(Some(flat.value));
      }
    } else if lock.version == 2 || lock.version == 3 {
      return Ok(lock.packages);
    } else {
      return Err(UnsupportedVersion(lock.version));
    }
  }

  /** What follows once the package map is known. */
  function Finish(packages: Option<map<string, Package>>): (r: Result<Outcome, MainError>)
    ensures packages.None? ==> r == Ok(Outcome(map[], false))
    ensures packages.Some? ==>
      && (r.Ok? <==> Plan(packages.value).Ok?)
      && (r.Ok? ==> r.value == Outcome(Plan(packages.value).value, true))
      && (r.Err? ==> r == Err(FetchFailed(Plan(packages.value).error)))
  {
    match packages
    case None => Ok(Outcome(map[], false))
    case Some(m) =>
      match Plan(m)
      case Ok(puts) => Ok(Outcome(puts, true))
      case Err(failed) => Err(FetchFailed(failed))
  }

  /** `main` after the lockfile is parsed. */
  method Run(lock: PackageLock) returns (r: Result<Outcome, MainError>)
    ensures lock.version !in {1, 2, 3} ==> r == Err(UnsupportedVersion(lock.version))
    ensures lock.version == 2 || lock.version == 3 ==> r == Finish(lock.packages)
    ensures lock.version == 1 && lock.dependencies.None? ==> r == Ok(Outcome(map[], false))
    ensures lock.version == 1 && lock.dependencies.Some? ==>
      exists flat :: IsFlattening(lock.dependencies.value, InitialUrl(), flat) && r == Finish(Some(flat))
    ensures r.Ok? && r.value.copiesLockfile ==>
      forall dep :: dep in r.value.puts ==> GetHostedGitUrl(r.value.puts[dep].url).None?
  {
    var packages := Packages(lock);
    if packages.Err? {
      return Err(packages.error);
    }
    r := Finish(packages.value);
    if packages.value.Some? && r.Ok? {
      PlannedUrlsAreFinal(packages.value.value);
    }
  }
}
