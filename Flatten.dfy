/** Lockfile version 1 keeps its dependencies as a tree; the prefetcher
    flattens that tree into the `packages` shape of versions 2 and 3, keyed by
    `<name>-<version>`, rewriting the `github:`, `bitbucket:` and `gitlab:`
    shorthands into `git+ssh` URLs on the way. */
module Flatten {
  import opened Wrappers
  import opened Strings
  import opened Urls
  import opened Lockfile

  /** `get_initial_url()`: the parse of `git+ssh://git@a.b`, the template every
      rewritten shorthand starts from. */
  function InitialUrl(): (r: Url)
    ensures Serialize(r) == "git+ssh://git@a.b"
    ensures !CannotBeABase(r)
  {
    Urls.Url("git+ssh", Some("git"), Some("a.b"), "", None, None)
  }

  /** The shorthand schemes and the host each stands for. */
  function ShorthandHost(scheme: string): (r: Option<string>)
    ensures r.Some? <==> scheme in {"github", "bitbucket", "gitlab"}
    ensures scheme == "github" ==> r == Some("github.com")
    ensures scheme == "bitbucket" ==> r == Some("bitbucket.org")
    ensures scheme == "gitlab" ==> r == Some("gitlab.com")
  {
    if scheme == "github" then Some("github.com")
    else if scheme == "bitbucket" then Some("bitbucket.org")
    else if scheme == "gitlab" then Some("gitlab.com")
    else None
  }

  /** `path` without one leading `/`. */
  function DropSlash(path: string): string
  {
    if StartsWith(path, "/") then path[1..] else path
  }

  /** The version rewrite of `to_new_packages`: a shorthand URL becomes the
      initial URL with the provider's host, the shorthand's path (given a
      `.git` ending) and its fragment; every other version is kept. */
  function RewriteVersion(version: UrlOrString, initial: Url): (r: Result<UrlOrString, UrlError>)
    ensures r.Err? <==> version.Url? && ShorthandHost(version.url.scheme).Some? && CannotBeABase(initial)
    ensures (version.String? || ShorthandHost(version.url.scheme).None?) ==> r == Ok(version)
    ensures (r.Ok? && version.Url? && ShorthandHost(version.url.scheme).Some?) ==>
      var v := version.url;
      && r.value.Url?
      && r.value.url == initial.(host := ShorthandHost(v.scheme), path := r.value.url.path, fragment := v.fragment)
      && r.value.url.path == "/" + DropSlash(StripGitSuffix(v.path)) + ".git"
  {
    match version
    case String(_) => Ok(version)
    case Url(v) =>
      match ShorthandHost(v.scheme)
      case None => Ok(version)
      case Some(host) =>
        match SetHost(initial, host)
        case Err(e) => Err(e)
        case Ok(withHost) =>
          var path := if EndsWith(v.path, ".git") then v.path else v.path + ".git";
          GitPath(v.path);
          Ok(UrlOrString.Url(SetFragment(SetPath(withHost, path), v.fragment)))
  }

  /** The path handed to `set_path` gains at most a leading `/`, which is what
      the rewrite's contract says in terms of the bare path. */
  lemma GitPath(p: string)
    ensures var path := if EndsWith(p, ".git") then p else p + ".git";
      && path != ""
      && (if StartsWith(path, "/") then path else "/" + path) == "/" + DropSlash(StripGitSuffix(p)) + ".git"
  {
    var path := if EndsWith(p, ".git") then p else p + ".git";
    var bare := StripGitSuffix(p);
    assert path == bare + ".git";
    if StartsWith(bare, "/") {
      assert path[..1] == bare[..1];
      assert bare == "/" + bare[1..];
    } else if bare == "" {
      assert path == ".git";
      assert path[0] != '/';
      assert DropSlash(bare) == "";
    } else {
      assert path[..1] == bare[..1];
    }
  }

  /** The entry one lockfile-v1 node contributes: the key `<name>-<version>`
      over the rewritten version, `resolved` replaced by that version when it is
      a URL, and the integrity kept. */
  function Entry(name: string, p: OldPackage, initial: Url): (r: Result<(string, Package), UrlError>)
    ensures r.Err? <==> RewriteVersion(p.version, initial).Err?
    ensures r.Ok? ==>
      var v := RewriteVersion(p.version, initial).value;
      && r.value.0 == name + "-" + Display(v)
      && r.value.1.integrity == p.integrity
      && (v.Url? ==> r.value.1.resolved == Some(v))
      && (v.String? ==> r.value.1.resolved == p.resolved)
  {
    match RewriteVersion(p.version, initial)
    case Err(e) => Err(e)
    case Ok(v) => Ok((name + "-" + Display(v), Package(if v.Url? then Some(v) else p.resolved, p.integrity)))
  }

  /** `q`, under the name `name`, is a node somewhere below `p`. */
  ghost predicate InNode(p: OldPackage, name: string, q: OldPackage)
    decreases p
  {
    exists k :: k in p.dependencies && ((k == name && p.dependencies[k] == q) || InNode(p.dependencies[k], name, q))
  }

  /** The node that holds a whole tree. */
  function Root(m: map<string, OldPackage>): OldPackage
  {
    OldPackage(UrlOrString.String(""), None, None, m)
  }

  /** `q`, under the name `name`, is a node of the tree `m`. */
  ghost predicate InTree(m: map<string, OldPackage>, name: string, q: OldPackage)
  {
    InNode(Root(m), name, q)
  }

  /** `q` sits in the tree of one of the top-level names in `keys`. */
  ghost predicate InForest(m: map<string, OldPackage>, keys: set<string>, name: string, q: OldPackage)
  {
    exists k :: k in keys && k in m && ((k == name && m[k] == q) || InTree(m[k].dependencies, name, q))
  }

  /** Some node of the tree cannot be rewritten. */
  ghost predicate TreeFails(m: map<string, OldPackage>, initial: Url)
  {
    exists name, q :: InTree(m, name, q) && Entry(name, q, initial).Err?
  }

  /** Every node's entry key is in `out` ... */
  ghost predicate Covers(m: map<string, OldPackage>, keys: set<string>, initial: Url, out: map<string, Package>)
  {
    forall name, q :: InForest(m, keys, name, q) ==>
      Entry(name, q, initial).Ok? && Entry(name, q, initial).value.0 in out
  }

  /** ... and every entry of `out` is the entry of some node. */
  ghost predicate Sound(m: map<string, OldPackage>, keys: set<string>, initial: Url, out: map<string, Package>)
  {
    forall key :: key in out ==>
      exists name, q :: InForest(m, keys, name, q) && Entry(name, q, initial) == Ok((key, out[key]))
  }

  /** `out` flattens the tree `m`: it holds exactly the nodes' entry keys, each
      with the entry of a node of that key. Which of several nodes sharing a key
      wins depends on the hash map's iteration order and is left open. */
  ghost predicate IsFlattening(m: map<string, OldPackage>, initial: Url, out: map<string, Package>)
  {
    Covers(m, m.Keys, initial, out) && Sound(m, m.Keys, initial, out)
  }

  lemma InNodeOfRoot(p: OldPackage, name: string, q: OldPackage)
    ensures InNode(p, name, q) == InTree(p.dependencies, name, q)
  {
  }

  /** The tree is the forest of all its top-level names. */
  lemma InTreeIsForest(m: map<string, OldPackage>, name: string, q: OldPackage)
    ensures InTree(m, name, q) <==> InForest(m, m.Keys, name, q)
  {
    if InTree(m, name, q) {
      var k :| k in m && ((k == name && m[k] == q) || InNode(m[k], name, q));
      InNodeOfRoot(m[k], name, q);
    }
    if InForest(m, m.Keys, name, q) {
      var k :| k in m && ((k == name && m[k] == q) || InTree(m[k].dependencies, name, q));
      InNodeOfRoot(m[k], name, q);
      assert Root(m).dependencies[k] == m[k];
    }
  }

  /** Adding the top-level name `k` to the forest adds its node and its subtree. */
  lemma InForestAdd(m: map<string, OldPackage>, keys: set<string>, k: string, name: string, q: OldPackage)
    requires k in m
    ensures InForest(m, keys + {k}, name, q) <==>
      (InForest(m, keys, name, q) || (k == name && m[k] == q) || InTree(m[k].dependencies, name, q))
  {
  }

  /** A trace of the flattening loop: `Covers` and `Sound` over the names done
      so far survive inserting one more name's entry and its subtree's map. */
  lemma StepKeepsInvariant(m: map<string, OldPackage>, done: set<string>, k: string, initial: Url,
                           out: map<string, Package>, entry: (string, Package), sub: map<string, Package>)
    requires k in m
    requires Covers(m, done, initial, out) && Sound(m, done, initial, out)
    requires Entry(k, m[k], initial) == Ok(entry)
    requires IsFlattening(m[k].dependencies, initial, sub)
    ensures Covers(m, done + {k}, initial, out[entry.0 := entry.1] + sub)
    ensures Sound(m, done + {k}, initial, out[entry.0 := entry.1] + sub)
  {
    var out' := out[entry.0 := entry.1] + sub;
    forall name, q | InForest(m, done + {k}, name, q)
      ensures Entry(name, q, initial).Ok? && Entry(name, q, initial).value.0 in out'
    {
      InForestAdd(m, done, k, name, q);
      if InTree(m[k].dependencies, name, q) {
        InTreeIsForest(m[k].dependencies, name, q);
      }
    }
    forall key | key in out'
      ensures exists name, q :: InForest(m, done + {k}, name, q) && Entry(name, q, initial) == Ok((key, out'[key]))
    {
      if key in sub {
        var name, q :| InForest(m[k].dependencies, m[k].dependencies.Keys, name, q)
                       && Entry(name, q, initial) == Ok((key, sub[key]));
        InTreeIsForest(m[k].dependencies, name, q);
        InForestAdd(m, done, k, name, q);
      } else if key == entry.0 {
        InForestAdd(m, done, k, k, m[k]);
      } else {
        var name, q :| InForest(m, done, name, q) && Entry(name, q, initial) == Ok((key, out[key]));
        InForestAdd(m, done, k, name, q);
      }
    }
  }

  /** A failing node of a subtree is a failing node of the whole tree. */
  lemma SubtreeFails(m: map<string, OldPackage>, k: string, initial: Url)
    requires k in m && TreeFails(m[k].dependencies, initial)
    ensures TreeFails(m, initial)
  {
    var name, q :| InTree(m[k].dependencies, name, q) && Entry(name, q, initial).Err?;
    InForestAdd(m, {}, k, name, q);
    InTreeIsForest(m, name, q);
  }

  /** A top-level node that fails is a failing node of the tree. */
  lemma TopFails(m: map<string, OldPackage>, k: string, initial: Url)
    requires k in m && Entry(k, m[k], initial).Err?
    ensures TreeFails(m, initial)
  {
    InForestAdd(m, {}, k, k, m[k]);
    InTreeIsForest(m, k, m[k]);
  }

  /** Once every top-level name is done, the loop's invariant is the contract. */
  lemma DoneIsFlattening(m: map<string, OldPackage>, initial: Url, out: map<string, Package>)
    requires Covers(m, m.Keys, initial, out) && Sound(m, m.Keys, initial, out)
    ensures IsFlattening(m, initial, out) && !TreeFails(m, initial)
  {
    if TreeFails(m, initial) {
      var name, q :| InTree(m, name, q) && Entry(name, q, initial).Err?;
      InTreeIsForest(m, name, q);
      assert false;
    }
  }

  /** The largest of a finite set of naturals (0 for the empty set). */
  ghost function Max(s: set<nat>): (r: nat)
    ensures forall x :: x in s ==> x <= r
    ensures s != {} ==> r in s
  {
    if s == {} then 0
    else
      var x :| x in s;
      var r' := Max(s - {x});
      assert forall y :: y in s ==> y == x || y in s - {x};
      if x < r' then r' else x
  }

  /** The depth of the tree below a node, the measure the recursion descends. */
  ghost function Height(p: OldPackage): nat
    decreases p
  {
    1 + Max(set k | k in p.dependencies :: Height(p.dependencies[k]))
  }

  ghost function MapHeight(m: map<string, OldPackage>): nat
  {
    Max(set k | k in m :: Height(m[k]))
  }

  lemma ChildLower(m: map<string, OldPackage>, k: string)
    requires k in m
    ensures MapHeight(m[k].dependencies) < MapHeight(m)
  {
    var n := m[k];
    assert Height(n) == 1 + MapHeight(n.dependencies);
    var hs := set j | j in m :: Height(m[j]);
    assert MapHeight(m) == Max(hs);
    assert Height(n) in hs;
  }

  /** `to_new_packages`: visits the top-level names in some order, inserting
      each node's entry and then the flattening of its subtree, and fails as
      soon as a version cannot be rewritten. */
  method ToNewPackages(oldPackages: map<string, OldPackage>, initialUrl: Url)
    returns (r: Result<map<string, Package>, UrlError>)
    ensures r.Err? <==> TreeFails(oldPackages, initialUrl)
    ensures r.Ok? ==> IsFlattening(oldPackages, initialUrl, r.value)
    decreases MapHeight(oldPackages)
  {
    var out: map<string, Package> := map[];
    var rest := oldPackages.Keys;
    while rest != {}
      invariant rest <= oldPackages.Keys
      invariant Covers(oldPackages, oldPackages.Keys - rest, initialUrl, out)
      invariant Sound(oldPackages, oldPackages.Keys - rest, initialUrl, out)
      decreases rest
    {
      var name :| name in rest;
      var package := oldPackages[name];
      var entry := Entry(name, package, initialUrl);
      if entry.Err? {
        TopFails(oldPackages, name, initialUrl);
        return Err(entry.error);
      }
      ghost var before := out;
      out := out[entry.value.0 := entry.value.1];
      ChildLower(oldPackages, name);
      var sub := ToNewPackages(package.dependencies, initialUrl);
      if sub.Err? {
        SubtreeFails(oldPackages, name, initialUrl);
        return Err(sub.error);
      }
      StepKeepsInvariant(oldPackages, oldPackages.Keys - rest, name, initialUrl,
                         before, entry.value, sub.value);
      out := out + sub.value;
      rest := rest - {name};
    }
    DoneIsFlattening(oldPackages, initialUrl, out);
    return Ok(out);
  }
}

/** The flattening of the `git_shorthand_v1` test of `to_new_packages`, for any user,
    project and commit, and what the prefetcher then makes of its URL. */
module FlattenExamples {
  import opened Wrappers
  import opened Strings
  import opened Urls
  import opened Lockfile
  import opened Flatten
  import HostedGit
  import HostedGitExamples

  lemma SlashNearEnd(user: string, project: string)
    requires |project| < 4 && |user| + 1 + |project| >= 4
    ensures var s := user + "/" + project; '/' in s[|s| - 4..]
  {
    var s := user + "/" + project;
    assert s[|user|] == '/';
    assert s[|s| - 4..][|user| - (|s| - 4)] == s[|user|];
  }

  /** A `.git` ending that lies after the last `/` lies in the last segment. */
  lemma GitEndingInLastSegment(user: string, project: string)
    requires '/' !in project
    requires EndsWith(user + "/" + project, ".git")
    ensures EndsWith(project, ".git")
  {
    var s := user + "/" + project;
    assert s[|s| - 4..] == ".git";
    if |project| < 4 {
      SlashNearEnd(user, project);
    } else {
      assert s[|s| - 4..] == project[|project| - 4..];
    }
  }

  /** The shorthand's path is left as it is apart from the `.git` and the leading `/`. */
  lemma ShorthandPath(user: string, project: string)
    requires user != "" && '/' !in user && '/' !in project && !EndsWith(project, ".git")
    ensures "/" + DropSlash(StripGitSuffix(user + "/" + project)) + ".git" == "/" + user + "/" + project + ".git"
  {
    var p := user + "/" + project;
    if EndsWith(p, ".git") {
      GitEndingInLastSegment(user, project);
    }
    assert p[0] == user[0];
    assert DropSlash(StripGitSuffix(p)) == p;
  }

  /** The shorthand `github:<user>/<project>#<commit>` as `Url::parse` sees it:
      no host, and a path without a leading `/`. */
  function GitHubShorthand(user: string, project: string, commit: string): Url
  {
    Urls.Url("github", None, None, user + "/" + project, None, Some(commit))
  }

  /** What the shorthand is rewritten to: `git+ssh://git@github.com/<user>/<project>.git#<commit>`. */
  function SshUrl(user: string, project: string, commit: string): Url
  {
    Urls.Url("git+ssh", Some("git"), Some("github.com"), "/" + user + "/" + project + ".git", None, Some(commit))
  }

  lemma ShorthandRewrite(user: string, project: string, commit: string)
    requires user != "" && '/' !in user && '/' !in project && !EndsWith(project, ".git")
    ensures RewriteVersion(UrlOrString.Url(GitHubShorthand(user, project, commit)), InitialUrl())
            == Ok(UrlOrString.Url(SshUrl(user, project, commit)))
  {
    ShorthandPath(user, project);
  }

  lemma SshUrlText(user: string, project: string, commit: string)
    ensures Serialize(SshUrl(user, project, commit))
            == "git+ssh://git@github.com/" + user + "/" + project + ".git#" + commit
  {
  }

  /** One top-level `github:` dependency flattens to exactly one package whose
      `resolved` is the rewritten `git+ssh` URL and whose integrity is absent. */
  lemma GitShorthandV1(name: string, user: string, project: string, commit: string)
    requires user != "" && '/' !in user && '/' !in project && !EndsWith(project, ".git")
    ensures var m := map[name := OldPackage(UrlOrString.Url(GitHubShorthand(user, project, commit)), None, None, map[])];
      && !TreeFails(m, InitialUrl())
      && forall out :: IsFlattening(m, InitialUrl(), out) ==>
           && |out| == 1
           && out.Values == {Package(Some(UrlOrString.Url(SshUrl(user, project, commit))), None)}
  {
    var m := map[name := OldPackage(UrlOrString.Url(GitHubShorthand(user, project, commit)), None, None, map[])];
    ShorthandRewrite(user, project, commit);
    var e := Entry(name, m[name], InitialUrl());
    var pkg := Package(Some(UrlOrString.Url(SshUrl(user, project, commit))), None);
    assert e.Ok? && e.value.1 == pkg;
    forall n, q | InTree(m, n, q)
      ensures n == name && q == m[name]
    {
      InTreeIsForest(m, n, q);
      var k :| k in m && ((k == n && m[k] == q) || InTree(m[k].dependencies, n, q));
      assert !InTree(map[], n, q);
    }
    forall out | IsFlattening(m, InitialUrl(), out)
      ensures |out| == 1 && out.Values == {pkg}
    {
      InTreeIsForest(m, name, m[name]);
      assert e.value.0 in out;
      forall key | key in out
        ensures key == e.value.0 && out[key] == pkg
      {
        var n, q :| InForest(m, m.Keys, n, q) && Entry(n, q, InitialUrl()) == Ok((key, out[key]));
        InTreeIsForest(m, n, q);
      }
      assert out == map[e.value.0 := pkg];
    }
  }

  /** The rewritten shorthand is a GitHub URL the prefetcher turns into the
      codeload tarball of that commit. */
  lemma ShorthandFetchesTarball(user: string, project: string, commit: string)
    requires user != "" && '/' !in user && '/' !in project && !EndsWith(project, ".git")
    ensures !HostedGit.MissingGitHubCommit(SshUrl(user, project, commit))
    ensures HostedGit.GetHostedGitUrl(SshUrl(user, project, commit))
            == Some(HostedGit.TarballUrl("github.com", user, project, commit))
  {
    HostedGitExamples.GitHubSshExample(user, project, commit);
  }
}
