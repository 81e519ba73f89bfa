/** Rewriting a dependency URL that points at a git hosting service into the
    URL of a tarball of one commit (`get_hosted_git_url`). */
module HostedGit {
  import opened Wrappers
  import opened Strings
  import opened Urls

  const HostedSchemes: set<string> := {"git", "http", "git+ssh", "git+https", "ssh", "https"}

  const Providers: set<string> := {"github.com", "bitbucket.org", "gitlab.com", "git.sr.ht"}

  /** The tarball URL each provider serves for `user/project` at `commit`. */
  function TarballUrl(host: string, user: string, project: string, commit: string): (r: Url)
    requires host in Providers
    ensures r.scheme == "https" && r.userinfo.None? && r.fragment.None?
    ensures r.host == Some(if host == "github.com" then "codeload.github.com" else host)
    ensures r.query.Some? <==> host == "gitlab.com"
    ensures host == "gitlab.com" ==> r.query == Some("ref=" + commit)
    ensures host == "github.com" ==> r.path == "/" + user + "/" + project + "/tar.gz/" + commit
    ensures host == "bitbucket.org" ==> r.path == "/" + user + "/" + project + "/get/" + commit + ".tar.gz"
    ensures host == "gitlab.com" ==> r.path == "/" + user + "/" + project + "/repository/archive.tar.gz"
    ensures host == "git.sr.ht" ==> r.path == "/" + user + "/" + project + "/archive/" + commit + ".tar.gz"
  {
    if host == "github.com" then
      Url("https", None, Some("codeload.github.com"),
          "/" + user + "/" + project + "/tar.gz/" + commit, None, None)
    else if host == "bitbucket.org" then
      Url("https", None, Some("bitbucket.org"),
          "/" + user + "/" + project + "/get/" + commit + ".tar.gz", None, None)
    else if host == "gitlab.com" then
      Url("https", None, Some("gitlab.com"),
          "/" + user + "/" + project + "/repository/archive.tar.gz", Some("ref=" + commit), None)
    else
      Url("https", None, Some("git.sr.ht"),
          "/" + user + "/" + project + "/archive/" + commit + ".tar.gz", None, None)
  }

  lemma SerializeHttps(host: string, path: string, query: Option<string>)
    ensures Serialize(Url("https", None, Some(host), path, query, None))
            == "https://" + host + path + (if query.Some? then "?" + query.value else "")
  {
    var u := Url("https", None, Some(host), path, query, None);
    var q := if query.Some? then "?" + query.value else "";
    assert Serialize(u) == "https" + ":" + ("//" + "" + host) + path + q + "";
    assert "https" + ":" + ("//" + "" + host) == "https://" + host;
  }

  /** The record stands for the very text `get_hosted_git_url` formats and parses. */
  lemma TarballUrlText(host: string, user: string, project: string, commit: string)
    requires host in Providers
    ensures host == "github.com" ==>
              Serialize(TarballUrl(host, user, project, commit))
              == "https://codeload.github.com/" + user + "/" + project + "/tar.gz/" + commit
    ensures host == "bitbucket.org" ==>
              Serialize(TarballUrl(host, user, project, commit))
              == "https://bitbucket.org/" + user + "/" + project + "/get/" + commit + ".tar.gz"
    ensures host == "gitlab.com" ==>
              Serialize(TarballUrl(host, user, project, commit))
              == "https://gitlab.com/" + user + "/" + project + "/repository/archive.tar.gz?ref=" + commit
    ensures host == "git.sr.ht" ==>
              Serialize(TarballUrl(host, user, project, commit))
              == "https://git.sr.ht/" + user + "/" + project + "/archive/" + commit + ".tar.gz"
  {
    var t := TarballUrl(host, user, project, commit);
    SerializeHttps(t.host.value, t.path, t.query);
    if host == "github.com" {
      GitHubText(user, project, commit);
    } else if host == "bitbucket.org" {
      BitbucketText(user, project, commit);
    } else if host == "gitlab.com" {
      GitLabText(user, project, commit);
    } else {
      SourcehutText(user, project, commit);
    }
  }

  /** The four format strings, regrouped as the serialiser builds them. */
  lemma GitHubText(user: string, project: string, commit: string)
    ensures "https://" + "codeload.github.com" + ("/" + user + "/" + project + "/tar.gz/" + commit)
            == "https://codeload.github.com/" + user + "/" + project + "/tar.gz/" + commit
  {
  }

  lemma BitbucketText(user: string, project: string, commit: string)
    ensures "https://" + "bitbucket.org" + ("/" + user + "/" + project + "/get/" + commit + ".tar.gz")
            == "https://bitbucket.org/" + user + "/" + project + "/get/" + commit + ".tar.gz"
  {
  }

  lemma GitLabText(user: string, project: string, commit: string)
    ensures "https://" + "gitlab.com" + ("/" + user + "/" + project + "/repository/archive.tar.gz")
            + "?" + ("ref=" + commit)
            == "https://gitlab.com/" + user + "/" + project + "/repository/archive.tar.gz?ref=" + commit
  {
  }

  lemma SourcehutText(user: string, project: string, commit: string)
    ensures "https://" + "git.sr.ht" + ("/" + user + "/" + project + "/archive/" + commit + ".tar.gz")
            == "https://git.sr.ht/" + user + "/" + project + "/archive/" + commit + ".tar.gz"
  {
  }

  /** The commit of a GitHub URL: the fragment of `/user/project`, the fourth
      segment of `/user/project/tree/<commit>`. */
  function GitHubCommit(url: Url, segs: seq<string>): Option<string>
    requires |segs| >= 2
  {
    if |segs| == 2 then url.fragment else if |segs| >= 4 then Some(segs[3]) else None
  }

  /** The GitHub URLs on which `commit.unwrap()` in `get_hosted_git_url` panics: no
      fragment on `/user/project`, or nothing after `/user/project/tree`. */
  predicate MissingGitHubCommit(url: Url)
  {
    && url.scheme in HostedSchemes
    && url.host == Some("github.com")
    && PathSegments(url).Some?
    && var segs := PathSegments(url).value;
       |segs| >= 2 && (|segs| == 2 || segs[2] == "tree") && GitHubCommit(url, segs).None?
  }

  /** The per-provider shapes that are already direct links and are left alone. */
  predicate Skipped(host: string, path: string, segs: seq<string>)
    requires StartsWith(path, "/")
  {
    || (host == "github.com" && |segs| >= 3 && segs[2] != "tree")
    || (host == "bitbucket.org" && |segs| >= 3 && segs[2] == "get")
    || (host == "gitlab.com" && (Contains(path[1..], "/~/") || Contains(path[1..], "/archive.tar.gz")))
    || (host == "git.sr.ht" && |segs| >= 3 && segs[2] == "archive")
  }

  function GetHostedGitUrl(url: Url): (r: Option<Url>)
    requires !MissingGitHubCommit(url)
    ensures url.scheme !in HostedSchemes ==> r.None?
    ensures url.host.None? || url.host.value !in Providers ==> r.None?
    ensures PathSegments(url).None? ==> r.None?
    ensures (PathSegments(url).Some? && url.host.Some?
             && Skipped(url.host.value, url.path, PathSegments(url).value)) ==> r.None?
    ensures r.Some? <==>
      && url.scheme in HostedSchemes
      && url.host.Some? && url.host.value in Providers
      && PathSegments(url).Some?
      && |PathSegments(url).value| >= 2
      && !Skipped(url.host.value, url.path, PathSegments(url).value)
      && (url.host.value == "github.com" || url.fragment.Some?)
    ensures r.Some? ==>
      var segs := PathSegments(url).value;
      var commit := if url.host.value == "github.com" && |segs| >= 4 then segs[3] else url.fragment.value;
      r.value == TarballUrl(url.host.value, segs[0], StripGitSuffix(segs[1]), commit)
  {
    if url.scheme !in HostedSchemes then None
    else
      match PathSegments(url)
      case None => None
      case Some(segs) =>
        match url.host
        case None => None
        case Some(host) =>
          if host == "github.com" then
            if |segs| < 2 then None
            else if |segs| >= 3 && segs[2] != "tree" then None
            else Some(TarballUrl(host, segs[0], StripGitSuffix(segs[1]), GitHubCommit(url, segs).value))
          else if host == "bitbucket.org" then
            if |segs| < 2 then None
            else if |segs| >= 3 && segs[2] == "get" then None
            else if url.fragment.None? then None
            else Some(TarballUrl(host, segs[0], StripGitSuffix(segs[1]), url.fragment.value))
          else if host == "gitlab.com" then
            var path := url.path[1..];
            if Contains(path, "/~/") || Contains(path, "/archive.tar.gz") then None
            else if |segs| < 2 then None
            else if url.fragment.None? then None
            else Some(TarballUrl(host, segs[0], StripGitSuffix(segs[1]), url.fragment.value))
          else if host == "git.sr.ht" then
            if |segs| < 2 then None
            else if |segs| >= 3 && segs[2] == "archive" then None
            else if url.fragment.None? then None
            else Some(TarballUrl(host, segs[0], StripGitSuffix(segs[1]), url.fragment.value))
          else None
  }

  lemma {:induction false} SplitThree(a: string, b: string, c: string, rest: string)
    requires '/' !in a && '/' !in b && '/' !in c
    ensures var segs := Split(a + ['/'] + (b + ['/'] + (c + ['/'] + rest)), '/');
      |segs| >= 3 && segs[0] == a && segs[1] == b && segs[2] == c
  {
    var r3 := c + ['/'] + rest;
    var r2 := b + ['/'] + r3;
    SplitCons(c, '/', rest);
    SplitCons(b, '/', r3);
    SplitCons(a, '/', r2);
  }

  /** `/user/project/<word>/<rest>` written out with its separators. */
  lemma PathOfWords(user: string, project: string, word: string, rest: string)
    ensures ("/" + user + "/" + project + "/" + word + "/" + rest)[1..]
            == user + ['/'] + (project + ['/'] + (word + ['/'] + rest))
  {
  }

  /** A path `/<user>/<project>/<word>/<rest>` has `word` as its third segment. */
  lemma ThirdSegment(path: string, user: string, project: string, word: string, rest: string)
    requires '/' !in user && '/' !in project && '/' !in word
    requires path == "/" + user + "/" + project + "/" + word + "/" + rest
    ensures StartsWith(path, "/")
    ensures var segs := Split(path[1..], '/'); |segs| >= 3 && segs[2] == word
  {
    PathOfWords(user, project, word, rest);
    SplitThree(user, project, word, rest);
  }

  /** The Bitbucket and sourcehut tarball paths carry the very third segment
      (`get`, `archive`) that makes the rewrite leave them alone. */
  lemma TarballSkipped(host: string, word: string, user: string, project: string, commit: string)
    requires (host == "bitbucket.org" && word == "get") || (host == "git.sr.ht" && word == "archive")
    requires '/' !in user && '/' !in project
    ensures var t := TarballUrl(host, user, project, commit);
      StartsWith(t.path, "/") && var segs := Split(t.path[1..], '/'); |segs| >= 3 && segs[2] == word
  {
    var t := TarballUrl(host, user, project, commit);
    var rest := commit + ".tar.gz";
    if host == "bitbucket.org" {
      assert t.path == "/" + user + "/" + project + "/get/" + rest;
      assert "/get/" == "/" + "get" + "/";
      ThirdSegment(t.path, user, project, "get", rest);
    } else {
      assert t.path == "/" + user + "/" + project + "/archive/" + rest;
      assert "/archive/" == "/" + "archive" + "/";
      ThirdSegment(t.path, user, project, "archive", rest);
    }
  }

  lemma GitLabTarballSkipped(user: string, project: string, commit: string)
    ensures var t := TarballUrl("gitlab.com", user, project, commit);
      StartsWith(t.path, "/") && Contains(t.path[1..], "/archive.tar.gz")
  {
    var path := TarballUrl("gitlab.com", user, project, commit).path;
    var head := user + "/" + project + "/repository";
    var tail := head + "/archive.tar.gz";
    assert path == ['/'] + tail;
    assert path[1..] == tail;
    assert tail[|head|..] == "/archive.tar.gz";
    assert StartsWith(tail[|head|..], "/archive.tar.gz");
  }

  /** Every rewritten URL is one of the shapes the rewrite leaves alone, so
      rewriting is idempotent: a tarball URL is fetched as it is. */
  lemma HostedGitUrlIsFixedPoint(url: Url)
    requires !MissingGitHubCommit(url)
    requires GetHostedGitUrl(url).Some?
    ensures !MissingGitHubCommit(GetHostedGitUrl(url).value)
    ensures GetHostedGitUrl(GetHostedGitUrl(url).value).None?
  {
    var t := GetHostedGitUrl(url).value;
    var segs := PathSegments(url).value;
    var host := url.host.value;
    var user, project := segs[0], StripGitSuffix(segs[1]);
    assert '/' !in user && '/' !in segs[1];
    assert '/' !in project;
    var commit := if host == "github.com" && |segs| >= 4 then segs[3] else url.fragment.value;
    assert t == TarballUrl(host, user, project, commit);
    if host == "bitbucket.org" {
      TarballSkipped(host, "get", user, project, commit);
      assert Skipped(t.host.value, t.path, PathSegments(t).value);
    } else if host == "gitlab.com" {
      GitLabTarballSkipped(user, project, commit);
    } else if host == "git.sr.ht" {
      TarballSkipped(host, "archive", user, project, commit);
      assert Skipped(t.host.value, t.path, PathSegments(t).value);
    }
  }
}

/** The shapes the tests of `get_hosted_git_url` pin down, stated for any user, project
    and commit rather than the tests' particular strings. */
module HostedGitExamples {
  import opened Wrappers
  import opened Strings
  import opened Urls
  import opened HostedGit

  lemma SplitTwo(a: string, b: string)
    requires '/' !in a && '/' !in b
    ensures Split(a + ['/'] + b, '/') == [a, b]
  {
    SplitCons(a, '/', b);
    assert Split(b, '/') == [b];
  }

  lemma TwoSegments(url: Url, user: string, project: string)
    requires '/' !in user && '/' !in project
    requires url.path == "/" + user + "/" + project
    ensures PathSegments(url) == Some([user, project])
  {
    assert url.path == ['/'] + (user + ['/'] + project);
    assert url.path[1..] == user + ['/'] + project;
    SplitTwo(user, project);
  }

  lemma StripAddedGit(project: string)
    ensures StripGitSuffix(project + ".git") == project
  {
  }

  /** A two-segment GitHub path takes its commit from the fragment. */
  lemma GitHubFromFragment(u: Url, user: string, seg: string)
    requires u.scheme in HostedSchemes && u.host == Some("github.com") && u.fragment.Some?
    requires '/' !in user && '/' !in seg && u.path == "/" + user + "/" + seg
    ensures !MissingGitHubCommit(u)
    ensures GetHostedGitUrl(u) == Some(TarballUrl("github.com", user, StripGitSuffix(seg), u.fragment.value))
  {
    TwoSegments(u, user, seg);
  }

  /** `git+ssh://git@github.com/castlabs/electron-releases.git#<sha>`: the
      `.git` goes and the fragment is the commit. */
  lemma GitHubSshExample(user: string, project: string, commit: string)
    requires '/' !in user && '/' !in project
    ensures var u := Url("git+ssh", Some("git"), Some("github.com"), "/" + user + "/" + project + ".git",
                         None, Some(commit));
      && !MissingGitHubCommit(u)
      && GetHostedGitUrl(u) == Some(TarballUrl("github.com", user, project, commit))
      && Serialize(GetHostedGitUrl(u).value)
         == "https://codeload.github.com/" + user + "/" + project + "/tar.gz/" + commit
  {
    var u := Url("git+ssh", Some("git"), Some("github.com"), "/" + user + "/" + project + ".git",
                 None, Some(commit));
    var seg := project + ".git";
    assert u.path == "/" + user + "/" + seg;
    GitHubFromFragment(u, user, seg);
    StripAddedGit(project);
    TarballUrlText("github.com", user, project, commit);
  }

  /** `https://user@github.com/foo/bar#fix/bug`: the commit is the whole
      fragment, slashes included. */
  lemma GitHubHttpsExample(info: string, user: string, project: string, commit: string)
    requires '/' !in user && '/' !in project && !EndsWith(project, ".git")
    ensures var u := Url("https", Some(info), Some("github.com"), "/" + user + "/" + project,
                         None, Some(commit));
      && !MissingGitHubCommit(u)
      && GetHostedGitUrl(u) == Some(TarballUrl("github.com", user, project, commit))
  {
    var u := Url("https", Some(info), Some("github.com"), "/" + user + "/" + project, None, Some(commit));
    GitHubFromFragment(u, user, project);
  }

  /** A third segment other than `tree`, as in
      `https://github.com/eligrey/classList.js/archive/1.2.20180112.tar.gz`,
      is a direct link and is left alone. */
  lemma GitHubArchiveExample(user: string, project: string, rest: string)
    requires '/' !in user && '/' !in project
    ensures var u := Url("https", None, Some("github.com"), "/" + user + "/" + project + "/archive/" + rest,
                         None, None);
      !MissingGitHubCommit(u) && GetHostedGitUrl(u).None?
  {
    var u := Url("https", None, Some("github.com"), "/" + user + "/" + project + "/archive/" + rest,
                 None, None);
    assert u.path == "/" + user + "/" + project + "/" + "archive" + "/" + rest;
    PathOfWords(user, project, "archive", rest);
    SplitThree(user, project, "archive", rest);
  }

  lemma SplitFour(a: string, b: string, c: string, d: string)
    requires '/' !in a && '/' !in b && '/' !in c && '/' !in d
    ensures Split(a + ['/'] + (b + ['/'] + (c + ['/'] + d)), '/') == [a, b, c, d]
  {
    SplitCons(a, '/', b + ['/'] + (c + ['/'] + d));
    SplitCons(b, '/', c + ['/'] + d);
    SplitTwo(c, d);
  }

  lemma FourSegments(url: Url, a: string, b: string, c: string, d: string)
    requires '/' !in a && '/' !in b && '/' !in c && '/' !in d
    requires url.path == "/" + a + "/" + b + "/" + c + "/" + d
    ensures PathSegments(url) == Some([a, b, c, d])
  {
    PathOfWords(a, b, c, d);
    SplitFour(a, b, c, d);
  }

  /** `https://github.com/<user>/<project>/tree/<commit>`: the commit is the
      fourth segment. */
  lemma GitHubTreeExample(user: string, project: string, commit: string)
    requires '/' !in user && '/' !in project && '/' !in commit && !EndsWith(project, ".git")
    ensures var u := Url("https", None, Some("github.com"), "/" + user + "/" + project + "/tree/" + commit,
                         None, None);
      && !MissingGitHubCommit(u)
      && GetHostedGitUrl(u) == Some(TarballUrl("github.com", user, project, commit))
  {
    var u := Url("https", None, Some("github.com"), "/" + user + "/" + project + "/tree/" + commit,
                 None, None);
    FourSegments(u, user, project, "tree", commit);
  }

  /** `git+ssh://bitbucket.org/foo/bar#branch`. */
  lemma BitbucketExample(user: string, project: string, commit: string)
    requires '/' !in user && '/' !in project && !EndsWith(project, ".git")
    ensures var u := Url("git+ssh", None, Some("bitbucket.org"), "/" + user + "/" + project, None, Some(commit));
      && GetHostedGitUrl(u) == Some(TarballUrl("bitbucket.org", user, project, commit))
      && Serialize(GetHostedGitUrl(u).value)
         == "https://bitbucket.org/" + user + "/" + project + "/get/" + commit + ".tar.gz"
  {
    var u := Url("git+ssh", None, Some("bitbucket.org"), "/" + user + "/" + project, None, Some(commit));
    TwoSegments(u, user, project);
    TarballUrlText("bitbucket.org", user, project, commit);
  }

  lemma StartsWithCons(c: char, t: string, w: string)
    requires StartsWith([c] + t, [c] + w)
    ensures StartsWith(t, w)
  {
    assert ([c] + t)[..1 + |w|] == [c] + t[..|w|];
    assert t[..|w|] == ([c] + w)[1..];
  }

  /** Where a path has a single `/`, any occurrence of `/` + `w` starts there. */
  lemma ContainsAtSlash(user: string, tail: string, w: string)
    requires '/' !in user && '/' !in tail
    requires Contains(user + "/" + tail, "/" + w)
    ensures StartsWith(tail, w)
  {
    var s := user + "/" + tail;
    var i :| 0 <= i <= |s| && StartsWith(s[i..], "/" + w);
    assert s[i] == '/';
    assert i == |user|;
    assert s[i..] == ['/'] + tail;
    StartsWithCons('/', tail, w);
  }

  lemma TildeSlash(p: string)
    ensures StartsWith(p, "~/") ==> '/' in p
  {
    if StartsWith(p, "~/") {
      assert p[1] == "~/"[1];
    }
  }

  lemma GitLabPathClean(user: string, project: string)
    requires '/' !in user && '/' !in project && !StartsWith(project, "archive.tar.gz")
    ensures !Contains(user + "/" + project, "/~/")
    ensures !Contains(user + "/" + project, "/archive.tar.gz")
  {
    if Contains(user + "/" + project, "/~/") {
      assert "/~/" == "/" + "~/";
      ContainsAtSlash(user, project, "~/");
      TildeSlash(project);
    }
    if Contains(user + "/" + project, "/archive.tar.gz") {
      assert "/archive.tar.gz" == "/" + "archive.tar.gz";
      ContainsAtSlash(user, project, "archive.tar.gz");
    }
  }

  /** `ssh://git@gitlab.com/foo/bar.git#fix/bug`. */
  lemma GitLabExample(user: string, project: string, commit: string)
    requires '/' !in user && '/' !in project && !StartsWith(project, "archive.tar.gz")
    ensures var u := Url("ssh", Some("git"), Some("gitlab.com"), "/" + user + "/" + project, None, Some(commit));
      && GetHostedGitUrl(u) == Some(TarballUrl("gitlab.com", user, StripGitSuffix(project), commit))
      && Serialize(GetHostedGitUrl(u).value)
         == "https://gitlab.com/" + user + "/" + StripGitSuffix(project) + "/repository/archive.tar.gz?ref=" + commit
  {
    var u := Url("ssh", Some("git"), Some("gitlab.com"), "/" + user + "/" + project, None, Some(commit));
    TwoSegments(u, user, project);
    GitLabPathClean(user, project);
    assert u.path[1..] == user + "/" + project;
    TarballUrlText("gitlab.com", user, StripGitSuffix(project), commit);
  }

  /** `git+ssh://git.sr.ht/~foo/bar#branch`. */
  lemma SourcehutExample(user: string, project: string, commit: string)
    requires '/' !in user && '/' !in project && !EndsWith(project, ".git")
    ensures var u := Url("git+ssh", None, Some("git.sr.ht"), "/" + user + "/" + project, None, Some(commit));
      && GetHostedGitUrl(u) == Some(TarballUrl("git.sr.ht", user, project, commit))
      && Serialize(GetHostedGitUrl(u).value)
         == "https://git.sr.ht/" + user + "/" + project + "/archive/" + commit + ".tar.gz"
  {
    var u := Url("git+ssh", None, Some("git.sr.ht"), "/" + user + "/" + project, None, Some(commit));
    TwoSegments(u, user, project);
    TarballUrlText("git.sr.ht", user, project, commit);
  }
}
