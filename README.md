# fetch-npm-deps, modelled in Dafny

`fetch-npm-deps` is the nixpkgs prefetcher behind `fetchNpmDeps`. It reads an
npm `package-lock.json` and downloads every dependency that resolves to a URL
into an npm cache (`_cacache`), one cache entry per download. If the lockfile is
version 1, the prefetcher first flattens its nested `dependencies` tree into
the flat `packages` map of versions 2 and 3. On the way, the `github:`,
`bitbucket:` and `gitlab:` shorthands become `git+ssh` URLs. Before each
download it makes two choices:

- the URL: a git URL on GitHub, Bitbucket, GitLab or sourcehut is rewritten
  into the provider's tarball URL for one commit;
- the digest: one integrity digest is picked out of the `integrity` field,
  preferring sha512 over sha1.

The model has these modules:

- `Wrappers`: `Option` and `Result`.
- `Strings`: prefix, suffix and containment tests, plus splitting and joining
  on a separator character.
- `Urls`: an abstract `Url` record. It holds the components the prefetcher
  reads and writes, a serialiser for them, `path_segments`, and the setters
  `set_host`, `set_path` and `set_fragment`.
- `Lockfile`: the parsed lockfile types (`PackageLock`, `OldPackage`,
  `Package`, `UrlOrString` and its `Display`).
- `IdealHash`: `get_ideal_hash`, over `split_ascii_whitespace`.
- `HostedGit` and `HostedGitExamples`: `get_hosted_git_url`, and the source's
  test cases stated for any user, project and commit.
- `Flatten` and `FlattenExamples`: `get_initial_url`, the shorthand rewrite,
  and `to_new_packages`. The last is a recursive method whose loop visits the
  top-level names in an unspecified order.
- `FetchPlan`: `main` after parsing, as a plan. It covers the version
  dispatch, the two filters, the URL to download, the cache key, the digest
  to record, whether the lockfile is copied, and the error outcomes.

## Model

All source paths are `pkgs/build-support/node/fetch-npm-deps/src/main.rs`.

| member | source | states |
|---|---|---|
| Strings.Split | pkgs/build-support/node/fetch-npm-deps/src/main.rs:115 | the pieces of a path between `/` separators: at least one piece, and no piece contains the separator |
| Strings.JoinSplit | pkgs/build-support/node/fetch-npm-deps/src/main.rs:115 | joining the pieces with the separator gives back the original text, so no character is lost or added |
| Strings.SplitCons | pkgs/build-support/node/fetch-npm-deps/src/main.rs:115 | a text made of a separator-free head, one separator and a rest splits into the head followed by the pieces of the rest |
| Strings.SplitJoin | pkgs/build-support/node/fetch-npm-deps/src/main.rs:115 | splitting a join of separator-free pieces gives back those pieces |
| Urls.PathSegments | pkgs/build-support/node/fetch-npm-deps/src/main.rs:115 | `path_segments()` is present exactly when the path starts with `/`; when present, the segments are non-empty as a list, free of `/`, and join back to the path after its `/` |
| Urls.Serialize | pkgs/build-support/node/fetch-npm-deps/src/main.rs:313 | the text `Display`/`as_str()` gives for a URL: scheme, `:`, then `//`, userinfo with `@` and host when there is a host, then path, `?` query and `#` fragment when present |
| Urls.SetHost | pkgs/build-support/node/fetch-npm-deps/src/main.rs:74 | `set_host` fails exactly on a cannot-be-a-base URL; otherwise only the host changes |
| Urls.SetPath | pkgs/build-support/node/fetch-npm-deps/src/main.rs:76-80 | `set_path` changes only the path; on a URL that is not cannot-be-a-base, a non-empty path is given a leading `/` |
| Urls.SetFragment | pkgs/build-support/node/fetch-npm-deps/src/main.rs:82 | `set_fragment` sets the fragment to the given one, absent included, and changes nothing else |
| Lockfile.Display | pkgs/build-support/node/fetch-npm-deps/src/main.rs:47-54 | a URL version is shown as its serialisation and a text version as the text itself |
| IdealHash.Tokens | pkgs/build-support/node/fetch-npm-deps/src/main.rs:218 | every piece `split_ascii_whitespace` yields is non-empty and free of ASCII whitespace (the lemmas below pin down which pieces they are) |
| IdealHash.WordLength | pkgs/build-support/node/fetch-npm-deps/src/main.rs:218 | the first piece runs up to the first whitespace character or the end of the text |
| IdealHash.TokensOfJoinWords | pkgs/build-support/node/fetch-npm-deps/src/main.rs:218 | splitting a space-separated list of tokens gives that list back, in order |
| IdealHash.TokensCompact | pkgs/build-support/node/fetch-npm-deps/src/main.rs:218 | for every text, the pieces written one after another are the text with its ASCII whitespace removed: no character is lost, added or reordered |
| IdealHash.TokensCount | pkgs/build-support/node/fetch-npm-deps/src/main.rs:218-220 | for every text, there are as many pieces as non-whitespace characters that start the text or follow whitespace, which is what "exactly one token" at line 220 counts |
| IdealHash.TokensAfterWhitespace | pkgs/build-support/node/fetch-npm-deps/src/main.rs:218 | whitespace of any kind and length in front of a text (leading whitespace, or a run between two digests) yields no piece |
| IdealHash.TokensOfTwo | pkgs/build-support/node/fetch-npm-deps/src/main.rs:218 | two tokens separated by any non-empty run of ASCII whitespace (tabs, newlines, several spaces) split into exactly those two |
| IdealHash.Sha512FirstAnySeparator | pkgs/build-support/node/fetch-npm-deps/src/main.rs:217-224 | a `sha512-` digest followed by another digest is chosen whatever whitespace separates them |
| IdealHash.FindPrefixed | pkgs/build-support/node/fetch-npm-deps/src/main.rs:224 | `find(starts_with(prefix))` gives nothing exactly when no token has the prefix; otherwise it gives the first such token |
| IdealHash.GetIdealHash | pkgs/build-support/node/fetch-npm-deps/src/main.rs:217-231 | a lone token is taken as it is. Otherwise the first `sha512-` token is taken, else the first `sha1-` token. It fails exactly when there is no lone token and neither prefix occurs. Any result is one of the field's tokens |
| IdealHash.PrefersSha512Example | pkgs/build-support/node/fetch-npm-deps/src/main.rs:385 | `sha512-foo sha1-bar` selects `sha512-foo` |
| IdealHash.FallsBackToSha1Example | pkgs/build-support/node/fetch-npm-deps/src/main.rs:386 | `sha1-bar md5-foo` selects `sha1-bar` |
| IdealHash.SingleTokenExample | pkgs/build-support/node/fetch-npm-deps/src/main.rs:387-388 | `sha1-bar` and `sha512-foo` each select themselves |
| IdealHash.SkipsUnknownForSha1Example | pkgs/build-support/node/fetch-npm-deps/src/main.rs:389 | `foo-bar sha1-bar` selects `sha1-bar` |
| IdealHash.NoPreferredExample | pkgs/build-support/node/fetch-npm-deps/src/main.rs:390 | `foo-bar baz-foo` is refused |
| IdealHash.EmptyFieldFails | pkgs/build-support/node/fetch-npm-deps/src/main.rs:218-230 | an empty integrity field has no token, so the prefix search runs and fails |
| Strings.StripGitSuffix | pkgs/build-support/node/fetch-npm-deps/src/main.rs:130-132 | a project ending in `.git` loses exactly that ending; any other project is kept; no character is introduced |
| HostedGit.TarballUrlText | pkgs/build-support/node/fetch-npm-deps/src/main.rs:136-141 | each provider's tarball record serialises to the source's format string: codeload `tar.gz`, Bitbucket `get/<commit>.tar.gz` (line 160), GitLab `repository/archive.tar.gz?ref=` (line 183) and sourcehut `archive/<commit>.tar.gz` (line 205) |
| HostedGit.MissingGitHubCommit | pkgs/build-support/node/fetch-npm-deps/src/main.rs:134 | the GitHub URLs on which `commit.unwrap()` panics: a listed scheme, host `github.com`, path segments present, and either exactly two segments with no fragment or a third segment `tree` with no fourth |
| HostedGit.Skipped | pkgs/build-support/node/fetch-npm-deps/src/main.rs:126-128 | the direct-link shapes left alone: a GitHub third segment other than `tree`, a Bitbucket third segment `get` (line 148), a GitLab path containing `/~/` or `/archive.tar.gz` (line 168), and a sourcehut third segment `archive` (line 193) |
| HostedGit.SerializeHttps | pkgs/build-support/node/fetch-npm-deps/src/main.rs:137-139 | an `https` URL with a host and no userinfo or fragment serialises as `https://` followed by host, path and optional query |
| HostedGit.TarballUrl | pkgs/build-support/node/fetch-npm-deps/src/main.rs:136-207 | every tarball URL is `https`, without userinfo or fragment. Its host is `codeload.github.com` for GitHub and the provider's own host otherwise. Only GitLab's has a query, `ref=<commit>`. Its path is the provider's format: `/<user>/<project>/tar.gz/<commit>` for GitHub (137-139), `/get/<commit>.tar.gz` for Bitbucket (158-162), `/repository/archive.tar.gz` for GitLab (181-185), `/archive/<commit>.tar.gz` for sourcehut (203-207) |
| HostedGit.GetHostedGitUrl | pkgs/build-support/node/fetch-npm-deps/src/main.rs:113-215 | no rewrite for an unlisted scheme, a missing or unknown host, a path without segments, or a provider's direct-link shape. A rewrite happens exactly when the scheme and host are listed, there are at least two segments, the shape is not a direct link, and a commit exists. The result is the provider's tarball for the first segment, the second segment without `.git`, and the commit (GitHub's fourth segment, else the fragment) |
| HostedGit.HostedGitUrlIsFixedPoint | pkgs/build-support/node/fetch-npm-deps/src/main.rs:113-215 | a rewritten URL, as the modelled record with the formatted components, is itself a direct link: rewriting it again yields nothing, and it cannot trip the GitHub commit panic |
| HostedGit.TarballSkipped | pkgs/build-support/node/fetch-npm-deps/src/main.rs:146-150 | a Bitbucket tarball URL has `get` as its third segment, and a sourcehut one has `archive` (the test at line 193), so the rewrite leaves both alone |
| HostedGit.GitLabTarballSkipped | pkgs/build-support/node/fetch-npm-deps/src/main.rs:166-170 | a GitLab tarball URL's path contains `/archive.tar.gz` |
| HostedGitExamples.GitHubSshExample | pkgs/build-support/node/fetch-npm-deps/src/main.rs:351-352 | `git+ssh://git@github.com/<user>/<project>.git#<commit>` becomes `https://codeload.github.com/<user>/<project>/tar.gz/<commit>` |
| HostedGitExamples.GitHubHttpsExample | pkgs/build-support/node/fetch-npm-deps/src/main.rs:355-356 | with userinfo and a fragment that may contain `/`, a GitHub URL takes the whole fragment as the commit |
| HostedGitExamples.GitHubArchiveExample | pkgs/build-support/node/fetch-npm-deps/src/main.rs:359-360 | a GitHub `/<user>/<project>/archive/...` URL is left alone |
| HostedGitExamples.GitHubTreeExample | pkgs/build-support/node/fetch-npm-deps/src/main.rs:121-126 | in `/<user>/<project>/tree/<commit>` the fourth segment is the commit |
| HostedGitExamples.BitbucketExample | pkgs/build-support/node/fetch-npm-deps/src/main.rs:363-364 | `git+ssh://bitbucket.org/<user>/<project>#<commit>` becomes `https://bitbucket.org/<user>/<project>/get/<commit>.tar.gz` |
| HostedGitExamples.GitLabExample | pkgs/build-support/node/fetch-npm-deps/src/main.rs:367-368 | `ssh://git@gitlab.com/<user>/<project>#<commit>` becomes the GitLab archive URL with `?ref=<commit>`, for any project not starting with `archive.tar.gz` |
| HostedGitExamples.GitLabPathClean | pkgs/build-support/node/fetch-npm-deps/src/main.rs:168 | a two-segment path never contains `/~/`, and contains `/archive.tar.gz` only when the project starts with `archive.tar.gz` |
| HostedGitExamples.SourcehutExample | pkgs/build-support/node/fetch-npm-deps/src/main.rs:371-372 | `git+ssh://git.sr.ht/<user>/<project>#<commit>` becomes `https://git.sr.ht/<user>/<project>/archive/<commit>.tar.gz` |
| Flatten.InitialUrl | pkgs/build-support/node/fetch-npm-deps/src/main.rs:233-235 | the initial URL serialises to `git+ssh://git@a.b` and has a host, so a host can be set on it |
| Flatten.ShorthandHost | pkgs/build-support/node/fetch-npm-deps/src/main.rs:65-69 | exactly the schemes `github`, `bitbucket` and `gitlab` are shorthands, for `github.com`, `bitbucket.org` and `gitlab.com` |
| Flatten.RewriteVersion | pkgs/build-support/node/fetch-npm-deps/src/main.rs:64-90 | a non-shorthand version is kept. A shorthand becomes the initial URL with the provider's host, the shorthand's fragment, and the path `/` + bare path + `.git` (bare means without a leading `/` or a trailing `.git`). It fails exactly when the initial URL cannot take a host |
| Flatten.GitPath | pkgs/build-support/node/fetch-npm-deps/src/main.rs:76-80 | the path passed to `set_path` is never empty, and after `set_path` adds its leading `/` it is `/` + bare path + `.git` |
| Flatten.Entry | pkgs/build-support/node/fetch-npm-deps/src/main.rs:92-102 | a node's entry is keyed `<name>-<rewritten version>`. Its `resolved` is the rewritten version when that is a URL, and the node's own `resolved` otherwise. The integrity is unchanged. It fails exactly when the rewrite fails |
| Flatten.InTreeIsForest | pkgs/build-support/node/fetch-npm-deps/src/main.rs:104-106 | a node is in the tree exactly when it is a top-level node or lies in a top-level node's subtree |
| Flatten.StepKeepsInvariant | pkgs/build-support/node/fetch-npm-deps/src/main.rs:92-106 | after inserting one node's entry and extending with its subtree's flattening, every node visited so far has its key in the map, and every key holds a visited node's entry |
| Flatten.SubtreeFails | pkgs/build-support/node/fetch-npm-deps/src/main.rs:105 | a failure in a subtree is a failure of the whole tree (the `?` after the recursive call) |
| Flatten.TopFails | pkgs/build-support/node/fetch-npm-deps/src/main.rs:74 | a top-level node whose rewrite fails makes the tree fail |
| Flatten.DoneIsFlattening | pkgs/build-support/node/fetch-npm-deps/src/main.rs:109 | once every top-level name is visited, the map is a flattening and no node failed |
| Flatten.ChildLower | pkgs/build-support/node/fetch-npm-deps/src/main.rs:104-105 | a subtree is strictly shallower than its tree, so the recursion ends |
| Flatten.ToNewPackages | pkgs/build-support/node/fetch-npm-deps/src/main.rs:57-110 | fails exactly when some node anywhere in the tree cannot be rewritten. Otherwise the result holds exactly the entry keys of all nodes, each mapped to the entry of a node with that key |
| FlattenExamples.GitEndingInLastSegment | pkgs/build-support/node/fetch-npm-deps/src/main.rs:76 | a `.git` ending of `<user>/<project>` is a `.git` ending of the project |
| FlattenExamples.ShorthandPath | pkgs/build-support/node/fetch-npm-deps/src/main.rs:76-80 | the shorthand path `<user>/<project>` is set as `/<user>/<project>.git` |
| FlattenExamples.ShorthandRewrite | pkgs/build-support/node/fetch-npm-deps/src/main.rs:71-85 | `github:<user>/<project>#<commit>` is rewritten to `git+ssh://git@github.com/<user>/<project>.git#<commit>` |
| FlattenExamples.SshUrlText | pkgs/build-support/node/fetch-npm-deps/src/main.rs:421 | that record serialises to `git+ssh://git@github.com/<user>/<project>.git#<commit>` |
| FlattenExamples.GitShorthandV1 | pkgs/build-support/node/fetch-npm-deps/src/main.rs:397-426 | a single-node tree with a `github:` version cannot fail. Every flattening of it has exactly one package, whose `resolved` is the rewritten `git+ssh` URL and whose integrity is absent |
| FlattenExamples.ShorthandFetchesTarball | pkgs/build-support/node/fetch-npm-deps/src/main.rs:299-301 | the rewritten shorthand is then downloaded as the codeload tarball of that commit |
| FetchPlan.CacheKey | pkgs/build-support/node/fetch-npm-deps/src/main.rs:313 | the cache key is `make-fetch-happen:request-cache:` followed by the URL's serialisation |
| FetchPlan.CacheKeyNamesUrl | pkgs/build-support/node/fetch-npm-deps/src/main.rs:313 | two cache keys are equal exactly when the two URLs serialise alike |
| FetchPlan.Target | pkgs/build-support/node/fetch-npm-deps/src/main.rs:299-301 | the downloaded URL is the hosted tarball when there is one and the resolved URL otherwise, and it is a direct link |
| FetchPlan.Job | pkgs/build-support/node/fetch-npm-deps/src/main.rs:291-323 | a dependency fails with the commit panic exactly on a GitHub URL without a commit, and with an ambiguous digest exactly when `get_ideal_hash` refuses its integrity. Otherwise it puts the target URL under its cache key with the chosen digest, which is one of the integrity's tokens |
| FetchPlan.IsFetched | pkgs/build-support/node/fetch-npm-deps/src/main.rs:289-290 | the two filters: the name is non-empty and `resolved` is present and parsed as a URL |
| FetchPlan.FetchedNames | pkgs/build-support/node/fetch-npm-deps/src/main.rs:289-290 | exactly the names of the map that are non-empty and whose `resolved` is a URL; in particular never the empty root name |
| FetchPlan.Plan | pkgs/build-support/node/fetch-npm-deps/src/main.rs:286-324 | the puts are exactly those of the dependencies with a non-empty name and a URL `resolved`, each equal to its job's put. The plan fails exactly when some such job fails, and then reports every failing job with its error |
| FetchPlan.PlannedUrlsAreFinal | pkgs/build-support/node/fetch-npm-deps/src/main.rs:299-313 | every planned download is a direct link whose key is the prefix plus its serialisation |
| FetchPlan.InitialUrlNeverFails | pkgs/build-support/node/fetch-npm-deps/src/main.rs:267-271 | with the initial URL, flattening a version 1 tree never fails |
| FetchPlan.Packages | pkgs/build-support/node/fetch-npm-deps/src/main.rs:265-278 | version 1 gives nothing without `dependencies`, and a flattening of them otherwise. Versions 2 and 3 give their `packages`. Any other version is refused |
| FetchPlan.Finish | pkgs/build-support/node/fetch-npm-deps/src/main.rs:280-335 | with no package map, the run ends successfully with no cache entry and no lockfile copy. Otherwise it copies the lockfile and writes the plan's puts, or fails with the plan's failures |
| FetchPlan.Run | pkgs/build-support/node/fetch-npm-deps/src/main.rs:265-335 | combines the version dispatch with the plan, for some flattening when the version is 1. Whenever the lockfile is copied, every cache entry's URL, as the modelled record, is a direct link |

## Left out

- Reading the lockfile, JSON parsing, the HTTP downloads, the cache's on-disk format, the `nix hash path` call and the progress messages are I/O and not modelled. A `Put` records the key, URL and digest of a cache write and leaves out the data.
- Parallelism: `into_par_iter` and `try_for_each` run the jobs concurrently. The model treats them as one map of jobs.
- FetchPlan.Plan: on failure it reports every failing dependency. The source stops at whichever failure rayon meets first, which depends on scheduling. Cache entries already written by then are not modelled.
- FetchPlan.Job: HTTP and cache-write failures inside the job are I/O and have no error case here.
- `Url::parse` is not modelled: a URL is given by its components. Host and path normalisation and percent-encoding are not applied. As a result, the re-parse of the formatted tarball URL is taken to succeed and to give the formatted components, including when a commit contains `?` or `#`. The `.ok()?` failure of that re-parse is therefore not modelled. One consequence: HostedGit.HostedGitUrlIsFixedPoint and FetchPlan.Run speak of the modelled record. A real re-parse can differ from it, for instance when a commit holds `#` or `../` segments, and rewriting that re-parsed URL can then find another tarball shape.
- `Urls.Serialize` covers scheme, userinfo, host, path, query and fragment only. There is no port, no password, and none of the URL Standard's escaping.
- Urls.SetHost: fails only on a cannot-be-a-base URL. The `url` crate's other refusals (an invalid host, `file` URLs) do not arise for the shorthand hosts on the `git+ssh` initial URL.
- HostedGit.GetHostedGitUrl: requires that the URL is not a GitHub URL without a commit. There `commit.unwrap()` panics in the source. FetchPlan.Job checks this first and reports it as `MissingCommit`.
- FetchPlan.Packages: an unsupported version is a `panic!` in the source; the model returns `UnsupportedVersion`.
- The `dependencies` field of a version 1 node is the empty map when absent. `to_new_packages` treats an absent map and an empty one alike.
- Flatten.ToNewPackages: the source's hash-map iteration order is not modelled. When several nodes share a key, which one wins is left open. The contract states what holds for every order.
- `get_initial_url`'s `.context(...)` error cannot happen for the constant it parses, and is not modelled.
