/** Choosing the one integrity digest to check a fetched tarball against, out
    of an npm `integrity` field that may list several (`get_ideal_hash`). */
module IdealHash {
  import opened Wrappers
  import opened Strings

  /** Rust's `u8::is_ascii_whitespace`: space, tab, line feed, form feed and
      carriage return (not vertical tab). */
  predicate IsAsciiWhitespace(c: char)
  {
    c == ' ' || c == '\t' || c == '\n' || c == '\U{000C}' || c == '\r'
  }

  /** A piece that `split_ascii_whitespace` can yield: non-empty and free of
      whitespace. */
  predicate IsToken(t: string)
  {
    t != "" && forall i :: 0 <= i < |t| ==> !IsAsciiWhitespace(t[i])
  }

  /** Length of the run of non-whitespace characters that starts `s`. */
  function WordLength(s: string): (n: nat)
    ensures n <= |s|
    ensures forall i :: 0 <= i < n ==> !IsAsciiWhitespace(s[i])
    ensures n < |s| ==> IsAsciiWhitespace(s[n])
  {
    if s == [] || IsAsciiWhitespace(s[0]) then 0 else 1 + WordLength(s[1..])
  }

  /** `split_ascii_whitespace().collect()`: the maximal runs of non-whitespace
      characters, in order; runs of whitespace of any length separate them and
      no empty piece is produced. */
  function Tokens(s: string): (ts: seq<string>)
    ensures forall i :: 0 <= i < |ts| ==> IsToken(ts[i])
    decreases |s|
  {
    if s == [] then []
    else if IsAsciiWhitespace(s[0]) then Tokens(s[1..])
    else
      var n := WordLength(s);
      [s[..n]] + Tokens(s[n..])
  }

  /** The text with every ASCII whitespace character removed. */
  function Compact(s: string): string
  {
    if s == [] then [] else (if IsAsciiWhitespace(s[0]) then [] else [s[0]]) + Compact(s[1..])
  }

  /** The pieces written out one after the other. */
  function Concat(ts: seq<string>): string
  {
    if ts == [] then [] else ts[0] + Concat(ts[1..])
  }

  /** How many characters begin a run: not whitespace, and at the start of the
      text (`atStart`) or right after whitespace. */
  function RunStarts(s: string, atStart: bool): nat
  {
    if s == [] then 0
    else (if atStart && !IsAsciiWhitespace(s[0]) then 1 else 0) + RunStarts(s[1..], IsAsciiWhitespace(s[0]))
  }

  lemma {:induction false} CompactWord(s: string, n: nat)
    requires n <= |s|
    requires forall i :: 0 <= i < n ==> !IsAsciiWhitespace(s[i])
    ensures Compact(s) == s[..n] + Compact(s[n..])
    decreases n
  {
    if n > 0 {
      CompactWord(s[1..], n - 1);
      assert s[1..][n - 1..] == s[n..];
      assert s[..n] == [s[0]] + s[1..][..n - 1];
    }
  }

  /** No character is lost or added: the pieces, put back together, are the
      text without its whitespace. */
  lemma {:induction false} TokensCompact(s: string)
    ensures Concat(Tokens(s)) == Compact(s)
    decreases |s|
  {
    if s != [] {
      if IsAsciiWhitespace(s[0]) {
        TokensCompact(s[1..]);
      } else {
        var n := WordLength(s);
        TokensCompact(s[n..]);
        CompactWord(s, n);
        assert Tokens(s) == [s[..n]] + Tokens(s[n..]);
        assert Concat(Tokens(s)) == s[..n] + Concat(Tokens(s[n..]));
      }
    }
  }

  lemma {:induction false} RunStartsInWord(s: string, k: nat, n: nat)
    requires 1 <= k <= n <= |s|
    requires forall i :: 0 <= i < n ==> !IsAsciiWhitespace(s[i])
    requires n < |s| ==> IsAsciiWhitespace(s[n])
    ensures RunStarts(s[k..], false) == RunStarts(s[n..], true)
    decreases n - k
  {
    if k < n {
      RunStartsInWord(s, k + 1, n);
      assert s[k..][1..] == s[k + 1..];
    } else if n < |s| {
      assert s[n..][1..] == s[n + 1..];
    }
  }

  /** One piece per run: as many pieces as characters that begin a run. */
  lemma {:induction false} TokensCount(s: string)
    ensures |Tokens(s)| == RunStarts(s, true)
    decreases |s|
  {
    if s != [] {
      if IsAsciiWhitespace(s[0]) {
        TokensCount(s[1..]);
      } else {
        var n := WordLength(s);
        TokensCount(s[n..]);
        RunStartsInWord(s, 1, n);
      }
    }
  }

  /** Whitespace of any kind and length in front of a text yields no piece. */
  lemma {:induction false} TokensAfterWhitespace(w: string, rest: string)
    requires forall i :: 0 <= i < |w| ==> IsAsciiWhitespace(w[i])
    ensures Tokens(w + rest) == Tokens(rest)
    decreases |w|
  {
    if w == [] {
      assert w + rest == rest;
    } else {
      TokensAfterWhitespace(w[1..], rest);
      assert (w + rest)[1..] == w[1..] + rest;
    }
  }

  /** Tokens written out with one space between each two. */
  function JoinWords(ts: seq<string>): string
  {
    if |ts| == 0 then "" else if |ts| == 1 then ts[0] else ts[0] + " " + JoinWords(ts[1..])
  }

  lemma {:induction false} TokensAfterWord(t: string, rest: string)
    requires IsToken(t)
    requires rest == [] || IsAsciiWhitespace(rest[0])
    ensures Tokens(t + rest) == [t] + Tokens(rest)
  {
    var s := t + rest;
    WordLengthOf(t, rest);
    assert s[..|t|] == t && s[|t|..] == rest;
  }

  lemma {:induction false} WordLengthOf(t: string, rest: string)
    requires forall i :: 0 <= i < |t| ==> !IsAsciiWhitespace(t[i])
    requires rest == [] || IsAsciiWhitespace(rest[0])
    ensures WordLength(t + rest) == |t|
    decreases |t|
  {
    if t == [] {
      assert t + rest == rest;
    } else {
      WordLengthOf(t[1..], rest);
      assert (t + rest)[1..] == t[1..] + rest;
    }
  }

  /** Splitting a space-separated list of tokens gives the list back. */
  lemma {:induction false} TokensOfJoinWords(ts: seq<string>)
    requires forall i :: 0 <= i < |ts| ==> IsToken(ts[i])
    ensures Tokens(JoinWords(ts)) == ts
    decreases |ts|
  {
    if |ts| == 1 {
      TokensAfterWord(ts[0], "");
      assert ts[0] + "" == ts[0];
    } else if |ts| > 1 {
      var tail := JoinWords(ts[1..]);
      TokensOfJoinWords(ts[1..]);
      assert (" " + tail)[1..] == tail;
      TokensAfterWord(ts[0], " " + tail);
      assert ts[0] + " " + tail == ts[0] + (" " + tail);
    }
  }

  predicate HasPrefixed(ts: seq<string>, prefix: string)
  {
    exists i :: 0 <= i < |ts| && StartsWith(ts[i], prefix)
  }

  /** `t` is the first of `ts` that starts with `prefix`. */
  predicate IsFirstPrefixed(ts: seq<string>, prefix: string, t: string)
  {
    exists i :: 0 <= i < |ts| && ts[i] == t && StartsWith(t, prefix)
      && forall j :: 0 <= j < i ==> !StartsWith(ts[j], prefix)
  }

  /** `split.iter().find(|s| s.starts_with(prefix))`. */
  function FindPrefixed(ts: seq<string>, prefix: string): (r: Option<string>)
    ensures r.None? <==> !HasPrefixed(ts, prefix)
    ensures r.Some? ==> IsFirstPrefixed(ts, prefix, r.value)
  {
    if ts == [] then None
    else if StartsWith(ts[0], prefix) then
      assert IsFirstPrefixed(ts, prefix, ts[0]) by { assert ts[0] == ts[0]; }
      Some(ts[0])
    else
      var r := FindPrefixed(ts[1..], prefix);
      if r.Some? then
        var i :| 0 <= i < |ts[1..]| && ts[1..][i] == r.value && StartsWith(r.value, prefix)
          && forall j :: 0 <= j < i ==> !StartsWith(ts[1..][j], prefix);
        assert ts[i + 1] == r.value;
        assert forall j :: 0 <= j < i + 1 ==> !StartsWith(ts[j], prefix) by {
          forall j | 0 <= j < i + 1 ensures !StartsWith(ts[j], prefix) {
            if j > 0 { assert ts[j] == ts[1..][j - 1]; }
          }
        }
        r
      else
        assert forall i :: 0 <= i < |ts| ==> !StartsWith(ts[i], prefix) by {
          forall i | 0 <= i < |ts| ensures !StartsWith(ts[i], prefix) {
            if i > 0 { assert ts[i] == ts[1..][i - 1]; }
          }
        }
        r
  }

  datatype HashError = NoPreferredDigest(candidates: seq<string>)

  /** `get_ideal_hash`: a field holding one token is taken as it is; otherwise
      the first `sha512-` token wins, then the first `sha1-` token, and any
      other field (the empty one included) is rejected. */
  function GetIdealHash(integrity: string): (r: Result<string, HashError>)
    ensures |Tokens(integrity)| == 1 ==> r == Ok(Tokens(integrity)[0])
    ensures r.Ok? ==> r.value in Tokens(integrity)
    ensures |Tokens(integrity)| != 1 && HasPrefixed(Tokens(integrity), "sha512-") ==>
      r.Ok? && IsFirstPrefixed(Tokens(integrity), "sha512-", r.value)
    ensures (|Tokens(integrity)| != 1 && !HasPrefixed(Tokens(integrity), "sha512-")
             && HasPrefixed(Tokens(integrity), "sha1-")) ==>
      r.Ok? && IsFirstPrefixed(Tokens(integrity), "sha1-", r.value)
    ensures r.Err? <==> (|Tokens(integrity)| != 1
                         && !HasPrefixed(Tokens(integrity), "sha512-")
                         && !HasPrefixed(Tokens(integrity), "sha1-"))
  {
    var split := Tokens(integrity);
    if |split| == 1 then Ok(split[0])
    else
      match FindPrefixed(split, "sha512-")
      case Some(h) => Ok(h)
      case None =>
        match FindPrefixed(split, "sha1-")
        case Some(h) => Ok(h)
        case None => Err(NoPreferredDigest(split))
  }

  /** The examples the tests of `get_ideal_hash` pin down, and the empty field. */
  lemma PrefersSha512Example()
    ensures GetIdealHash("sha512-foo sha1-bar") == Ok("sha512-foo")
  {
    var ts := ["sha512-foo", "sha1-bar"];
    assert JoinWords(ts) == "sha512-foo sha1-bar";
    TokensOfJoinWords(ts);
    assert StartsWith(ts[0], "sha512-");
  }

  lemma FallsBackToSha1Example()
    ensures GetIdealHash("sha1-bar md5-foo") == Ok("sha1-bar")
  {
    var ts := ["sha1-bar", "md5-foo"];
    assert JoinWords(ts) == "sha1-bar md5-foo";
    TokensOfJoinWords(ts);
    assert !StartsWith(ts[0], "sha512-") by { assert ts[0][3] != "sha512-"[3]; }
    assert !StartsWith(ts[1], "sha512-") by { assert ts[1][0] != 's'; }
    assert !HasPrefixed(ts, "sha512-");
    assert StartsWith(ts[0], "sha1-");
  }

  lemma SkipsUnknownForSha1Example()
    ensures GetIdealHash("foo-bar sha1-bar") == Ok("sha1-bar")
  {
    var ts := ["foo-bar", "sha1-bar"];
    assert JoinWords(ts) == "foo-bar sha1-bar";
    TokensOfJoinWords(ts);
    assert !StartsWith(ts[0], "sha512-") by { assert ts[0][0] != 's'; }
    assert !StartsWith(ts[1], "sha512-") by { assert ts[1][3] != "sha512-"[3]; }
    assert !HasPrefixed(ts, "sha512-");
    assert !StartsWith(ts[0], "sha1-") by { assert ts[0][0] != 's'; }
    assert StartsWith(ts[1], "sha1-");
  }

  lemma SingleTokenExample()
    ensures GetIdealHash("sha1-bar") == Ok("sha1-bar")
    ensures GetIdealHash("sha512-foo") == Ok("sha512-foo")
  {
    assert JoinWords(["sha1-bar"]) == "sha1-bar";
    TokensOfJoinWords(["sha1-bar"]);
    assert JoinWords(["sha512-foo"]) == "sha512-foo";
    TokensOfJoinWords(["sha512-foo"]);
  }

  lemma NoPreferredExample()
    ensures GetIdealHash("foo-bar baz-foo").Err?
  {
    var ts := ["foo-bar", "baz-foo"];
    assert JoinWords(ts) == "foo-bar baz-foo";
    TokensOfJoinWords(ts);
    assert !StartsWith(ts[0], "sha512-") && !StartsWith(ts[0], "sha1-") by { assert ts[0][0] != 's'; }
    assert !StartsWith(ts[1], "sha512-") && !StartsWith(ts[1], "sha1-") by { assert ts[1][0] != 's'; }
    assert !HasPrefixed(ts, "sha512-") && !HasPrefixed(ts, "sha1-");
  }

  /** Any run of ASCII whitespace separates two digests: tabs, newlines and
      several spaces as well as the one space of the tests. */
  lemma {:induction false} TokensOfTwo(a: string, w: string, b: string)
    requires IsToken(a) && IsToken(b)
    requires w != [] && forall i :: 0 <= i < |w| ==> IsAsciiWhitespace(w[i])
    ensures Tokens(a + w + b) == [a, b]
  {
    assert a + w + b == a + (w + b);
    assert b + [] == b;
    TokensAfterWord(b, []);
    TokensAfterWhitespace(w, b);
    TokensAfterWord(a, w + b);
  }

  lemma Sha512FirstAnySeparator(a: string, w: string, b: string)
    requires IsToken(a) && IsToken(b) && StartsWith(a, "sha512-")
    requires w != [] && forall i :: 0 <= i < |w| ==> IsAsciiWhitespace(w[i])
    ensures GetIdealHash(a + w + b) == Ok(a)
  {
    TokensOfTwo(a, w, b);
  }

  /** The empty field has no token at all, so it goes through the prefix
      search and fails. */
  lemma EmptyFieldFails()
    ensures GetIdealHash("").Err?
  {
    assert Tokens("") == [];
  }
}
