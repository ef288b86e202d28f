/**
 * `isValidTikTokUrl`: the test of the unanchored regular expression
 * `https?:\/\/(www\.)?tiktok\.com\/.+` against a string.
 */
module UrlCheck {
  import opened Text

  function Optional(present: bool, p: string): string {
    if present then p else ""
  }

  /** The part of the pattern from `(www\.)?` on, up to `.+`. */
  function HostPattern(www: bool): string {
    Optional(www, "www.") + "tiktok.com/"
  }

  /** The part of the pattern from `s?` on, up to `.+`. */
  function SchemeTailPattern(secure: bool, www: bool): string {
    Optional(secure, "s") + ("://" + HostPattern(www))
  }

  /** The literal text the pattern requires before `.+`, for each choice of its two optional parts. */
  function Pattern(secure: bool, www: bool): string {
    "http" + SchemeTailPattern(secure, www)
  }

  /** `t` starts with the literal `p`, followed by one character that `.` matches. */
  predicate PrefixThenAny(t: string, p: string) {
    |p| < |t| && t[..|p|] == p && !IsLineTerminator(t[|p|])
  }

  /** The literal `p` occurs in `s` at `i` and is followed by one character that `.` matches. */
  predicate LiteralThenAnyAt(s: string, i: nat, p: string) {
    i <= |s| && PrefixThenAny(s[i..], p)
  }

  /**
   * The meaning of `test` on an unanchored pattern: some position of `s`
   * starts a match. `.+` is satisfied as soon as one character matches.
   */
  ghost predicate RegexMatches(s: string) {
    exists i: nat, secure: bool, www: bool :: LiteralThenAnyAt(s, i, Pattern(secure, www))
  }

  predicate StartsWith(t: string, p: string) {
    |p| <= |t| && t[..|p|] == p
  }

  /** Consumes `p` when `t` starts with it, as a greedy `(p)?` does. */
  function SkipOptional(t: string, p: string): string {
    if StartsWith(t, p) then t[|p|..] else t
  }

  /**
   * The matcher tried at one start position, step by step as a backtracking
   * engine does with greedy optional parts. No backtracking into `s?` or
   * `(www\.)?` is ever needed: the character after each optional part decides it.
   */
  function MatchHere(t: string): bool {
    StartsWith(t, "http") && MatchSchemeTail(t[4..])
  }

  function MatchSchemeTail(a: string): bool {
    var b := SkipOptional(a, "s");
    StartsWith(b, "://") && MatchHost(b[3..])
  }

  function MatchHost(c: string): bool {
    var d := SkipOptional(c, "www.");
    StartsWith(d, "tiktok.com/") && |d| > 11 && !IsLineTerminator(d[11])
  }

  /** With `t` starting with `q`, the literal `q + p` then a character is `p` then a character after `q`. */
  lemma PrefixThenAnyAfter(t: string, q: string, p: string)
    ensures PrefixThenAny(t, q + p) <==> StartsWith(t, q) && PrefixThenAny(t[|q|..], p)
  {
  }

  lemma MatchHostIff(c: string)
    ensures MatchHost(c) <==> exists www: bool :: PrefixThenAny(c, HostPattern(www))
  {
    PrefixThenAnyAfter(c, "www.", "tiktok.com/");
    PrefixThenAnyAfter(c, "", "tiktok.com/");
    PrefixThenAnyAfter(SkipOptional(c, "www."), "tiktok.com/", "");
    assert HostPattern(true) == "www." + "tiktok.com/";
    assert HostPattern(false) == "" + "tiktok.com/";
    if StartsWith(c, "www.") {
      assert c[0] == 'w';
      assert !PrefixThenAny(c, HostPattern(false));
    }
  }

  lemma MatchSchemeTailIff(a: string)
    ensures MatchSchemeTail(a) <==> exists secure: bool, www: bool :: PrefixThenAny(a, SchemeTailPattern(secure, www))
  {
    var b := SkipOptional(a, "s");
    if StartsWith(b, "://") {
      MatchHostIff(b[3..]);
    }
    forall secure: bool, www: bool
      ensures PrefixThenAny(a, SchemeTailPattern(secure, www))
          <==> (secure == StartsWith(a, "s")) && StartsWith(b, "://") && PrefixThenAny(b[3..], HostPattern(www))
    {
      PrefixThenAnyAfter(a, Optional(secure, "s"), "://" + HostPattern(www));
      if StartsWith(a, Optional(secure, "s")) {
        var a' := a[|Optional(secure, "s")|..];
        PrefixThenAnyAfter(a', "://", HostPattern(www));
        if !secure && StartsWith(a, "s") {
          assert a'[0] == 's';
        }
      }
    }
    if MatchSchemeTail(a) {
      var www: bool :| PrefixThenAny(b[3..], HostPattern(www));
      assert PrefixThenAny(a, SchemeTailPattern(StartsWith(a, "s"), www));
    }
  }

  /** Matching at the start of `t` is exactly the literal of one of the four pattern choices there. */
  lemma MatchHereIff(t: string)
    ensures MatchHere(t) <==> exists secure: bool, www: bool :: PrefixThenAny(t, Pattern(secure, www))
  {
    forall secure: bool, www: bool
      ensures PrefixThenAny(t, Pattern(secure, www))
          <==> StartsWith(t, "http") && PrefixThenAny(t[4..], SchemeTailPattern(secure, www))
    {
      PrefixThenAnyAfter(t, "http", SchemeTailPattern(secure, www));
    }
    if StartsWith(t, "http") {
      MatchSchemeTailIff(t[4..]);
    }
  }

  /** The engine's scan: try every start position from `i` to the end of `s`. */
  function SearchFrom(s: string, i: nat): bool
    requires i <= |s|
    decreases |s| - i
  {
    MatchHere(s[i..]) || (i < |s| && SearchFrom(s, i + 1))
  }

  /** `isValidTikTokUrl(url)`: the pattern matches somewhere in `url`. */
  function IsValidTikTokUrl(url: string): (ok: bool)
    ensures ok <==> RegexMatches(url)
  {
    SearchMeansRegexMatches(url);
    SearchFrom(url, 0)
  }

  /** The scan from `i` succeeds exactly when some position from `i` on matches. */
  lemma {:induction false} SearchFromIff(s: string, i: nat)
    requires i <= |s|
    ensures SearchFrom(s, i) <==> exists j :: i <= j <= |s| && MatchHere(s[j..])
    decreases |s| - i
  {
    if MatchHere(s[i..]) {
      assert i <= i <= |s| && MatchHere(s[i..]);
    } else if i < |s| {
      SearchFromIff(s, i + 1);
      if j :| i <= j <= |s| && MatchHere(s[j..]) {
        assert j != i;
        assert i + 1 <= j <= |s| && MatchHere(s[j..]);
      }
    }
  }

  lemma SearchMeansRegexMatches(s: string)
    ensures SearchFrom(s, 0) <==> RegexMatches(s)
  {
    SearchFromIff(s, 0);
    if SearchFrom(s, 0) {
      var j :| 0 <= j <= |s| && MatchHere(s[j..]);
      MatchHereIff(s[j..]);
      var secure: bool, www: bool :| PrefixThenAny(s[j..], Pattern(secure, www));
      assert LiteralThenAnyAt(s, j, Pattern(secure, www));
    }
    if RegexMatches(s) {
      var i: nat, secure: bool, www: bool :| LiteralThenAnyAt(s, i, Pattern(secure, www));
      MatchHereIff(s[i..]);
    }
  }

  /** The pattern is not anchored: text around an accepted URL keeps it accepted. */
  lemma AcceptedInsideAnyText(x: string, url: string, y: string)
    requires IsValidTikTokUrl(url)
    ensures IsValidTikTokUrl(x + url + y)
  {
    var i: nat, secure: bool, www: bool :| LiteralThenAnyAt(url, i, Pattern(secure, www));
    var p := Pattern(secure, www);
    var s := x + url + y;
    assert s[|x| + i..|x| + i + |p|] == url[i..i + |p|];
    assert s[|x| + i + |p|] == url[i + |p|];
    assert LiteralThenAnyAt(s, |x| + i, p);
  }

  /** A string with a prefix before the URL is accepted. */
  lemma AcceptsTextBeforeUrl()
    ensures IsValidTikTokUrl("x https://tiktok.com/a")
  {
    var s := "x https://tiktok.com/a";
    assert s[2..2 + |Pattern(true, false)|] == Pattern(true, false);
    assert LiteralThenAnyAt(s, 2, Pattern(true, false));
  }

  /** Nothing after the final slash: rejected, since `.+` needs a character there. */
  lemma RejectsEmptyPath()
    ensures !IsValidTikTokUrl("https://tiktok.com/")
  {
    NoMatchWithEmptyPath("https://tiktok.com/");
  }

  lemma NoMatchWithEmptyPath(s: string)
    requires s == "https://tiktok.com/"
    ensures !RegexMatches(s)
  {
    forall i: nat, secure: bool, www: bool
      ensures !LiteralThenAnyAt(s, i, Pattern(secure, www))
    {
      var p := Pattern(secure, www);
      assert |p| == 18 + (if secure then 1 else 0) + (if www then 4 else 0);
      if i + |p| < |s| {
        assert i == 0 && p == "http://tiktok.com/";
        assert s[i..][..|p|][4] != p[4];
      }
    }
  }

  /** Every accepted string is at least as long as `http://tiktok.com/` and one more character. */
  lemma AcceptedLength(s: string)
    requires IsValidTikTokUrl(s)
    ensures |s| >= 19
  {
  }
}
