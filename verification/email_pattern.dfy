/** The email shape the registration form accepts: the regular expression
    `\S+@\S+\.\S+` of ECMAScript, applied without anchors, so it may match
    anywhere inside the string.

    `Matches` states what a match is (an existential over the four indices
    that delimit the three `\S+` runs); `MatchesEmailPattern` decides it with
    one left-to-right scan and is proved equal to it. */
module EmailPattern {
  import opened Wrappers

  /** ECMAScript's `\s` class: the white-space and line-terminator code points. */
  predicate IsSpace(c: char) {
    || c == ' ' || c == '\t' || c == '\n' || c == '\U{000B}' || c == '\U{000C}' || c == '\r'
    || c == '\U{00A0}' || c == '\U{1680}' || ('\U{2000}' <= c <= '\U{200A}')
    || c == '\U{2028}' || c == '\U{2029}' || c == '\U{202F}' || c == '\U{205F}'
    || c == '\U{3000}' || c == '\U{FEFF}'
  }

  /** s[i..j] is one match of `\S+`: non-empty, no white space. */
  ghost predicate NonSpaceRun(s: string, i: int, j: int) {
    0 <= i < j <= |s| && forall k :: i <= k < j ==> !IsSpace(s[k])
  }

  /** `\S+@\S+\.\S+` matches s[i..e], with its '@' at a and its '.' at d. */
  ghost predicate MatchAt(s: string, i: int, a: int, d: int, e: int) {
    && NonSpaceRun(s, i, a) && a < |s| && s[a] == '@'
    && NonSpaceRun(s, a + 1, d) && d < |s| && s[d] == '.'
    && NonSpaceRun(s, d + 1, e)
  }

  /** The unanchored `test`: some substring of s matches. */
  ghost predicate Matches(s: string) {
    exists i, a, d, e :: MatchAt(s, i, a, d, e)
  }

  /** Every match puts its '.' at index n or later. */
  ghost predicate NoMatchBefore(s: string, n: int) {
    forall i, a, d, e :: MatchAt(s, i, a, d, e) ==> n <= d
  }

  /** What the scanner knows after reading s[..n]: s[runStart..n] is the
      longest space-free stretch ending at n, firstAt is the first '@' in it
      that has a character of the stretch before it, and no match has its
      '.' before n. */
  ghost predicate ScanState(s: string, n: nat, runStart: nat, firstAt: Option<nat>) {
    && runStart <= n <= |s|
    && (forall k :: runStart <= k < n ==> !IsSpace(s[k]))
    && (0 < runStart ==> IsSpace(s[runStart - 1]))
    && (firstAt.Some? ==> runStart < firstAt.value < n && s[firstAt.value] == '@')
    && (forall k :: runStart < k < n && (firstAt.None? || k < firstAt.value) ==> s[k] != '@')
    && NoMatchBefore(s, n)
  }

  /** The '.' test at n: an earlier '@' of the stretch, at least one
      character between them, and a non-space character after the '.'. */
  predicate DotCompletes(s: string, n: nat, firstAt: Option<nat>)
    requires n < |s|
  {
    s[n] == '.' && firstAt.Some? && firstAt.value + 1 < n && n + 1 < |s| && !IsSpace(s[n + 1])
  }

  /** A match whose '.' is at n passes the '.' test at n. */
  lemma MatchEndingAtCompletes(s: string, n: nat, runStart: nat, firstAt: Option<nat>)
    requires ScanState(s, n, runStart, firstAt)
    requires n < |s| && !IsSpace(s[n])
    ensures forall i, a, e :: MatchAt(s, i, a, n, e) ==> DotCompletes(s, n, firstAt)
  {
    // s[i..n+1] is space-free, so the stretch read so far starts at or
    // before i; its '@' at a makes firstAt present and no later than a.
  }

  /** Scans s from index n on; true exactly when the pattern occurs in s. */
  function Scan(s: string, n: nat, runStart: nat, firstAt: Option<nat>): (r: bool)
    requires ScanState(s, n, runStart, firstAt)
    ensures r <==> Matches(s)
    decreases |s| - n
  {
    if n == |s| then
      false
    else if IsSpace(s[n]) then
      Scan(s, n + 1, n + 1, None)
    else if DotCompletes(s, n, firstAt) then
      assert MatchAt(s, firstAt.value - 1, firstAt.value, n, n + 2);
      true
    else
      MatchEndingAtCompletes(s, n, runStart, firstAt);
      var at := if firstAt.None? && s[n] == '@' && runStart < n then Some(n) else firstAt;
      Scan(s, n + 1, runStart, at)
  }

  /** `/\S+@\S+\.\S+/.test(s)` */
  function MatchesEmailPattern(s: string): (r: bool)
    ensures r <==> Matches(s)
  {
    Scan(s, 0, 0, None)
  }

  /** Sample inputs on both sides of the pattern. The rejections are
      decided by running the scanner, whose contract carries them over to
      `Matches`. */
  lemma {:induction false} Samples()
    ensures Matches("you@example.com")
    ensures Matches("say hi to a@b.c!")
    ensures !Matches("")
    ensures !MatchesEmailPattern("a@b")
    ensures !MatchesEmailPattern("a @b.c")
    ensures !MatchesEmailPattern("a@b. c")
    ensures !MatchesEmailPattern("@b.c")
    ensures !Matches("a@b") && !Matches("a @b.c") && !Matches("a@b. c") && !Matches("@b.c")
  {
    assert MatchAt("you@example.com", 0, 3, 11, 15);
    assert MatchAt("say hi to a@b.c!", 10, 11, 13, 16);
  }
}
