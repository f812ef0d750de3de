/**
  The display-name format check of the Verify button: the name must match
  the regular expression `RA_\d+_.+` under a match that is anchored at the
  start only. The name begins with the literal `RA_`, then one or more
  digits, then `_`, then at least one character other than a newline; any
  text may follow.

  Digits are the ASCII digits '0'..'9' (see README, "Left out").
 */
module DisplayNameFormat {

  /** The literal the pattern starts with; matching is case sensitive. */
  const Prefix: string := "RA_"

  predicate IsDigit(c: char) {
    '0' <= c <= '9'
  }

  ghost predicate AllDigits(s: string) {
    forall i :: 0 <= i < |s| ==> IsDigit(s[i])
  }

  /** Reference reading of the pattern: the digit run occupies s[3..k],
      the separator '_' sits at k, and the character at k + 1 is the first
      one matched by `.+`. */
  ghost predicate ConformsAt(s: string, k: int) {
    && 3 < k
    && k + 1 < |s|
    && s[..3] == Prefix
    && AllDigits(s[3..k])
    && s[k] == '_'
    && s[k + 1] != '\n'
  }

  /** The set of names the regular expression matches from the start. */
  ghost predicate Conforms(s: string) {
    exists k :: ConformsAt(s, k)
  }

  /** The end of the maximal run of digits that starts at index i. */
  function DigitRunEnd(s: string, i: nat): (j: nat)
    requires i <= |s|
    ensures i <= j <= |s|
    ensures forall t :: i <= t < j ==> IsDigit(s[t])
    ensures j == |s| || !IsDigit(s[j])
    decreases |s| - i
  {
    if i < |s| && IsDigit(s[i]) then DigitRunEnd(s, i + 1) else i
  }

  /** The executable check: a greedy scan of the digit run followed by the
      two single-character tests. Accepts exactly the conforming names. */
  function Matches(s: string): (ok: bool)
    ensures ok <==> Conforms(s)
  {
    if |s| < 3 || s[..3] != Prefix then
      false
    else
      var k := DigitRunEnd(s, 3);
      var ok := 3 < k && k + 1 < |s| && s[k] == '_' && s[k + 1] != '\n';
      assert ok ==> ConformsAt(s, k);
      ok
  }

  /** The match is anchored at the start only: text appended to an accepted
      name never makes it rejected. */
  lemma {:induction false} TrailingTextAccepted(s: string, t: string)
    requires Matches(s)
    ensures Matches(s + t)
  {
    var k :| ConformsAt(s, k);
    var u := s + t;
    assert u[..3] == s[..3];
    assert u[3..k] == s[3..k];
    assert ConformsAt(u, k);
  }

  /** Any name of the shape RA_<digits>_<c><rest> with c not a newline is
      accepted, whatever the rest is. */
  lemma {:induction false} ShapeAccepted(digits: string, c: char, rest: string)
    requires |digits| > 0 && AllDigits(digits)
    requires c != '\n'
    ensures Matches(Prefix + digits + "_" + [c] + rest)
  {
    var s := Prefix + digits + "_" + [c] + rest;
    var k := 3 + |digits|;
    assert s[..3] == Prefix;
    assert s[3..k] == digits;
    assert s[k] == '_';
    assert s[k + 1] == c;
    assert ConformsAt(s, k);
  }

  /** Every accepted name splits into that shape. */
  lemma {:induction false} AcceptedHasShape(s: string)
    requires Matches(s)
    ensures exists digits, c, rest ::
      && |digits| > 0 && AllDigits(digits) && c != '\n'
      && s == Prefix + digits + "_" + [c] + rest
  {
    var k :| ConformsAt(s, k);
    var digits, c, rest := s[3..k], s[k + 1], s[k + 2..];
    assert s == Prefix + digits + "_" + [c] + rest;
  }

  /** Names the check refuses: a missing suffix, the wrong case, an empty
      digit run, a non-digit run, the empty name, and a newline right after
      the separator. */
  lemma RejectedExamples()
    ensures !Matches("RA_12_")
    ensures !Matches("ra_1_x")
    ensures !Matches("RA__x")
    ensures !Matches("RA_x_y")
    ensures !Matches("")
    ensures !Matches("RA_1_\nx")
    ensures !Matches("janedoe")
  {
    assert "ra_1_x"[..3][0] != Prefix[0];
  }

  /** Names the check accepts, including trailing text after the first
      suffix character. */
  lemma AcceptedExamples()
    ensures Matches("RA_42_janedoe")
    ensures Matches("RA_7_bob")
    ensures Matches("RA_1_x\ny")
    ensures Matches("RA_007_a b_c")
  {
  }
}
