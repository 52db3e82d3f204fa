/**
 * The deployed-address check of `generateInterface`: the regular expression
 * `^(0x)+[0-9a-fA-F]{40}$` with the `i` flag.
 *
 * Because of the `i` flag the group also matches `0X`; because of `+` it may repeat.
 * `$` without the `m` flag matches only at the very end of the input.
 */
module Address {

  /** `[0-9a-fA-F]`; the `i` flag adds nothing, both cases are already listed. */
  predicate IsHexDigit(c: char) {
    ('0' <= c <= '9') || ('a' <= c <= 'f') || ('A' <= c <= 'F')
  }

  /** The group `(0x)` under the `i` flag: `0` then `x` or `X`. */
  predicate IsPrefixAt(s: string, i: int)
    requires 0 <= i && i + 2 <= |s|
  {
    s[i] == '0' && (s[i + 1] == 'x' || s[i + 1] == 'X')
  }

  /** `[0-9a-fA-F]{40}$`: exactly forty hex digits and nothing after them. */
  predicate IsHexTail(t: string) {
    |t| == 40 && forall i :: 0 <= i < |t| ==> IsHexDigit(t[i])
  }

  /**
   * The pattern read as a backtracking matcher does: one `(0x)` group, then either the
   * hex tail or another round of the group.
   */
  predicate MatchesPattern(s: string)
    ensures MatchesPattern(s) ==> |s| >= 42 && |s| % 2 == 0 && IsHexTail(s[|s| - 40..])
    decreases |s|
  {
    && |s| >= 2
    && IsPrefixAt(s, 0)
    && (IsHexTail(s[2..]) || MatchesPattern(s[2..]))
  }

  /**
   * The same language in closed form: an even, non-empty run of `0x`/`0X` pairs followed
   * by exactly forty hex digits.
   */
  predicate IsAddress(s: string)
    ensures IsAddress(s) ==> |s| >= 42 && |s| % 2 == 0 && IsPrefixAt(s, 0) && IsHexTail(s[|s| - 40..])
  {
    var p := |s| - 40;
    && p >= 2
    && p % 2 == 0
    && (forall i :: 0 <= i < p && i % 2 == 0 ==> IsPrefixAt(s, i))
    && (forall i :: p <= i < |s| ==> IsHexDigit(s[i]))
  }

  /** The matcher accepts exactly the closed-form addresses. */
  lemma {:induction false} MatchesPatternIff(s: string)
    ensures MatchesPattern(s) <==> IsAddress(s)
    decreases |s|
  {
    if |s| >= 2 {
      var rest := s[2..];
      MatchesPatternIff(rest);
      if MatchesPattern(s) {
        if IsHexTail(rest) {
          assert |s| == 42;
          forall i | 2 <= i < |s| ensures IsHexDigit(s[i]) { assert s[i] == rest[i - 2]; }
        } else {
          var p := |s| - 40;
          forall i | 0 <= i < p && i % 2 == 0 ensures IsPrefixAt(s, i) {
            if i > 0 {
              assert IsPrefixAt(rest, i - 2);
              assert s[i] == rest[i - 2] && s[i + 1] == rest[i - 1];
            }
          }
          forall i | p <= i < |s| ensures IsHexDigit(s[i]) { assert s[i] == rest[i - 2]; }
        }
      }
      if IsAddress(s) {
        var p := |s| - 40;
        assert IsPrefixAt(s, 0);
        if p == 2 {
          forall i | 0 <= i < |rest| ensures IsHexDigit(rest[i]) { assert rest[i] == s[i + 2]; }
          assert IsHexTail(rest);
        } else {
          forall i | 0 <= i < p - 2 && i % 2 == 0 ensures IsPrefixAt(rest, i) {
            assert IsPrefixAt(s, i + 2);
            assert rest[i] == s[i + 2] && rest[i + 1] == s[i + 3];
          }
          forall i | p - 2 <= i < |rest| ensures IsHexDigit(rest[i]) { assert rest[i] == s[i + 2]; }
          assert IsAddress(rest);
        }
      }
    }
  }

  /**
   * With a single `0x` prefix the number of hex digits must be exactly forty:
   * thirty-nine or forty-one are rejected.
   */
  lemma SinglePrefixNeedsFortyDigits(h: string)
    requires forall i :: 0 <= i < |h| ==> IsHexDigit(h[i])
    ensures IsAddress("0x" + h) <==> |h| == 40
  {
    var s := "0x" + h;
    if |h| > 40 {
      // a second group would need an `x` where the digits are
      assert s[3] == h[1] && IsHexDigit(h[1]);
      assert !IsPrefixAt(s, 2);
    }
    if |h| == 40 {
      forall i | 2 <= i < |s| ensures IsHexDigit(s[i]) { assert s[i] == h[i - 2]; }
    }
  }

  /** The prefix may repeat, in either case: `0x0X` followed by forty hex digits is accepted. */
  lemma RepeatedPrefixAccepted(h: string)
    requires IsHexTail(h)
    ensures IsAddress("0x0X" + h)
    ensures IsAddress("0X" + h)
  {
  }

  /** A character that is neither a hex digit nor part of a prefix makes the address invalid. */
  lemma ForeignCharRejected(s: string, i: int)
    requires 0 <= i < |s| && !IsHexDigit(s[i]) && s[i] != 'x' && s[i] != 'X'
    ensures !IsAddress(s)
  {
    var p := |s| - 40;
    if i < p {
      if i % 2 == 0 {
        assert !IsPrefixAt(s, i);
      } else {
        assert !IsPrefixAt(s, i - 1);
      }
    }
  }
}
