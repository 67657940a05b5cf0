/**
 * The e-mail check shared by js/register.js, js/profile.js and script.js:
 * the regular expression `^[^\s@]+@[^\s@]+\.[^\s@]+$`.
 */
module EmailAddress {
  import opened Text

  /** A run of characters the class `[^\s@]` accepts: no white space, no '@'. */
  predicate Plain(s: string) {
    forall i :: 0 <= i < |s| ==> !IsJsSpace(s[i]) && s[i] != '@'
  }

  /**
   * The regular expression, read as a decomposition: a plain run, '@', a plain
   * run, '.', a plain run, each run non-empty.
   */
  predicate EmailPattern(s: string) {
    exists at, dot :: 0 < at && at + 1 < dot && dot + 1 < |s| && s[at] == '@' && s[dot] == '.'
      && Plain(s[..at]) && Plain(s[at + 1..dot]) && Plain(s[dot + 1..])
  }

  /** The first index of `c` in `s`, or -1. */
  function IndexOf(s: string, c: char): (i: int)
    ensures -1 <= i < |s|
    ensures i == -1 <==> forall k :: 0 <= k < |s| ==> s[k] != c
    ensures 0 <= i ==> s[i] == c && forall k :: 0 <= k < i ==> s[k] != c
    decreases |s|
  {
    if s == [] then -1
    else if s[0] == c then 0
    else
      var j := IndexOf(s[1..], c);
      if j == -1 then -1 else j + 1
  }

  /** `t` has a '.' that is neither its first nor its last character. */
  predicate HasInnerDot(t: string) {
    exists j :: 0 < j < |t| - 1 && t[j] == '.'
  }

  /** `isValidEmail`: split at the first '@' and check the two sides. */
  predicate IsValidEmail(email: string) {
    var at := IndexOf(email, '@');
    && at > 0
    && Plain(email[..at])
    && Plain(email[at + 1..])
    && HasInnerDot(email[at + 1..])
  }

  lemma ValidEmailHasPattern(email: string)
    requires IsValidEmail(email)
    ensures EmailPattern(email)
  {
    var at := IndexOf(email, '@');
    var t := email[at + 1..];
    var j :| 0 < j < |t| - 1 && t[j] == '.';
    var dot := at + 1 + j;
    assert email[dot] == '.';
    assert email[at + 1..dot] == t[..j];
    assert email[dot + 1..] == t[j + 1..];
  }

  lemma PatternIsValidEmail(email: string, at: nat, dot: nat)
    requires 0 < at && at + 1 < dot && dot + 1 < |email| && email[at] == '@' && email[dot] == '.'
    requires Plain(email[..at]) && Plain(email[at + 1..dot]) && Plain(email[dot + 1..])
    ensures IsValidEmail(email)
  {
    forall k | 0 <= k < at
      ensures email[k] != '@'
    {
      assert email[..at][k] == email[k];
    }
    assert IndexOf(email, '@') == at;
    var t := email[at + 1..];
    forall k | 0 <= k < |t|
      ensures !IsJsSpace(t[k]) && t[k] != '@'
    {
      if k < dot - at - 1 {
        assert t[k] == email[at + 1..dot][k];
      } else if k > dot - at - 1 {
        assert t[k] == email[dot + 1..][k - (dot - at)];
      }
    }
    assert t[dot - at - 1] == '.';
  }

  /**
   * The check accepts exactly the texts the regular expression matches: one
   * '@' with a plain run before it, and after it a plain run holding a '.'
   * that is neither first nor last.
   */
  lemma IsValidEmailMatchesPattern(email: string)
    ensures IsValidEmail(email) <==> EmailPattern(email)
  {
    if IsValidEmail(email) {
      ValidEmailHasPattern(email);
    }
    if EmailPattern(email) {
      var at, dot :| 0 < at && at + 1 < dot && dot + 1 < |email| && email[at] == '@' && email[dot] == '.'
        && Plain(email[..at]) && Plain(email[at + 1..dot]) && Plain(email[dot + 1..]);
      PatternIsValidEmail(email, at, dot);
    }
  }

  /** A valid address has no white space at either end, so trimming it first changes nothing. */
  lemma ValidEmailIsTrimmed(email: string)
    requires IsValidEmail(email)
    ensures Trim(email) == email
  {
    var at := IndexOf(email, '@');
    assert email == email[..at] + [email[at]] + email[at + 1..];
    forall i | 0 <= i < |email|
      ensures !IsJsSpace(email[i])
    {
      if i < at {
        assert email[..at][i] == email[i];
      } else if i > at {
        assert email[at + 1..][i - at - 1] == email[i];
      }
    }
  }
}
