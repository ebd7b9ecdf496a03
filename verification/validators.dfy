/** The two field-shape checks both member forms apply: the e-mail pattern
    `^[^\s@]+@[^\s@]+\.[^\s@]+$` and the phone pattern `^[0-9+\-\s()]{10,15}$`. */
module Validators {
  import opened Text
  import opened Seqs

  /** The characters JavaScript's `\s` class matches. */
  predicate IsJsSpace(c: char) {
    || c == '\t' || c == '\n' || c == '\U{000B}' || c == '\U{000C}' || c == '\r'
    || c == ' ' || c == '\U{00A0}' || c == '\U{1680}'
    || ('\U{2000}' <= c <= '\U{200A}')
    || c == '\U{2028}' || c == '\U{2029}' || c == '\U{202F}' || c == '\U{205F}'
    || c == '\U{3000}' || c == '\U{FEFF}'
  }

  /** One character of the class `[^\s@]`. */
  predicate Plain(c: char) { !IsJsSpace(c) && c != '@' }

  predicate AllPlain(s: string) {
    forall i :: 0 <= i < |s| ==> Plain(s[i])
  }

  /** The e-mail pattern read as a split: `s[..a]`, `s[a+1..k]` and `s[k+1..]`
      are the three non-empty `[^\s@]+` runs, `s[a]` the '@' and `s[k]` the '.'. */
  ghost predicate EmailSplitAt(s: string, a: int, k: int) {
    && 0 < a && a + 1 < k && k + 1 < |s|
    && s[a] == '@' && s[k] == '.'
    && AllPlain(s[..a]) && AllPlain(s[a + 1..k]) && AllPlain(s[k + 1..])
  }

  ghost predicate MatchesEmailPattern(s: string) {
    exists a, k :: EmailSplitAt(s, a, k)
  }

  predicate HasNoSpace(s: string) {
    forall i :: 0 <= i < |s| ==> !IsJsSpace(s[i])
  }

  /** `s[a]` is the one '@' of `s`. */
  predicate OnlyAtSignAt(s: string, a: int) {
    0 <= a < |s| && s[a] == '@' && forall j :: 0 <= j < |s| && j != a ==> s[j] != '@'
  }

  /** The e-mail check as the form applies it: no white space, exactly one '@'
      with text before it, and a '.' after the '@' with text on both sides. */
  predicate ValidEmail(s: string)
    ensures ValidEmail(s) <==> MatchesEmailPattern(s)
  {
    var ok := HasNoSpace(s)
      && exists a | 0 < a < |s| ::
           OnlyAtSignAt(s, a) && exists k | a + 1 < k < |s| - 1 :: s[k] == '.';
    EmailCheckMatchesPattern(s);
    ok
  }

  lemma EmailCheckMatchesPattern(s: string)
    ensures (HasNoSpace(s)
      && exists a | 0 < a < |s| ::
           OnlyAtSignAt(s, a) && exists k | a + 1 < k < |s| - 1 :: s[k] == '.')
      <==> MatchesEmailPattern(s)
  {
    if HasNoSpace(s) && exists a | 0 < a < |s| ::
         OnlyAtSignAt(s, a) && exists k | a + 1 < k < |s| - 1 :: s[k] == '.' {
      var a :| 0 < a < |s| && OnlyAtSignAt(s, a) && exists k | a + 1 < k < |s| - 1 :: s[k] == '.';
      var k :| a + 1 < k < |s| - 1 && s[k] == '.';
      assert EmailSplitAt(s, a, k);
    }
    if MatchesEmailPattern(s) {
      var a, k :| EmailSplitAt(s, a, k);
      forall i | 0 <= i < |s| ensures Plain(s[i]) || i == a || i == k {
        if i < a {
          assert s[..a][i] == s[i];
        } else if a < i < k {
          assert s[a + 1..k][i - a - 1] == s[i];
        } else if k < i {
          assert s[k + 1..][i - k - 1] == s[i];
        }
      }
      assert OnlyAtSignAt(s, a);
    }
  }

  /** One character of the class `[0-9+\-\s()]`. */
  predicate PhoneChar(c: char) {
    IsDigit(c) || c == '+' || c == '-' || c == '(' || c == ')' || IsJsSpace(c)
  }

  /** The phone check: 10 to 15 characters, each a digit, '+', '-', '(', ')' or white space. */
  predicate ValidPhone(s: string) {
    10 <= |s| <= 15 && forall i :: 0 <= i < |s| ==> PhoneChar(s[i])
  }

  /** The chat link of an accepted number carries at most 15 digits, and
      carries every character of the number exactly when the number has no
      formatting characters. */
  lemma AcceptedPhoneLink(s: string)
    requires ValidPhone(s)
    ensures |WhatsAppHref(s)| <= |WhatsAppPrefix| + 15
    ensures |WhatsAppHref(s)| == |WhatsAppPrefix| + |s| <==> forall i :: 0 <= i < |s| ==> IsDigit(s[i])
  {
    FilterKeepsAll(s, IsDigit);
  }

  /** A number without a single digit strips to nothing. */
  lemma {:induction false} NoDigitsStripToNothing(s: string)
    requires forall i :: 0 <= i < |s| ==> !IsDigit(s[i])
    ensures DigitsOnly(s) == []
    decreases |s|
  {
    if s != [] {
      assert forall i :: 0 <= i < |s[1..]| ==> s[1..][i] == s[i + 1];
      NoDigitsStripToNothing(s[1..]);
    }
  }

  /** The check lets through a "number" made of punctuation only; its chat
      link is the bare prefix. */
  lemma AcceptedPhoneWithoutDigits()
    ensures ValidPhone("(---------)") && WhatsAppHref("(---------)") == WhatsAppPrefix
  {
    var s := "(---------)";
    assert forall i :: 0 <= i < |s| ==> s[i] == '(' || s[i] == '-' || s[i] == ')';
    NoDigitsStripToNothing(s);
  }

  lemma PhoneExamples()
    ensures ValidPhone("0812-3456-7890")
    ensures ValidPhone("+62 812 3456 78")
    ensures !ValidPhone("081234567")
    ensures !ValidPhone("0812345678901234")
    ensures !ValidPhone("0812 3456 78x")
  {
    var letter := "0812 3456 78x";
    assert !PhoneChar(letter[12]);
  }

  lemma EmailExamples()
    ensures ValidEmail("a@b.co")
    ensures !ValidEmail("a@b@c.d")
    ensures !ValidEmail("a@.bc")
    ensures !ValidEmail("a b@c.d")
  {
    assert EmailSplitAt("a@b.co", 1, 3);
    assert OnlyAtSignAt("a@b.co", 1);
    var twoAts := "a@b@c.d";
    assert twoAts[1] == '@' && twoAts[3] == '@';
    var spaced := "a b@c.d";
    assert IsJsSpace(spaced[1]);
  }
}
