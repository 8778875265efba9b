/** The regular expressions by which activity-ops.ts and events-ops.ts recognise credentials.
    Both begin with a word boundary and ignore case, for ASCII letters. */
module TokenShape {
  import opened Text

  const REDACTED := "[redacted]"
  const ELLIPSIS := '\U{2026}'

  /** A fixed part of the expression, written in lower case. */
  predicate NameAt(s: string, name: string, i: nat) {
    i + |name| <= |s| && forall k :: 0 <= k < |name| ==> SameLetter(s[i + k], name[k])
  }

  predicate SameLetter(c: char, letter: char) {
    c == letter || ('A' <= c <= 'Z' && c as int + 32 == letter as int)
  }

  /** At least n characters of a class, from i on. */
  predicate Run(s: string, i: nat, n: nat, class_: char -> bool) {
    i + n <= |s| && forall k :: i <= k < i + n ==> class_(s[k])
  }

  /** [A-Za-z0-9] */
  predicate AlphaNum(c: char) {
    IsWordChar(c) && c != '_'
  }

  /** [A-Za-z0-9_-] */
  predicate KeyChar(c: char) {
    IsWordChar(c) || c == '-'
  }

  /** [A-Za-z0-9._\-+=/] */
  predicate BearerChar(c: char) {
    KeyChar(c) || c == '.' || c == '+' || c == '=' || c == '/'
  }

  /** A name followed by n characters of a class. */
  predicate KeyAt(s: string, name: string, n: nat, class_: char -> bool, i: nat) {
    NameAt(s, name, i) && Run(s, i + |name|, n, class_)
  }

  /** Bearer\s+[A-Za-z0-9._\-+=/]{8,} */
  predicate BearerAt(s: string, i: nat) {
    NameAt(s, "bearer", i) && exists n :: 1 <= n <= |s| && Spaced(s, i, n)
  }

  /** n blanks and a credential behind the word at i. */
  predicate Spaced(s: string, i: nat, n: nat) {
    Run(s, i + 6, n, IsSpace) && Run(s, i + 6 + n, 8, BearerChar)
  }

  /** \b, in front of a word character. */
  predicate WordStart(s: string, i: nat) {
    i == 0 || (i <= |s| && !IsWordChar(s[i - 1]))
  }

  predicate SkAt(s: string, i: nat) {
    KeyAt(s, "sk-", 8, KeyChar, i)
  }

  predicate TokenAt(s: string, i: nat) {
    WordStart(s, i) && (SkAt(s, i) || BearerAt(s, i))
  }

  /** TOKEN_SHAPE of activity-ops.ts. */
  predicate HasToken(s: string) {
    exists i :: 0 <= i < |s| && TokenAt(s, i)
  }

  predicate EventTokenAt(s: string, i: nat) {
    && WordStart(s, i)
    && (|| SkAt(s, i) || BearerAt(s, i)
        || KeyAt(s, "gsk_", 1, AlphaNum, i) || KeyAt(s, "xai-", 1, AlphaNum, i)
        || KeyAt(s, "aiza", 1, KeyChar, i) || KeyAt(s, "wh_", 1, AlphaNum, i))
  }

  /** TOKEN_SHAPE of events-ops.ts. */
  predicate HasEventToken(s: string) {
    exists i :: 0 <= i < |s| && EventTokenAt(s, i)
  }

  /** What stands in the place of a credential is none. */
  lemma RedactedIsClean()
    ensures !HasToken(REDACTED) && !HasEventToken(REDACTED)
  {
    forall i | 0 <= i < |REDACTED|
      ensures !TokenAt(REDACTED, i) && !EventTokenAt(REDACTED, i)
    {
      if WordStart(REDACTED, i) {
        assert i <= 1 && (REDACTED[i] == '[' || REDACTED[i] == 'r');
        OtherLetter(REDACTED, "sk-", i);
        OtherLetter(REDACTED, "gsk_", i);
        OtherLetter(REDACTED, "xai-", i);
        OtherLetter(REDACTED, "aiza", i);
        OtherLetter(REDACTED, "wh_", i);
        OtherLetter(REDACTED, "bearer", i);
      }
    }
  }

  lemma OtherLetter(s: string, name: string, i: nat)
    requires i < |s| && name != "" && !SameLetter(s[i], name[0])
    ensures !NameAt(s, name, i)
  {
    var k := 0;
    assert !SameLetter(s[i + k], name[k]);
  }

  lemma RunHas(s: string, i: nat, n: nat, class_: char -> bool, k: nat)
    requires Run(s, i, n, class_) && k < |s|
    ensures i <= k < i + n ==> class_(s[k])
  {
  }

  lemma RunBeforeEnd(p: string, q: string, i: nat, n: nat, class_: char -> bool)
    requires p <= q && n > 0 && Run(p + [ELLIPSIS], i, n, class_) && !class_(ELLIPSIS)
    ensures Run(q, i, n, class_)
  {
    var s := p + [ELLIPSIS];
    assert s[|p|] == ELLIPSIS;
    RunHas(s, i, n, class_, |p|);
    forall k | i <= k < i + n
      ensures class_(q[k])
    {
      assert q[k] == p[k] == s[k];
    }
  }

  lemma NameBeforeEnd(p: string, q: string, name: string, i: nat)
    requires p <= q && NameAt(p + [ELLIPSIS], name, i) && i + |name| <= |p|
    ensures NameAt(q, name, i)
  {
    forall k | 0 <= k < |name|
      ensures SameLetter(q[i + k], name[k])
    {
      assert q[i + k] == p[i + k] == (p + [ELLIPSIS])[i + k];
    }
  }

  /** Cutting a text short, and marking the cut, shows no credential that was not there. */
  lemma CutShowsNoToken(p: string, s: string)
    requires p <= s
    ensures HasToken(p + [ELLIPSIS]) ==> HasToken(s)
    ensures HasToken(p) ==> HasToken(s)
  {
    var t := p + [ELLIPSIS];
    if HasToken(t) {
      var i :| 0 <= i < |t| && TokenAt(t, i);
      TokenBeforeEnd(p, s, i);
    }
    if HasToken(p) {
      var i :| 0 <= i < |p| && TokenAt(p, i);
      TokenGrows(p, [ELLIPSIS], i);
      TokenBeforeEnd(p, s, i);
    }
  }

  /** The mark of a cut neither hides nor makes a credential. */
  lemma MarkAddsNoToken(p: string)
    ensures HasToken(p + [ELLIPSIS]) <==> HasToken(p)
  {
    CutShowsNoToken(p, p);
    if HasToken(p) {
      var i :| 0 <= i < |p| && TokenAt(p, i);
      TokenGrows(p, [ELLIPSIS], i);
    }
  }

  lemma TokenGrows(p: string, x: string, i: nat)
    requires i < |p| && TokenAt(p, i)
    ensures TokenAt(p + x, i)
  {
    var t := p + x;
    assert forall k :: 0 <= k < |p| ==> t[k] == p[k];
    if BearerAt(p, i) {
      var n :| 1 <= n <= |p| && Spaced(p, i, n);
      assert Spaced(t, i, n);
    }
  }

  lemma TokenBeforeEnd(p: string, q: string, i: nat)
    requires p <= q && TokenAt(p + [ELLIPSIS], i)
    ensures i < |q| && TokenAt(q, i)
  {
    var t := p + [ELLIPSIS];
    if SkAt(t, i) {
      RunBeforeEnd(p, q, i + 3, 8, KeyChar);
      NameBeforeEnd(p, q, "sk-", i);
    } else {
      var n :| 1 <= n <= |t| && Spaced(t, i, n);
      RunBeforeEnd(p, q, i + 6, n, IsSpace);
      RunBeforeEnd(p, q, i + 6 + n, 8, BearerChar);
      NameBeforeEnd(p, q, "bearer", i);
      assert Spaced(q, i, n);
    }
    assert i > 0 ==> q[i - 1] == t[i - 1];
  }
}
