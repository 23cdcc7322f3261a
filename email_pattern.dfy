/** The e-mail pattern registration checks:
      ^\w+([\.-]?\w+)*@\w+([\.-]?\w+)*(\.\w{2,3})+$
    written as predicates over the string, one per part of the pattern. */
module EmailPattern {
  import opened Text

  predicate IsSeparator(c: char) { c == '.' || c == '-' }

  /** `\w+([\.-]?\w+)*`: word characters, with single dots or dashes between
      them, starting and ending with a word character. */
  predicate Words(s: string) {
    s != [] && IsWordChar(s[0]) && IsWordChar(s[|s| - 1])
    && (forall k :: 0 <= k < |s| ==> IsWordChar(s[k]) || IsSeparator(s[k]))
    && (forall k :: 0 <= k < |s| - 1 ==> IsWordChar(s[k]) || IsWordChar(s[k + 1]))
  }

  /** `(\.\w{2,3})+` up to the end of the string: one or more groups of a dot
      and two or three word characters. */
  predicate Suffixes(s: string)
    decreases |s|
  {
    (|s| >= 3 && s[0] == '.' && IsWordChar(s[1]) && IsWordChar(s[2])
      && (|s| == 3 || Suffixes(s[3..])))
    || (|s| >= 4 && s[0] == '.' && IsWordChar(s[1]) && IsWordChar(s[2]) && IsWordChar(s[3])
      && (|s| == 4 || Suffixes(s[4..])))
  }

  /** The part after the `@`: `\w+([\.-]?\w+)*(\.\w{2,3})+$`. */
  predicate Domain(s: string) {
    exists j :: 0 < j < |s| && Words(s[..j]) && Suffixes(s[j..])
  }

  /** `emailRegex.test(e)`. */
  predicate MatchesEmail(e: string) {
    exists i :: 0 < i < |e| && e[i] == '@' && Words(e[..i]) && Domain(e[i + 1..])
  }

  predicate NoAt(s: string) { forall k :: 0 <= k < |s| ==> s[k] != '@' }

  lemma {:induction false} SuffixesNoAt(s: string)
    requires Suffixes(s)
    ensures NoAt(s)
    decreases |s|
  {
    if |s| >= 3 && s[0] == '.' && IsWordChar(s[1]) && IsWordChar(s[2]) && (|s| == 3 || Suffixes(s[3..])) {
      if |s| > 3 {
        SuffixesNoAt(s[3..]);
        assert forall k :: 3 <= k < |s| ==> s[k] == s[3..][k - 3];
      }
    } else {
      if |s| > 4 {
        SuffixesNoAt(s[4..]);
        assert forall k :: 4 <= k < |s| ==> s[k] == s[4..][k - 4];
      }
    }
  }

  lemma DomainNoAt(s: string)
    requires Domain(s)
    ensures NoAt(s)
  {
    var j :| 0 < j < |s| && Words(s[..j]) && Suffixes(s[j..]);
    SuffixesNoAt(s[j..]);
    assert s == s[..j] + s[j..];
    forall k | 0 <= k < |s| ensures s[k] != '@' {
      if k < j {
        assert s[k] == s[..j][k];
      } else {
        assert s[k] == s[j..][k - j];
      }
    }
  }

  lemma WordsNoAt(s: string)
    requires Words(s)
    ensures NoAt(s)
  {
  }

  /** Two `@`-free strings joined by one `@` hold exactly one. */
  lemma JoinedByOneAt(a: string, b: string)
    requires NoAt(a) && NoAt(b)
    ensures multiset(a + ['@'] + b)['@'] == 1
  {
    assert '@' !in a && '@' !in b;
    assert multiset(a + ['@'] + b) == multiset(a) + multiset{'@'} + multiset(b);
  }

  lemma SplitAround(e: string, i: nat)
    requires i < |e|
    ensures e == e[..i] + [e[i]] + e[i + 1..]
  {
  }

  /** An accepted address contains exactly one `@`. */
  lemma EmailHasOneAt(e: string)
    requires MatchesEmail(e)
    ensures multiset(e)['@'] == 1
  {
    var i :| 0 < i < |e| && e[i] == '@' && Words(e[..i]) && Domain(e[i + 1..]);
    WordsNoAt(e[..i]);
    DomainNoAt(e[i + 1..]);
    SplitAround(e, i);
    JoinedByOneAt(e[..i], e[i + 1..]);
  }

  /** The last group of `(\.\w{2,3})+`: a dot followed by two or three word
      characters that run to the end. */
  lemma {:induction false} LastSuffix(s: string) returns (k: nat)
    requires Suffixes(s)
    ensures k < |s| && s[k] == '.' && 2 <= |s| - 1 - k <= 3
    ensures forall m :: k < m < |s| ==> IsWordChar(s[m])
    decreases |s|
  {
    if |s| >= 3 && s[0] == '.' && IsWordChar(s[1]) && IsWordChar(s[2]) && (|s| == 3 || Suffixes(s[3..])) {
      if |s| == 3 {
        k := 0;
      } else {
        var k' := LastSuffix(s[3..]);
        k := k' + 3;
        assert forall m :: 3 <= m < |s| ==> s[m] == s[3..][m - 3];
      }
    } else {
      if |s| == 4 {
        k := 0;
      } else {
        var k' := LastSuffix(s[4..]);
        k := k' + 4;
        assert forall m :: 4 <= m < |s| ==> s[m] == s[4..][m - 4];
      }
    }
  }

  /** In an accepted address the text after the last `.` is two or three
      word characters. */
  lemma EmailEndsWithSuffix(e: string) returns (k: nat)
    requires MatchesEmail(e)
    ensures k < |e| && e[k] == '.' && 2 <= |e| - 1 - k <= 3
    ensures forall m :: k < m < |e| ==> IsWordChar(e[m])
  {
    var i :| 0 < i < |e| && e[i] == '@' && Words(e[..i]) && Domain(e[i + 1..]);
    var d := e[i + 1..];
    var j :| 0 < j < |d| && Words(d[..j]) && Suffixes(d[j..]);
    var t := LastSuffix(d[j..]);
    k := i + 1 + j + t;
    assert forall m :: i + 1 + j <= m < |e| ==> e[m] == d[j..][m - (i + 1 + j)];
  }

  lemma DomainOfParts(d: string, j: nat)
    requires 0 < j < |d| && Words(d[..j]) && Suffixes(d[j..])
    ensures Domain(d)
  {
  }

  lemma MatchOfParts(e: string, i: nat)
    requires 0 < i < |e| && e[i] == '@' && Words(e[..i]) && Domain(e[i + 1..])
    ensures MatchesEmail(e)
  {
  }

  lemma ExampleParts()
    ensures Words("asha") && Words("mail") && Suffixes(".com")
  {
  }

  lemma ExampleSlices()
    ensures "asha@mail.com"[..4] == "asha" && "asha@mail.com"[4] == '@'
    ensures "asha@mail.com"[5..] == "mail.com"
    ensures "mail.com"[..4] == "mail" && "mail.com"[4..] == ".com"
  {
  }

  /** A typical address is accepted. */
  lemma AcceptsPlainAddress()
    ensures MatchesEmail("asha@mail.com")
  {
    ExampleParts();
    ExampleSlices();
    DomainOfParts("mail.com", 4);
    MatchOfParts("asha@mail.com", 4);
  }

  /** Text with no `@` is rejected. */
  lemma RejectsWithoutAt()
    ensures !MatchesEmail("not-an-email")
  {
    var e := "not-an-email";
    assert NoAt(e) by {
      forall i | 0 <= i < |e| ensures e[i] != '@' {
        if i < 6 { } else { }
      }
    }
    NoAtRejected(e);
  }

  lemma NoAtRejected(e: string)
    requires NoAt(e)
    ensures !MatchesEmail(e)
  {
  }

  /** A one-letter top-level part is rejected. */
  lemma RejectsShortSuffix()
    ensures !MatchesEmail("a@b.c")
  {
    var e := "a@b.c";
    forall i | 0 < i < |e| && e[i] == '@' ensures !Domain(e[i + 1..]) {
      assert i == 1;
      var d := e[2..];
      assert d == "b.c";
      forall j | 0 < j < |d| ensures !Suffixes(d[j..]) {
        assert d[j..] == ".c" || d[j..] == "c";
      }
    }
  }
}
