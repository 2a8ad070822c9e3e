/** The email-format check of the lead handler: the anchored JavaScript regular
    expression `^[^\s@]+@[^\s@]+\.[^\s@]+$` (server.js line 25).

    Three views of the same language are given and proved to agree:
    - `Matches`: the regular expression itself, as "there are split points";
    - `WellFormed`: four plain conditions on the string;
    - `Scan`: a single left-to-right pass with no backtracking. */
module EmailRegex {

  /** `\s` of ECMAScript regular expressions: the WhiteSpace and
      LineTerminator code points (section 22.2.2.9 of ECMA-262). All of them
      lie in the Basic Multilingual Plane. */
  predicate IsSpace(c: char)
  {
    || c == '\t' || c == '\n' || c == '\U{0B}' || c == '\U{0C}' || c == '\r'
    || c == ' ' || c == '\U{A0}' || c == '\U{1680}'
    || ('\U{2000}' <= c <= '\U{200A}')
    || c == '\U{2028}' || c == '\U{2029}' || c == '\U{202F}' || c == '\U{205F}'
    || c == '\U{3000}' || c == '\U{FEFF}'
  }

  /** The character class `[^\s@]`. */
  predicate InClass(c: char)
  {
    c != '@' && !IsSpace(c)
  }

  /** The repetition `[^\s@]+`: one or more characters of the class. */
  predicate Run(s: string)
  {
    |s| > 0 && forall k :: 0 <= k < |s| ==> InClass(s[k])
  }

  /** The pattern matches `s` with its `@` at index `i` and its literal `.` at
      index `j`: `s == local + "@" + host + "." + tld` with three class runs. */
  predicate SplitAt(s: string, i: int, j: int)
  {
    && 0 < i && i + 1 < j && j + 1 < |s|
    && s[i] == '@' && s[j] == '.'
    && Run(s[..i]) && Run(s[i + 1..j]) && Run(s[j + 1..])
  }

  /** The anchored pattern matches the whole of `s` for some choice of split
      points; backtracking lets the matcher try every one of them. */
  predicate Matches(s: string)
  {
    exists i, j :: 0 < i < |s| && 0 < j < |s| && SplitAt(s, i, j)
  }

  /** No character of `s` is `\s`. */
  predicate NoSpace(s: string)
  {
    forall k :: 0 <= k < |s| ==> !IsSpace(s[k])
  }

  /** Index `a` holds the only `@` of `s`. */
  predicate OnlyAtAt(s: string, a: int)
  {
    0 <= a < |s| && s[a] == '@' && forall k :: 0 <= k < |s| && s[k] == '@' ==> k == a
  }

  /** The domain `s[a + 1..]` has a `.` that is neither its first nor its last
      character. */
  predicate InteriorDot(s: string, a: int)
  {
    exists d :: 0 <= d < |s| - 1 && a + 1 < d && s[d] == '.'
  }

  /** The four conditions the pattern amounts to: exactly one `@`, no
      whitespace, a non-empty local part, and a domain with an interior `.`. */
  predicate WellFormed(s: string)
  {
    && NoSpace(s)
    && exists a :: 0 < a < |s| && OnlyAtAt(s, a) && InteriorDot(s, a)
  }

  /** A match fixes the `@` and gives a dot strictly inside the domain. */
  lemma MatchesImpliesWellFormed(s: string, i: int, j: int)
    requires SplitAt(s, i, j)
    ensures NoSpace(s)
    ensures OnlyAtAt(s, i) && InteriorDot(s, i)
    ensures WellFormed(s)
  {
  }

  /** Conversely, the only `@` and an interior dot are valid split points. */
  lemma WellFormedImpliesMatches(s: string, a: int, d: int)
    requires NoSpace(s) && 0 < a && OnlyAtAt(s, a)
    requires a + 1 < d < |s| - 1 && s[d] == '.'
    ensures SplitAt(s, a, d)
    ensures Matches(s)
  {
  }

  /** The pattern accepts exactly the strings meeting the four conditions. */
  lemma MatchesIffWellFormed(s: string)
    ensures Matches(s) <==> WellFormed(s)
  {
    if Matches(s) {
      var i, j :| 0 < i < |s| && 0 < j < |s| && SplitAt(s, i, j);
      MatchesImpliesWellFormed(s, i, j);
    }
    if WellFormed(s) {
      var a :| 0 < a < |s| && OnlyAtAt(s, a) && InteriorDot(s, a);
      var d :| 0 <= d < |s| - 1 && a + 1 < d && s[d] == '.';
      WellFormedImpliesMatches(s, a, d);
    }
  }

  /** A single left-to-right pass deciding the pattern without backtracking:
      it stops at the first whitespace or second `@`, and otherwise remembers
      where the `@` was and whether a dot has been seen strictly inside the
      domain. */
  method Scan(s: string) returns (ok: bool)
    ensures ok <==> WellFormed(s)
    ensures ok <==> Matches(s)
  {
    MatchesIffWellFormed(s);
    var seenAt := false;
    var at := 0;
    var dot := false;
    var i := 0;
    while i < |s|
      invariant 0 <= i <= |s|
      invariant forall k :: 0 <= k < i ==> !IsSpace(s[k])
      invariant !seenAt ==> forall k :: 0 <= k < i ==> s[k] != '@'
      invariant seenAt ==> 0 <= at < i && s[at] == '@'
      invariant seenAt ==> forall k :: 0 <= k < i && s[k] == '@' ==> k == at
      invariant dot <==> seenAt && exists d :: 0 <= d < i && d < |s| - 1 && at + 1 < d && s[d] == '.'
    {
      var c := s[i];
      if IsSpace(c) {
        assert !NoSpace(s);
        return false;
      }
      if c == '@' {
        if seenAt {
          assert !WellFormed(s);
          return false;
        }
        seenAt, at := true, i;
      } else if c == '.' && seenAt && at + 1 < i < |s| - 1 {
        dot := true;
      }
      i := i + 1;
    }
    ok := seenAt && 0 < at && dot;
    if seenAt {
      assert OnlyAtAt(s, at);
    }
  }

  /** Strings the pattern rejects: no `@`, no dot after the `@`, an empty
      local part, a dot right after the `@`, a dot at the very end, two `@`
      signs, and whitespace. */
  lemma RejectedExamples()
    ensures !Matches("abc")
    ensures !Matches("a@b")
    ensures !Matches("@b.com")
    ensures !Matches("a@.com")
    ensures !Matches("a@b.")
    ensures !Matches("a@@b.c")
    ensures !Matches("a b@c.d")
  {
    MatchesIffWellFormed("abc");
    MatchesIffWellFormed("a@b");
    MatchesIffWellFormed("@b.com");
    MatchesIffWellFormed("a@.com");
    MatchesIffWellFormed("a@b.");
    MatchesIffWellFormed("a@@b.c");
    assert "a@@b.c"[1] == '@' && "a@@b.c"[2] == '@';
    MatchesIffWellFormed("a b@c.d");
    assert IsSpace("a b@c.d"[1]);
  }

  /** Composition: a local part, `@`, a host part, `.` and a last part,
      each a run of class characters, is matched by the pattern. */
  lemma ComposedMatches(local: string, host: string, tld: string)
    requires Run(local) && Run(host) && Run(tld)
    ensures Matches(local + "@" + host + "." + tld)
  {
    var s := local + "@" + host + "." + tld;
    var i, j := |local|, |local| + 1 + |host|;
    assert s[..i] == local;
    assert s[i + 1..j] == host;
    assert s[j + 1..] == tld;
    assert SplitAt(s, i, j);
  }

  /** Backtracking lets the literal `.` be any dot strictly inside the
      domain, so a domain with several dots is accepted ... */
  lemma SeveralDotsAccepted()
    ensures Matches("a@b.c.d")
  {
    ComposedMatches("a", "b", "c.d");
    assert "a" + "@" + "b" + "." + "c.d" == "a@b.c.d";
  }

  /** ... and so is a domain that starts with a dot, when another dot
      follows ... */
  lemma LeadingDotAccepted()
    ensures Matches("a@.b.c")
  {
    ComposedMatches("a", ".b", "c");
    assert "a" + "@" + ".b" + "." + "c" == "a@.b.c";
  }

  /** ... and a domain with two dots in a row. */
  lemma DoubleDotAccepted()
    ensures Matches("a@b..c")
  {
    ComposedMatches("a", "b", ".c");
    assert "a" + "@" + "b" + "." + ".c" == "a@b..c";
  }

  /** A typical address is accepted. */
  lemma TypicalAddressAccepted()
    ensures Matches("ana@example.com")
  {
    ComposedMatches("ana", "example", "com");
    assert "ana" + "@" + "example" + "." + "com" == "ana@example.com";
  }
}
