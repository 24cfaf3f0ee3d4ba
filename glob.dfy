/**
 * Matching a visited host name against a stored domain pattern
 * (`findDomainConfigByDomain`, utils/storage.ts). The stored pattern is turned
 * into the regular expression `^p$` after escaping `.` and rewriting `*` as
 * `.*`; no other character is escaped, so the model treats every character
 * other than `*` as a literal (patterns are taken to hold no other regular
 * expression metacharacter). A JavaScript `.` matches any character except a
 * line terminator, so `*` stands for any run of such characters, dots included.
 */
module DomainMatch {
  import opened Strings

  /** `new RegExp("^" + escaped(p) + "$").test(s)`. */
  function GlobMatch(p: string, s: string): bool
    decreases |p| + |s|
  {
    if p == [] then s == []
    else if p[0] == '*' then
      GlobMatch(p[1..], s) || (s != [] && !IsLineTerminator(s[0]) && GlobMatch(p, s[1..]))
    else s != [] && s[0] == p[0] && GlobMatch(p[1..], s[1..])
  }

  /** The per-config test of `findDomainConfigByDomain`: equality, then the pattern. */
  predicate DomainMatches(pattern: string, host: string)
  {
    pattern == host || GlobMatch(pattern, host)
  }

  // ---------------------------------------------------------------------------
  // Reference semantics: a pattern denotes the strings obtained by replacing
  // each `*` by a word free of line terminators.

  function StarCount(p: string): nat
  {
    if p == [] then 0 else (if p[0] == '*' then 1 else 0) + StarCount(p[1..])
  }

  predicate FreeOfLineTerminators(w: string)
  {
    forall i :: 0 <= i < |w| ==> !IsLineTerminator(w[i])
  }

  predicate ValidFill(p: string, ws: seq<string>)
  {
    |ws| == StarCount(p) && forall i :: 0 <= i < |ws| ==> FreeOfLineTerminators(ws[i])
  }

  /** `p` with its i-th `*` replaced by `ws[i]`. */
  function Instantiate(p: string, ws: seq<string>): string
    requires |ws| == StarCount(p)
  {
    if p == [] then []
    else if p[0] == '*' then ws[0] + Instantiate(p[1..], ws[1..])
    else [p[0]] + Instantiate(p[1..], ws)
  }

  ghost predicate InLanguage(p: string, s: string)
  {
    exists ws :: ValidFill(p, ws) && Instantiate(p, ws) == s
  }

  /** Every string the matcher accepts is an instance of the pattern. */
  lemma {:induction false} GlobMatchSound(p: string, s: string) returns (ws: seq<string>)
    requires GlobMatch(p, s)
    ensures ValidFill(p, ws) && Instantiate(p, ws) == s
    decreases |p| + |s|
  {
    if p == [] {
      ws := [];
    } else if p[0] == '*' {
      if GlobMatch(p[1..], s) {
        var rest := GlobMatchSound(p[1..], s);
        ws := [[]] + rest;
        assert ws[1..] == rest;
      } else {
        var w := GlobMatchSound(p, s[1..]);
        ws := [[s[0]] + w[0]] + w[1..];
        assert ws[1..] == w[1..];
        assert FreeOfLineTerminators([s[0]] + w[0]) by {
          assert FreeOfLineTerminators(w[0]);
        }
        assert Instantiate(p, w) == w[0] + Instantiate(p[1..], w[1..]);
        assert s == [s[0]] + s[1..];
      }
    } else {
      ws := GlobMatchSound(p[1..], s[1..]);
      assert s == [s[0]] + s[1..];
    }
  }

  /** Every instance of the pattern is accepted by the matcher. */
  lemma {:induction false} GlobMatchComplete(p: string, ws: seq<string>)
    requires ValidFill(p, ws)
    ensures GlobMatch(p, Instantiate(p, ws))
    decreases |p|, if ws == [] then 0 else |ws[0]|
  {
    if p == [] {
    } else if p[0] == '*' {
      var w := ws[0];
      assert ValidFill(p[1..], ws[1..]);
      if w == [] {
        GlobMatchComplete(p[1..], ws[1..]);
        assert Instantiate(p, ws) == Instantiate(p[1..], ws[1..]);
      } else {
        var ws' := [w[1..]] + ws[1..];
        StarConsumes(p, ws);
        GlobMatchComplete(p, ws');
      }
    } else {
      GlobMatchComplete(p[1..], ws);
      var s := Instantiate(p, ws);
      assert s[1..] == Instantiate(p[1..], ws);
    }
  }

  /** A `*` whose word is not empty consumes its first character. */
  lemma StarConsumes(p: string, ws: seq<string>)
    requires ValidFill(p, ws) && p != [] && p[0] == '*' && ws[0] != []
    ensures ValidFill(p, [ws[0][1..]] + ws[1..])
    ensures var s := Instantiate(p, ws);
      s != [] && !IsLineTerminator(s[0]) && s[1..] == Instantiate(p, [ws[0][1..]] + ws[1..])
  {
    var w := ws[0];
    var ws' := [w[1..]] + ws[1..];
    assert ws'[0] == w[1..] && ws'[1..] == ws[1..];
    assert FreeOfLineTerminators(w);
    assert ValidFill(p, ws') by {
      forall i | 0 <= i < |ws'|
        ensures FreeOfLineTerminators(ws'[i])
      {
        if i > 0 {
          assert ws'[i] == ws[i];
        }
      }
    }
    var rest := Instantiate(p[1..], ws[1..]);
    assert Instantiate(p, ws') == w[1..] + rest;
    assert Instantiate(p, ws) == w + rest;
    ConsTail(w, rest);
  }

  /** Dropping the first character of `w + t`, `w` not empty. */
  lemma ConsTail(w: string, t: string)
    requires w != []
    ensures (w + t)[0] == w[0] && (w + t)[1..] == w[1..] + t
  {
  }

  /** The matcher decides exactly the language the pattern denotes. */
  lemma GlobMatchIff(p: string, s: string)
    ensures GlobMatch(p, s) <==> InLanguage(p, s)
  {
    if GlobMatch(p, s) {
      var ws := GlobMatchSound(p, s);
    }
    if InLanguage(p, s) {
      var ws :| ValidFill(p, ws) && Instantiate(p, ws) == s;
      GlobMatchComplete(p, ws);
    }
  }

  // ---------------------------------------------------------------------------
  // Consequences

  /** A pattern without `*` matches itself only. */
  lemma {:induction false} LiteralInstance(lit: string)
    requires '*' !in lit
    ensures StarCount(lit) == 0 && Instantiate(lit, []) == lit
  {
    if lit != [] {
      assert lit[0] in lit;
      assert forall c :: c in lit[1..] ==> c in lit;
      LiteralInstance(lit[1..]);
    }
  }

  lemma LiteralMatch(lit: string, s: string)
    requires '*' !in lit
    ensures GlobMatch(lit, s) <==> s == lit
  {
    LiteralInstance(lit);
    GlobMatchIff(lit, s);
    if s == lit {
      assert ValidFill(lit, []) && Instantiate(lit, []) == s;
    }
  }

  /** Every pattern matches its own text, so the equality test never changes the verdict. */
  lemma {:induction false} GlobMatchReflexive(p: string)
    ensures GlobMatch(p, p)
  {
    if p != [] {
      GlobMatchReflexive(p[1..]);
      if p[0] == '*' {
        // the star consumes the literal `*` character itself
        assert GlobMatch(p, p[1..]);
      }
    }
  }

  lemma DomainMatchesIsGlob(pattern: string, host: string)
    ensures DomainMatches(pattern, host) <==> GlobMatch(pattern, host)
  {
    GlobMatchReflexive(pattern);
  }

  /**
   * `*` followed by a literal suffix matches exactly the host names that end
   * with that suffix (preceded by any run of non-line-terminator characters).
   */
  lemma WildcardSuffix(lit: string, s: string)
    requires '*' !in lit
    ensures GlobMatch(['*'] + lit, s) <==>
      |lit| <= |s| && s[|s| - |lit|..] == lit && FreeOfLineTerminators(s[..|s| - |lit|])
  {
    if GlobMatch(['*'] + lit, s) {
      SuffixOfMatch(lit, s);
    }
    if |lit| <= |s| && s[|s| - |lit|..] == lit && FreeOfLineTerminators(s[..|s| - |lit|]) {
      MatchOfSuffix(lit, s);
    }
  }

  lemma SuffixOfMatch(lit: string, s: string)
    requires '*' !in lit && GlobMatch(['*'] + lit, s)
    ensures |lit| <= |s| && s[|s| - |lit|..] == lit && FreeOfLineTerminators(s[..|s| - |lit|])
  {
    var ws := GlobMatchSound(['*'] + lit, s);
    StarThenLiteralCount(lit);
    var w := ws[0];
    assert ws == [w];
    StarThenLiteral(lit, w);
    assert s == w + lit;
    assert s[..|s| - |lit|] == w;
  }

  lemma MatchOfSuffix(lit: string, s: string)
    requires '*' !in lit && |lit| <= |s|
    requires s[|s| - |lit|..] == lit && FreeOfLineTerminators(s[..|s| - |lit|])
    ensures GlobMatch(['*'] + lit, s)
  {
    var w := s[..|s| - |lit|];
    StarThenLiteralCount(lit);
    StarThenLiteral(lit, w);
    assert s == w + lit;
    GlobMatchComplete(['*'] + lit, [w]);
  }

  lemma StarThenLiteralCount(lit: string)
    requires '*' !in lit
    ensures StarCount(['*'] + lit) == 1
  {
    assert (['*'] + lit)[1..] == lit;
    LiteralInstance(lit);
  }

  lemma StarThenLiteral(lit: string, w: string)
    requires '*' !in lit
    requires StarCount(['*'] + lit) == 1
    ensures Instantiate(['*'] + lit, [w]) == w + lit
  {
    var p := ['*'] + lit;
    assert p[1..] == lit;
    LiteralInstance(lit);
    assert [w][1..] == [];
  }

  /** Examples: a leading `*` needs the dot before the suffix, and matches across dots. */
  lemma ExampleSubdomain()
    ensures GlobMatch("*.example.com", "app.example.com")
  {
    var lit := ".example.com";
    assert '*' !in lit;
    assert "*.example.com" == ['*'] + lit;
    var s := "app.example.com";
    assert s[|s| - |lit|..] == lit;
    assert FreeOfLineTerminators(s[..|s| - |lit|]);
    WildcardSuffix(lit, s);
  }

  lemma ExampleNestedSubdomain()
    ensures GlobMatch("*.example.com", "a.b.example.com")
  {
    var lit := ".example.com";
    assert '*' !in lit;
    assert "*.example.com" == ['*'] + lit;
    var s := "a.b.example.com";
    assert s[|s| - |lit|..] == lit;
    assert FreeOfLineTerminators(s[..|s| - |lit|]);
    WildcardSuffix(lit, s);
  }

  lemma ExampleBareDomain()
    ensures !GlobMatch("*.example.com", "example.com")
  {
    var lit := ".example.com";
    assert '*' !in lit;
    assert "*.example.com" == ['*'] + lit;
    WildcardSuffix(lit, "example.com");
  }

  /** A literal prefix without `*` matches itself and leaves the rest to the rest of the pattern. */
  lemma {:induction false} LiteralPrefix(pre: string, p: string, s: string)
    requires '*' !in pre && GlobMatch(p, s)
    ensures GlobMatch(pre + p, pre + s)
  {
    if pre == [] {
      assert pre + p == p && pre + s == s;
    } else {
      assert pre[0] in pre;
      assert '*' !in pre[1..] by {
        assert forall c :: c in pre[1..] ==> c in pre;
      }
      LiteralPrefix(pre[1..], p, s);
      assert (pre + p)[1..] == pre[1..] + p;
      assert (pre + s)[1..] == pre[1..] + s;
      assert (pre + p)[0] == pre[0] == (pre + s)[0];
    }
  }

  lemma ExampleInner()
    ensures GlobMatch("a.*.com", "a.b.com")
    ensures DomainMatches("example.com", "example.com")
  {
    var lit := ".com";
    assert '*' !in lit;
    assert "*.com" == ['*'] + lit;
    var s := "b.com";
    assert s[|s| - |lit|..] == lit;
    assert FreeOfLineTerminators(s[..|s| - |lit|]);
    WildcardSuffix(lit, s);
    assert '*' !in "a.";
    LiteralPrefix("a.", "*.com", s);
    assert "a.*.com" == "a." + "*.com" && "a.b.com" == "a." + s;
  }
}
