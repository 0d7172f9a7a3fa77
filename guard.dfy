/** The denylist that `execute` (src/app/database.ts) applies to a query before the store
    sees it: seven case-insensitive, unanchored regular expressions, tested with `some`. */
module Guard {
  import opened Text

  /** `/A\s+B/i` (two keywords separated by one or more white-space characters) or `/W/i`. */
  datatype Pattern = Spaced(first: string, second: string) | Bare(word: string)

  /** The list, in the order the source declares it. */
  const DangerousPatterns: seq<Pattern> := [
    Spaced("DROP", "TABLE"),
    Spaced("DELETE", "FROM"),
    Bare("TRUNCATE"),
    Spaced("ALTER", "TABLE"),
    Spaced("CREATE", "TABLE"),
    Spaced("INSERT", "INTO"),
    Spaced("UPDATE", "SET")
  ]

  /** What `execute` resolves to when a pattern matches. */
  const Refusal := "Error: Only SELECT queries are allowed for security reasons."

  /** A keyword of the list: upper-case ASCII letters only. */
  predicate Keyword(w: string) {
    |w| >= 1 && forall k :: 0 <= k < |w| ==> 'A' <= w[k] <= 'Z'
  }

  predicate WellFormed(p: Pattern) {
    match p
    case Spaced(a, b) => Keyword(a) && Keyword(b)
    case Bare(w) => Keyword(w)
  }

  /** `w` occurs at position `i` of `s` when ASCII letters are compared without case. */
  predicate WordAt(s: string, i: nat, w: string) {
    i + |w| <= |s| && forall k :: 0 <= k < |w| ==> Upper(s[i + k]) == w[k]
  }

  /** After `from`, one or more white-space characters up to `j`, and `b` starts at `j`. */
  ghost predicate SpacesThenWord(s: string, from: nat, j: nat, b: string) {
    from < j <= |s| && AllSpace(s[from..j]) && WordAt(s, j, b)
  }

  ghost predicate SpacedAt(s: string, i: nat, a: string, j: nat, b: string) {
    SpacesThenWord(s, i + |a|, j, b)
  }

  /** What it means for the regular expression of `p` to match `s` starting at `i`. */
  ghost predicate MatchAt(p: Pattern, s: string, i: nat) {
    match p
    case Bare(w) => WordAt(s, i, w)
    case Spaced(a, b) => WordAt(s, i, a) && exists j: nat :: SpacedAt(s, i, a, j, b)
  }

  /** `pattern.test(s)`: the expression matches somewhere in `s` (it is not anchored). */
  ghost predicate Matches(p: Pattern, s: string) {
    exists i: nat :: i <= |s| && MatchAt(p, s, i)
  }

  /** The end of the run of white space that starts at `from`. */
  function SpaceRunEnd(s: string, from: nat): (j: nat)
    requires from <= |s|
    ensures from <= j <= |s| && AllSpace(s[from..j]) && (j == |s| || !IsSpace(s[j]))
    decreases |s| - from
  {
    if from < |s| && IsSpace(s[from]) then
      var j := SpaceRunEnd(s, from + 1);
      assert s[from..j] == [s[from]] + s[from + 1..j];
      j
    else from
  }

  /** A left-to-right scan for a match of `p` starting at `i` or later. */
  predicate MatchesHere(p: Pattern, s: string, i: nat) {
    match p
    case Bare(w) => WordAt(s, i, w)
    case Spaced(a, b) =>
      WordAt(s, i, a) && var j := SpaceRunEnd(s, i + |a|); j > i + |a| && WordAt(s, j, b)
  }

  predicate MatchesFrom(p: Pattern, s: string, i: nat)
    requires i <= |s|
    decreases |s| - i
  {
    MatchesHere(p, s, i) || (i < |s| && MatchesFrom(p, s, i + 1))
  }

  predicate Test(p: Pattern, s: string) {
    MatchesFrom(p, s, 0)
  }

  /** Since a keyword starts with a letter, the only place `b` can start after a run of
      white space is at the run's end: the scan checks one place instead of all of them. */
  lemma {:induction false} MatchesHereIsMatchAt(p: Pattern, s: string, i: nat)
    requires WellFormed(p)
    ensures MatchesHere(p, s, i) <==> MatchAt(p, s, i)
  {
    if p.Spaced? && WordAt(s, i, p.first) {
      var a, b := p.first, p.second;
      var from := i + |a|;
      var e := SpaceRunEnd(s, from);
      if e > from && WordAt(s, e, b) {
        assert SpacedAt(s, i, a, e, b);
      }
      if j: nat :| SpacedAt(s, i, a, j, b) {
        assert Upper(s[j + 0]) == b[0];
        assert !IsSpace(s[j]);
        assert forall k :: from <= k < j ==> IsSpace(s[k]) by {
          forall k | from <= k < j ensures IsSpace(s[k]) { assert s[from..j][k - from] == s[k]; }
        }
        assert forall k :: from <= k < e ==> IsSpace(s[k]) by {
          forall k | from <= k < e ensures IsSpace(s[k]) { assert s[from..e][k - from] == s[k]; }
        }
        assert e == j;
      }
    }
  }

  lemma {:induction false} MatchesFromIsMatchLater(p: Pattern, s: string, i: nat)
    requires WellFormed(p) && i <= |s|
    ensures MatchesFrom(p, s, i) <==> exists k: nat :: i <= k <= |s| && MatchAt(p, s, k)
    decreases |s| - i
  {
    MatchesHereIsMatchAt(p, s, i);
    if i < |s| {
      MatchesFromIsMatchLater(p, s, i + 1);
      if k: nat :| i <= k <= |s| && MatchAt(p, s, k) {
        if k > i {
          assert i + 1 <= k;
        }
      }
    }
  }

  lemma {:induction false} TestIsMatches(p: Pattern, s: string)
    requires WellFormed(p)
    ensures Test(p, s) <==> Matches(p, s)
  {
    MatchesFromIsMatchLater(p, s, 0);
  }

  lemma {:induction false} AllWellFormed()
    ensures forall p :: p in DangerousPatterns ==> WellFormed(p)
  {
  }

  lemma {:induction false} AllTestsAreMatches(sql: string)
    ensures forall p :: p in DangerousPatterns ==> (Test(p, sql) <==> Matches(p, sql))
  {
    AllWellFormed();
    forall p | p in DangerousPatterns ensures Test(p, sql) <==> Matches(p, sql) {
      TestIsMatches(p, sql);
    }
  }

  /** `dangerousPatterns.some(pattern => pattern.test(sql))`. */
  function IsDangerous(sql: string): (r: bool)
    ensures r <==> exists p :: p in DangerousPatterns && Matches(p, sql)
  {
    AllTestsAreMatches(sql);
    exists p :: p in DangerousPatterns && Test(p, sql)
  }

  /** `x` spells the keyword `w` in any mix of ASCII case. */
  predicate SpellsInAnyCase(x: string, w: string) {
    |x| == |w| && forall k :: 0 <= k < |x| ==> Upper(x[k]) == w[k]
  }

  lemma {:induction false} SpelledWordAt(pre: string, x: string, post: string, w: string)
    requires SpellsInAnyCase(x, w)
    ensures WordAt(pre + x + post, |pre|, w)
  {
    var s := pre + x + post;
    forall k | 0 <= k < |w| ensures Upper(s[|pre| + k]) == w[k] {
      assert s[|pre| + k] == x[k];
    }
  }

  /** A query holding a listed keyword pair anywhere, in any case, with any non-empty run of
      white space between the two keywords, is refused. */
  lemma {:induction false} SpacedKeywordsRefused(pre: string, x: string, gap: string, y: string, post: string, a: string, b: string)
    requires Spaced(a, b) in DangerousPatterns
    requires SpellsInAnyCase(x, a) && SpellsInAnyCase(y, b)
    requires gap != [] && AllSpace(gap)
    ensures IsDangerous(pre + x + gap + y + post)
  {
    var s := pre + x + gap + y + post;
    var i, j := |pre|, |pre| + |x| + |gap|;
    assert s == pre + x + (gap + y + post);
    SpelledWordAt(pre, x, gap + y + post, a);
    assert s == (pre + x + gap) + y + post;
    SpelledWordAt(pre + x + gap, y, post, b);
    assert s[i + |a|..j] == gap by {
      assert s == (pre + x) + gap + (y + post);
    }
    assert SpacedAt(s, i, a, j, b);
    assert MatchAt(Spaced(a, b), s, i);
    assert Matches(Spaced(a, b), s);
  }

  /** A query holding `TRUNCATE` anywhere, in any case, is refused, inside a string literal too. */
  lemma {:induction false} TruncateRefused(pre: string, x: string, post: string)
    requires SpellsInAnyCase(x, "TRUNCATE")
    ensures IsDangerous(pre + x + post)
  {
    SpelledWordAt(pre, x, post, "TRUNCATE");
    assert MatchAt(Bare("TRUNCATE"), pre + x + post, |pre|);
    assert Bare("TRUNCATE") in DangerousPatterns;
  }

  lemma {:induction false} TruncateInLiteralRefused()
    ensures IsDangerous("SELECT * FROM t WHERE c = 'truncate'")
  {
    TruncateRefused("SELECT * FROM t WHERE c = '", "truncate", "'");
    assert "SELECT * FROM t WHERE c = '" + "truncate" + "'" == "SELECT * FROM t WHERE c = 'truncate'";
  }
}
