/** What the guard lets through: queries that write, yet hold none of the listed
    keyword patterns. These show the guard is a word list, not a parser. */
module GuardLimits {
  import opened Text
  import opened Guard

  /** No position of `s` holds the letters `c`, `d` one after the other (in any case). */
  predicate NoPair(s: string, c: char, d: char) {
    forall i :: 0 <= i < |s| - 1 ==> Upper(s[i]) != c || Upper(s[i + 1]) != d
  }

  /** Where `a` ends and `b` begins there is no `c` followed by `d`. */
  predicate Seam(a: string, b: string, c: char, d: char) {
    a == [] || b == [] || Upper(a[|a| - 1]) != c || Upper(b[0]) != d
  }

  lemma {:induction false} NoPairJoin(a: string, b: string, c: char, d: char)
    requires NoPair(a, c, d) && NoPair(b, c, d) && Seam(a, b, c, d)
    ensures NoPair(a + b, c, d)
  {
    var s := a + b;
    forall i | 0 <= i < |s| - 1 ensures Upper(s[i]) != c || Upper(s[i + 1]) != d {
      if i + 1 < |a| {
        assert s[i] == a[i] && s[i + 1] == a[i + 1];
      } else if i >= |a| {
        assert s[i] == b[i - |a|] && s[i + 1] == b[i + 1 - |a|];
      }
    }
  }

  /** Letter pairs are checked piece by piece: the four pieces, then the seams between them. */
  lemma {:induction false} NoPairFour(p0: string, p1: string, p2: string, p3: string, c: char, d: char)
    requires NoPair(p0, c, d) && NoPair(p1, c, d) && NoPair(p2, c, d) && NoPair(p3, c, d)
    requires p1 != [] && p2 != []
    requires Seam(p0, p1, c, d) && Seam(p1, p2, c, d) && Seam(p2, p3, c, d)
    ensures NoPair(p0 + p1 + p2 + p3, c, d)
  {
    NoPairJoin(p0, p1, c, d);
    assert (p0 + p1)[|p0 + p1| - 1] == p1[|p1| - 1];
    NoPairJoin(p0 + p1, p2, c, d);
    assert (p0 + p1 + p2)[|p0 + p1 + p2| - 1] == p2[|p2| - 1];
    NoPairJoin(p0 + p1 + p2, p3, c, d);
  }

  lemma {:induction false} NoPairNoWord(s: string, w: string, k: nat)
    requires k + 1 < |w| && NoPair(s, w[k], w[k + 1])
    ensures forall i: nat :: !WordAt(s, i, w)
  {
    forall i: nat ensures !WordAt(s, i, w) {
      if i + |w| <= |s| {
        assert Upper(s[i + k]) != w[k] || Upper(s[i + k + 1]) != w[k + 1];
      }
    }
  }

  /** A pattern cannot match where one of its keywords occurs nowhere. */
  lemma {:induction false} NoWordNoMatch(p: Pattern, s: string, w: string)
    requires (p.Bare? && w == p.word) || (p.Spaced? && (w == p.first || w == p.second))
    requires forall i: nat :: !WordAt(s, i, w)
    ensures !Matches(p, s)
  {
    forall i: nat | i <= |s| ensures !MatchAt(p, s, i) {
      assert !WordAt(s, i, w);
      if p.Spaced? && w == p.second {
        forall j: nat ensures !SpacedAt(s, i, p.first, j, p.second) {
          assert !WordAt(s, j, w);
        }
      }
    }
  }

  /** A query in which none of these letter pairs occurs, and in which `UPDATE ... SET` does
      not match, passes the guard. */
  lemma {:induction false} PassesWithout(s: string)
    requires NoPair(s, 'B', 'L') && NoPair(s, 'F', 'R') && NoPair(s, 'T', 'R') && NoPair(s, 'N', 'S')
    requires !Matches(Spaced("UPDATE", "SET"), s)
    ensures !IsDangerous(s)
  {
    NoPairNoWord(s, "TABLE", 2);
    NoWordNoMatch(Spaced("DROP", "TABLE"), s, "TABLE");
    NoWordNoMatch(Spaced("ALTER", "TABLE"), s, "TABLE");
    NoWordNoMatch(Spaced("CREATE", "TABLE"), s, "TABLE");
    NoPairNoWord(s, "FROM", 0);
    NoWordNoMatch(Spaced("DELETE", "FROM"), s, "FROM");
    NoPairNoWord(s, "TRUNCATE", 0);
    NoWordNoMatch(Bare("TRUNCATE"), s, "TRUNCATE");
    NoPairNoWord(s, "INSERT", 1);
    NoWordNoMatch(Spaced("INSERT", "INTO"), s, "INSERT");
  }

  lemma {:induction false} NoUpdateWord(s: string)
    requires NoPair(s, 'U', 'P')
    ensures !Matches(Spaced("UPDATE", "SET"), s)
  {
    NoPairNoWord(s, "UPDATE", 0);
    NoWordNoMatch(Spaced("UPDATE", "SET"), s, "UPDATE");
  }

  /** At any position: when the first character after the white space following that
      position's six letters does not begin `SET` (in any case), the UPDATE pattern does not
      match there. No white space at all after `UPDATE` is no match either. */
  lemma {:induction false} UpdateNotBeforeSet(s: string, i: nat)
    requires i + 6 <= |s| && !WordAt(s, SpaceRunEnd(s, i + 6), "SET")
    ensures !MatchAt(Spaced("UPDATE", "SET"), s, i)
  {
    assert WellFormed(Spaced("UPDATE", "SET"));
    MatchesHereIsMatchAt(Spaced("UPDATE", "SET"), s, i);
  }

  /** `UPDATE name SET ...`, for any table name without white space that does not itself
      begin with `SET`: the leading `UPDATE` is no match of the UPDATE pattern. */
  lemma {:induction false} UpdateTableSet(name: string, tail: string)
    requires name != [] && (forall k :: 0 <= k < |name| ==> !IsSpace(name[k]))
    requires !WordAt(name, 0, "SET")
    ensures !MatchAt(Spaced("UPDATE", "SET"), "UPDATE " + name + " SET" + tail, 0)
  {
    var s := "UPDATE " + name + " SET" + tail;
    assert s == "UPDATE " + (name + " SET" + tail);
    assert s[6] == ' ' && s[7] == name[0];
    assert IsSpace(s[6]) && !IsSpace(s[7]);
    assert SpaceRunEnd(s, 7) == 7;
    assert SpaceRunEnd(s, 6) == 7;
    assert !WordAt(s, 7, "SET") by {
      assert s == "UPDATE " + name + (" SET" + tail);
      if |name| >= 3 {
        forall k | 0 <= k < 3 ensures s[7 + k] == name[k] {
          assert s[7 + k] == name[k];
        }
      } else {
        assert s[7 + |name|] == ' ';
        assert Upper(s[7 + |name|]) != "SET"[|name|];
      }
    }
    UpdateNotBeforeSet(s, 0);
  }

  /** `UPDATE` only as the first word, followed by one space and then neither white space
      nor the start of `SET`: the UPDATE pattern does not match. */
  lemma {:induction false} UpdateOnlyFirst(s: string)
    requires |s| >= 8 && NoPair(s[1..], 'U', 'P')
    requires !IsSpace(s[7]) && Upper(s[7]) != 'S'
    ensures !Matches(Spaced("UPDATE", "SET"), s)
  {
    var t := s[1..];
    forall i: nat | i <= |s| ensures !MatchAt(Spaced("UPDATE", "SET"), s, i) {
      if 0 < i && i + 6 <= |s| {
        assert Upper(t[i - 1]) != 'U' || Upper(t[i - 1 + 1]) != 'P';
        assert t[i - 1] == s[i + 0] && t[i - 1 + 1] == s[i + 1];
        assert "UPDATE"[0] == 'U' && "UPDATE"[1] == 'P';
      } else if i == 0 {
        forall j: nat ensures !SpacedAt(s, 0, "UPDATE", j, "SET") {
          if 7 < j <= |s| {
            assert s[6..j][1] == s[7];
          } else if j == 7 {
            assert "SET"[0] == 'S';
          }
        }
      }
    }
  }

  /** The UPDATE pattern asks for white space only between `UPDATE` and `SET`, so an
      ordinary UPDATE, which names its table there, gets through: `UPDATE customer SET id = 0`,
      written in pieces short enough to check one by one. The constant equals that literal
      query text. */
  const OrdinaryUpdate := "U" + OrdinaryUpdateRest

  const OrdinaryUpdateRest := "PDATE " + "custom" + "er SET" + " id = 0"

  lemma OrdinaryUpdateLacks(c: char, d: char)
    requires (c, d) in {('B', 'L'), ('F', 'R'), ('T', 'R'), ('N', 'S')}
    ensures NoPair(OrdinaryUpdate, c, d)
  {
    NoPairFour("PDATE ", "custom", "er SET", " id = 0", c, d);
    assert OrdinaryUpdateRest[0] == 'P';
    NoPairJoin("U", OrdinaryUpdateRest, c, d);
  }

  lemma OrdinaryUpdateLacksUP()
    ensures NoPair(OrdinaryUpdate[1..], 'U', 'P')
  {
    NoPairFour("PDATE ", "custom", "er SET", " id = 0", 'U', 'P');
    assert OrdinaryUpdate[1..] == OrdinaryUpdateRest;
  }

  lemma {:induction false} OrdinaryUpdatePasses()
    ensures !IsDangerous(OrdinaryUpdate)
  {
    OrdinaryUpdateLacks('B', 'L');
    OrdinaryUpdateLacks('F', 'R');
    OrdinaryUpdateLacks('T', 'R');
    OrdinaryUpdateLacks('N', 'S');
    OrdinaryUpdateLacksUP();
    assert OrdinaryUpdate[7] == 'c';
    UpdateOnlyFirst(OrdinaryUpdate);
    PassesWithout(OrdinaryUpdate);
  }

  /** `REPLACE INTO` is not on the list, although it writes: `REPLACE INTO t VALUES (1)`. The
      constant equals that literal query text, written in four pieces that are checked one by one. */
  const ReplaceStatement := "REPLAC" + "E INTO" + " t VAL" + "UES (1)"

  lemma ReplaceStatementLacks(c: char, d: char)
    requires (c, d) in {('B', 'L'), ('F', 'R'), ('T', 'R'), ('N', 'S'), ('U', 'P')}
    ensures NoPair(ReplaceStatement, c, d)
  {
    NoPairFour("REPLAC", "E INTO", " t VAL", "UES (1)", c, d);
  }

  lemma {:induction false} ReplaceIntoPasses()
    ensures !IsDangerous(ReplaceStatement)
  {
    ReplaceStatementLacks('B', 'L');
    ReplaceStatementLacks('F', 'R');
    ReplaceStatementLacks('T', 'R');
    ReplaceStatementLacks('N', 'S');
    ReplaceStatementLacks('U', 'P');
    NoUpdateWord(ReplaceStatement);
    PassesWithout(ReplaceStatement);
  }
}
