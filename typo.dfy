/**
 * The typo classifier of a parameter set: an unknown token is compared with
 * every known parameter name through a Levenshtein-based difference, and it
 * is a typo when some name is both close enough and nearly as close as the
 * closest one.
 */
module Typo {

  function Min3(a: nat, b: nat, c: nat): nat
  {
    if a <= b && a <= c then a else if b <= c then b else c
  }

  /** The edit distance between two strings: insertions, deletions and substitutions each cost one. */
  function Lev(a: string, b: string): nat
    decreases |a| + |b|
  {
    if |a| == 0 then |b|
    else if |b| == 0 then |a|
    else
      Min3(Lev(a[..|a| - 1], b) + 1,
           Lev(a, b[..|b| - 1]) + 1,
           Lev(a[..|a| - 1], b[..|b| - 1]) + (if a[|a| - 1] == b[|b| - 1] then 0 else 1))
  }

  /** The token occurs in the name starting at position i. */
  predicate OccursAt(token: string, name: string, i: int)
  {
    0 <= i && i + |token| <= |name| && name[i..i + |token|] == token
  }

  /** The token occurs somewhere inside the name. */
  predicate IsSubstring(token: string, name: string)
  {
    exists i :: 0 <= i <= |name| - |token| && OccursAt(token, name, i)
  }

  /** The name begins with the token. */
  predicate IsPrefix(token: string, name: string)
  {
    |token| <= |name| && name[..|token|] == token
  }

  /**
   * The difference of a token from a parameter name: the edit distance as a
   * truncated percentage of the name's length, minus 15 when the token occurs
   * in the name and 15 more when the name starts with it.
   */
  function Difference(token: string, name: string): int
    requires |name| > 0
  {
    100 * Lev(token, name) / |name|
      - (if IsSubstring(token, name) then 15 else 0)
      - (if IsPrefix(token, name) then 15 else 0)
  }

  /** Every name of the set is non-empty. */
  predicate NamesOk(names: seq<string>)
  {
    forall k :: 0 <= k < |names| ==> |names[k]| > 0
  }

  /** smdiff: the smallest difference of the token from any name. */
  function SmallestDifference(token: string, names: seq<string>): int
    requires |names| > 0 && NamesOk(names)
  {
    var last := Difference(token, names[|names| - 1]);
    if |names| == 1 then last
    else
      var init := names[..|names| - 1];
      assert NamesOk(init) by {
        assert forall k :: 0 <= k < |init| ==> init[k] == names[k];
      }
      var m := SmallestDifference(token, init);
      if last < m then last else m
  }

  /** A name is offered as a correction: under 90 and within 10 of the smallest difference. */
  predicate Close(token: string, name: string, smdiff: int)
    requires |name| > 0
  {
    Difference(token, name) < 90 && Difference(token, name) < smdiff + 10
  }

  /** The names offered for the token, in set order. */
  function Offered(token: string, names: seq<string>, smdiff: int): (r: seq<string>)
    requires NamesOk(names)
    ensures |r| <= |names|
  {
    if |names| == 0 then []
    else
      var init := names[..|names| - 1];
      var name := names[|names| - 1];
      assert forall k :: 0 <= k < |init| ==> init[k] == names[k];
      Offered(token, init, smdiff) + (if Close(token, name, smdiff) then [name] else [])
  }

  /** The suggestions for an unknown token; no names means no suggestions. */
  function Suggestions(token: string, names: seq<string>): seq<string>
    requires NamesOk(names)
  {
    if |names| == 0 then [] else Offered(token, names, SmallestDifference(token, names))
  }

  /** A token is a typo when it has at least one suggestion, and unknown otherwise. */
  predicate IsTypo(token: string, names: seq<string>)
    requires NamesOk(names)
  {
    |Suggestions(token, names)| > 0
  }

  // ---------------------------------------------------------------------
  // Properties
  // ---------------------------------------------------------------------

  /** smdiff is the difference of some name, and no name has a smaller one. */
  lemma {:induction false} SmallestDifferenceMeaning(token: string, names: seq<string>)
    requires |names| > 0 && NamesOk(names)
    ensures exists k :: 0 <= k < |names| && SmallestDifference(token, names) == Difference(token, names[k])
    ensures forall k :: 0 <= k < |names| ==> SmallestDifference(token, names) <= Difference(token, names[k])
  {
    if |names| > 1 {
      var init := names[..|names| - 1];
      assert forall k :: 0 <= k < |init| ==> init[k] == names[k];
      SmallestDifferenceMeaning(token, init);
      var j :| 0 <= j < |init| && SmallestDifference(token, init) == Difference(token, init[j]);
      assert init[j] == names[j];
      var last := |names| - 1;
      if Difference(token, names[last]) < SmallestDifference(token, init) {
        assert SmallestDifference(token, names) == Difference(token, names[last]);
      } else {
        assert SmallestDifference(token, names) == Difference(token, names[j]);
      }
    } else {
      assert SmallestDifference(token, names) == Difference(token, names[0]);
    }
  }

  /** A name is offered exactly when it is one of the names and is close. */
  lemma {:induction false} OfferedMembers(token: string, names: seq<string>, smdiff: int, name: string)
    requires NamesOk(names)
    ensures name in Offered(token, names, smdiff) <==> name in names && |name| > 0 && Close(token, name, smdiff)
  {
    if |names| > 0 {
      var init := names[..|names| - 1];
      assert forall k :: 0 <= k < |init| ==> init[k] == names[k];
      OfferedMembers(token, init, smdiff, name);
      assert names == init + [names[|names| - 1]];
    }
  }

  /** The edit distance of a string from itself is zero. */
  lemma {:induction false} LevSelf(a: string)
    ensures Lev(a, a) == 0
  {
    if |a| > 0 {
      LevSelf(a[..|a| - 1]);
    }
  }

  /** The edit distance is at least the difference in length and at most the longer length. */
  lemma {:induction false} LevBounds(a: string, b: string)
    ensures Lev(a, b) >= |a| - |b| && Lev(a, b) >= |b| - |a|
    ensures Lev(a, b) <= if |a| >= |b| then |a| else |b|
    decreases |a| + |b|
  {
    if |a| > 0 && |b| > 0 {
      LevBounds(a[..|a| - 1], b);
      LevBounds(a, b[..|b| - 1]);
      LevBounds(a[..|a| - 1], b[..|b| - 1]);
    }
  }

  /** The exact name has difference -30: distance zero, a substring and a prefix. */
  lemma ExactNameDifference(name: string)
    requires |name| > 0
    ensures Difference(name, name) == -30
  {
    LevSelf(name);
    assert name[0..|name|] == name;
    assert OccursAt(name, name, 0);
  }

  /**
   * A token is a typo exactly when its smallest difference is under 90; the
   * name attaining the smallest difference is then always among the suggestions.
   */
  lemma TypoIffCloseEnough(token: string, names: seq<string>)
    requires |names| > 0 && NamesOk(names)
    ensures IsTypo(token, names) <==> SmallestDifference(token, names) < 90
    ensures forall k :: 0 <= k < |names| && Difference(token, names[k]) == SmallestDifference(token, names)
                && SmallestDifference(token, names) < 90
                ==> names[k] in Suggestions(token, names)
  {
    var m := SmallestDifference(token, names);
    SmallestDifferenceMeaning(token, names);
    forall k | 0 <= k < |names| && Difference(token, names[k]) == m && m < 90
      ensures names[k] in Suggestions(token, names)
    {
      OfferedMembers(token, names, m, names[k]);
    }
    if IsTypo(token, names) {
      var s := Suggestions(token, names)[0];
      assert s in Suggestions(token, names);
      OfferedMembers(token, names, m, s);
    }
    if m < 90 {
      var k :| 0 <= k < |names| && m == Difference(token, names[k]);
      assert names[k] in Suggestions(token, names);
    }
  }

  /** A suggestion is always one of the names, under 90 and within 10 of the best. */
  lemma SuggestionsAreClose(token: string, names: seq<string>, s: string)
    requires |names| > 0 && NamesOk(names)
    ensures s in Suggestions(token, names) <==>
      s in names && |s| > 0 && Difference(token, s) < 90
      && Difference(token, s) < SmallestDifference(token, names) + 10
  {
    OfferedMembers(token, names, SmallestDifference(token, names), s);
  }

  /** No difference is below -30: the distance term is never negative. */
  lemma DifferenceAtLeast(token: string, name: string)
    requires |name| > 0
    ensures Difference(token, name) >= -30
  {
  }

  /** A token that is exactly one of the names is always a typo for it: the smallest difference is -30. */
  lemma ExactNameIsTypo(token: string, names: seq<string>)
    requires NamesOk(names) && token in names
    ensures SmallestDifference(token, names) == -30
    ensures token in Suggestions(token, names)
  {
    var k :| 0 <= k < |names| && names[k] == token;
    ExactNameDifference(token);
    var m := SmallestDifference(token, names);
    SmallestDifferenceMeaning(token, names);
    var j :| 0 <= j < |names| && m == Difference(token, names[j]);
    DifferenceAtLeast(token, names[j]);
    SuggestionsAreClose(token, names, token);
  }

  /** Strings with no character in common are as far apart as the longer one is long. */
  lemma {:induction false} LevDisjoint(a: string, b: string)
    requires forall i, j :: 0 <= i < |a| && 0 <= j < |b| ==> a[i] != b[j]
    ensures Lev(a, b) == if |a| >= |b| then |a| else |b|
    decreases |a| + |b|
  {
    LevBounds(a, b);
    if |a| > 0 && |b| > 0 {
      LevDisjoint(a[..|a| - 1], b);
      LevDisjoint(a, b[..|b| - 1]);
      LevDisjoint(a[..|a| - 1], b[..|b| - 1]);
    }
  }

  /** Truncating division keeps a lower bound the dividend has as a multiple of the divisor. */
  lemma DivAtLeast(x: int, n: int, q: int)
    requires n > 0 && x >= q * n
    ensures x / n >= q
  {
    var r := x / n;
    assert x == n * r + x % n && x % n < n;
    assert n * (r - q + 1) == n * r - n * q + n;
    assert n * (r - q + 1) > 0;
  }

  /**
   * A token is at least 90 from a name it shares no character with, and from
   * a name it outgrows by nine tenths of the name's length.
   */
  lemma FarFromName(token: string, name: string)
    requires |name| > 0
    requires 100 * |token| >= 190 * |name|
          || (|token| > 0 && forall i, j :: 0 <= i < |token| && 0 <= j < |name| ==> token[i] != name[j])
    ensures Difference(token, name) >= 90
  {
    var d := Lev(token, name);
    LevBounds(token, name);
    if 100 * |token| >= 190 * |name| {
      assert 100 * d >= 90 * |name|;
      DivAtLeast(100 * d, |name|, 90);
      assert !IsSubstring(token, name);
    } else {
      LevDisjoint(token, name);
      assert 100 * d >= 100 * |name|;
      DivAtLeast(100 * d, |name|, 100);
      assert !IsSubstring(token, name) by {
        forall i | 0 <= i <= |name| - |token|
          ensures !OccursAt(token, name, i)
        {
          assert token[0] != name[i];
        }
      }
    }
  }

  /** A token at least 90 from every name has no suggestion: it is unknown. */
  lemma FarFromAll(token: string, names: seq<string>)
    requires NamesOk(names)
    requires forall k :: 0 <= k < |names| ==> Difference(token, names[k]) >= 90
    ensures !IsTypo(token, names)
  {
    if |names| > 0 {
      SmallestDifferenceMeaning(token, names);
      TypoIffCloseEnough(token, names);
    }
  }

  // ---------------------------------------------------------------------
  // The typo of the command-line test: "--dbm" against mb, db, mdb, all, e, f
  // ---------------------------------------------------------------------

  lemma DbmPrefixes()
    ensures "dbm"[..2] == "db" && "db"[..1] == "d" && "d"[..0] == ""
    ensures "mdb"[..2] == "md" && "md"[..1] == "m" && "m"[..0] == ""
    ensures "all"[..2] == "al" && "al"[..1] == "a" && "a"[..0] == ""
    ensures "mb"[..1] == "m"
  {
  }

  lemma LevDbmMb()
    ensures Lev("dbm", "mb") == 2
  {
    DbmPrefixes();
    assert Lev("d", "m") == 1;
    assert Lev("d", "mb") == 2;
    assert Lev("db", "m") == 2;
    assert Lev("db", "mb") == 1;
    assert Lev("dbm", "m") == 2;
    assert Lev("dbm", "mb") == 2;
  }

  lemma LevDbmMdb()
    ensures Lev("dbm", "mdb") == 2
  {
    DbmPrefixes();
    LevDbMdb();
    assert Lev("dbm", "m") == 2;
    assert Lev("dbm", "md") == 3;
    assert Lev("dbm", "mdb") == 2;
  }

  /** The row of "db" against the prefixes of "mdb". */
  lemma LevDbMdb()
    ensures Lev("db", "m") == 2 && Lev("db", "md") == 2 && Lev("db", "mdb") == 1
  {
    DbmPrefixes();
    assert Lev("d", "m") == 1;
    assert Lev("d", "md") == 1;
    assert Lev("d", "mdb") == 2;
    assert Lev("db", "m") == 2;
    assert Lev("db", "md") == 2;
  }

  lemma LevDbmAll()
    ensures Lev("dbm", "all") == 3
  {
    DbmPrefixes();
    assert Lev("d", "a") == 1;
    assert Lev("d", "al") == 2;
    assert Lev("d", "all") == 3;
    assert Lev("db", "a") == 2;
    assert Lev("db", "al") == 2;
    assert Lev("db", "all") == 3;
    assert Lev("dbm", "a") == 3;
    assert Lev("dbm", "al") == 3;
    assert Lev("dbm", "all") == 3;
  }

  lemma DbmDifferenceMb()
    ensures Difference("dbm", "mb") == 100
  {
    LevDbmMb();
  }

  lemma DbmDifferenceDb()
    ensures Difference("dbm", "db") == 50
  {
    DbmPrefixes();
    assert Lev("dbm", "db") == 1 by {
      LevSelf("db");
      LevBounds("dbm", "db");
    }
  }

  lemma DbmDifferenceMdb()
    ensures Difference("dbm", "mdb") == 66
  {
    LevDbmMdb();
    assert !IsSubstring("dbm", "mdb") by {
      assert "mdb"[0..3] != "dbm" by { assert "mdb"[0] != 'd'; }
    }
  }

  lemma DbmDifferenceAll()
    ensures Difference("dbm", "all") == 100
  {
    LevDbmAll();
  }

  lemma DbmDifferenceShort()
    ensures Difference("dbm", "e") >= 200
    ensures Difference("dbm", "f") >= 200
  {
    LevBounds("dbm", "e");
    LevBounds("dbm", "f");
  }

  /** The differences of "dbm" from the six names of the test. */
  lemma DbmDifferences()
    ensures Difference("dbm", "mb") == 100
    ensures Difference("dbm", "db") == 50
    ensures Difference("dbm", "mdb") == 66
    ensures Difference("dbm", "all") == 100
    ensures Difference("dbm", "e") >= 200
    ensures Difference("dbm", "f") >= 200
  {
    DbmDifferenceMb();
    DbmDifferenceDb();
    DbmDifferenceMdb();
    DbmDifferenceAll();
    DbmDifferenceShort();
  }

  /** "dbm" is a typo whose only suggestion is "db": smdiff is 50 and only "db" is under 60. */
  lemma DbmSuggestsDb()
    ensures Suggestions("dbm", ["mb", "db", "mdb", "all", "e", "f"]) == ["db"]
  {
    DbmSmallest();
    DbmOffered();
  }

  /** The smallest difference of "dbm" from the names of the test is the one from "db". */
  lemma DbmSmallest()
    ensures SmallestDifference("dbm", ["mb", "db", "mdb", "all", "e", "f"]) == 50
  {
    var names := ["mb", "db", "mdb", "all", "e", "f"];
    DbmDifferences();
    var m := SmallestDifference("dbm", names);
    SmallestDifferenceMeaning("dbm", names);
    assert m <= Difference("dbm", names[1]);
  }

  /** Only "db" is as close to "dbm" as the smallest difference. */
  lemma DbmOffered()
    ensures Offered("dbm", ["mb", "db", "mdb", "all", "e", "f"], 50) == ["db"]
  {
    var names := ["mb", "db", "mdb", "all", "e", "f"];
    DbmDifferences();
    assert names[..5] == ["mb", "db", "mdb", "all", "e"];
    assert names[..5][..4] == ["mb", "db", "mdb", "all"];
    DbmOfferedFirst();
    assert Offered("dbm", ["mb", "db", "mdb", "all", "e"], 50) == ["db"];
  }

  /** Of the first four names only "db" is offered. */
  lemma DbmOfferedFirst()
    ensures Offered("dbm", ["mb", "db", "mdb", "all"], 50) == ["db"]
  {
    var names := ["mb", "db", "mdb", "all"];
    DbmDifferences();
    assert names[..3] == ["mb", "db", "mdb"];
    assert names[..3][..2] == ["mb", "db"];
    assert names[..3][..2][..1] == ["mb"];
    assert ["mb"][..0] == [];
    assert Offered("dbm", ["mb"], 50) == [];
    assert Offered("dbm", ["mb", "db"], 50) == ["db"];
    assert Offered("dbm", ["mb", "db", "mdb"], 50) == ["db"];
  }
}
