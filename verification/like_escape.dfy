/** Free-text order search (app/services/orders.py): the query text is escaped and wrapped in `%` before
    it becomes a case-insensitive LIKE pattern. */
module OrderSearch {

  const ESCAPE := '\\'

  /** str.replace with a one-character needle. */
  function Replace(s: string, needle: char, with: string): string {
    if s == "" then ""
    else (if s[0] == needle then with else [s[0]]) + Replace(s[1..], needle, with)
  }

  /** Three successive global replacements, backslash first. */
  function EscapeLike(value: string): string {
    Replace(Replace(Replace(value, '\\', "\\\\"), '%', "\\%"), '_', "\\_")
  }

  predicate Special(c: char) {
    c == '%' || c == '_' || c == ESCAPE
  }

  function EscapeChar(c: char): string {
    if Special(c) then [ESCAPE, c] else [c]
  }

  /** The reference: escape each character on its own. */
  function EscapeEach(value: string): string {
    if value == "" then "" else EscapeChar(value[0]) + EscapeEach(value[1..])
  }

  /** Drops each escape character and keeps what it protects. */
  function Unescape(s: string): string {
    if s == "" then ""
    else if s[0] == ESCAPE && |s| >= 2 then [s[1]] + Unescape(s[2..])
    else [s[0]] + Unescape(s[1..])
  }

  /** The LIKE predicate of section 8.5 of SQL-92 with escape character backslash, comparing characters
      after `fold` (ILIKE): `%` takes any run, `_` takes one character, an escaped character itself. */
  predicate Like(fold: char -> char, pattern: string, s: string)
    decreases |pattern| + |s|
  {
    if pattern == "" then s == ""
    else if pattern[0] == '%' then
      Like(fold, pattern[1..], s) || (s != "" && Like(fold, pattern, s[1..]))
    else if pattern[0] == '_' then s != "" && Like(fold, pattern[1..], s[1..])
    else if pattern[0] == ESCAPE then
      |pattern| >= 2 && s != "" && fold(pattern[1]) == fold(s[0]) && Like(fold, pattern[2..], s[1..])
    else s != "" && fold(pattern[0]) == fold(s[0]) && Like(fold, pattern[1..], s[1..])
  }

  predicate StartsWith(fold: char -> char, s: string, q: string) {
    |q| <= |s| && forall i :: 0 <= i < |q| ==> fold(q[i]) == fold(s[i])
  }

  ghost predicate Contains(fold: char -> char, s: string, q: string) {
    exists k :: 0 <= k <= |s| && StartsWith(fold, s[k..], q)
  }

  // ---------- the replacements are one per-character escape ----------

  lemma {:induction false} ReplaceConcat(s: string, t: string, needle: char, with: string)
    ensures Replace(s + t, needle, with) == Replace(s, needle, with) + Replace(t, needle, with)
  {
    if s == "" {
      assert s + t == t;
    } else {
      assert (s + t)[1..] == s[1..] + t;
      ReplaceConcat(s[1..], t, needle, with);
    }
  }

  lemma ReplaceOne(c: char, needle: char, with: string)
    ensures Replace([c], needle, with) == if c == needle then with else [c]
  {
    assert [c][1..] == "" && Replace("", needle, with) == "";
  }

  lemma ReplaceTwo(c: char, d: char, needle: char, with: string)
    ensures Replace([c, d], needle, with)
            == (if c == needle then with else [c]) + (if d == needle then with else [d])
  {
    assert [c, d] == [c] + [d];
    ReplaceConcat([c], [d], needle, with);
    ReplaceOne(c, needle, with);
    ReplaceOne(d, needle, with);
  }

  lemma EscapeLikeOne(c: char)
    ensures EscapeLike([c]) == EscapeChar(c)
  {
    ReplaceOne(c, '\\', "\\\\");
    ReplaceOne(c, '%', "\\%");
    ReplaceOne(c, '_', "\\_");
    ReplaceTwo('\\', '\\', '%', "\\%");
    ReplaceTwo('\\', '\\', '_', "\\_");
    ReplaceTwo('\\', '%', '_', "\\_");
  }

  lemma {:induction false} EscapeLikeIsPerCharacter(value: string)
    ensures EscapeLike(value) == EscapeEach(value)
  {
    if value == "" {
    } else {
      var head, tail := [value[0]], value[1..];
      assert value == head + tail;
      ReplaceConcat(head, tail, '\\', "\\\\");
      var head1, tail1 := Replace(head, '\\', "\\\\"), Replace(tail, '\\', "\\\\");
      ReplaceConcat(head1, tail1, '%', "\\%");
      var head2, tail2 := Replace(head1, '%', "\\%"), Replace(tail1, '%', "\\%");
      ReplaceConcat(head2, tail2, '_', "\\_");
      EscapeLikeOne(value[0]);
      EscapeLikeIsPerCharacter(tail);
    }
  }

  lemma {:induction false} UnescapeInvertsEscape(value: string)
    ensures Unescape(EscapeLike(value)) == value
  {
    EscapeLikeIsPerCharacter(value);
    if value == "" {
    } else {
      UnescapeInvertsEscape(value[1..]);
      EscapeLikeIsPerCharacter(value[1..]);
      var e := EscapeEach(value);
      if Special(value[0]) {
        assert e[2..] == EscapeEach(value[1..]);
      } else {
        assert e[1..] == EscapeEach(value[1..]);
      }
    }
  }

  // ---------- the pattern means "contains" ----------

  lemma {:induction false} LikePercentOnly(fold: char -> char, s: string)
    ensures Like(fold, "%", s)
    decreases |s|
  {
    if s == "" {
    } else {
      LikePercentOnly(fold, s[1..]);
    }
  }

  lemma {:induction false} LikeEscapedThenPercent(fold: char -> char, q: string, s: string)
    ensures Like(fold, EscapeEach(q) + "%", s) <==> StartsWith(fold, s, q)
    decreases |q|
  {
    var p := EscapeEach(q) + "%";
    if q == "" {
      assert p == "%";
      LikePercentOnly(fold, s);
    } else {
      var rest := EscapeEach(q[1..]) + "%";
      if Special(q[0]) {
        assert p[0] == ESCAPE && p[1] == q[0] && p[2..] == rest;
      } else {
        assert p[0] == q[0] && p[1..] == rest;
      }
      if s != "" {
        LikeEscapedThenPercent(fold, q[1..], s[1..]);
        assert StartsWith(fold, s, q) <==> fold(q[0]) == fold(s[0]) && StartsWith(fold, s[1..], q[1..]) by {
          if fold(q[0]) == fold(s[0]) && StartsWith(fold, s[1..], q[1..]) {
            forall i | 0 <= i < |q| ensures fold(q[i]) == fold(s[i]) {
              if i > 0 { assert q[i] == q[1..][i - 1] && s[i] == s[1..][i - 1]; }
            }
          }
        }
      }
    }
  }

  lemma {:induction false} LikePercentPrefix(fold: char -> char, p: string, s: string)
    ensures Like(fold, "%" + p, s) <==> exists k :: 0 <= k <= |s| && Like(fold, p, s[k..])
    decreases |s|
  {
    var pattern := "%" + p;
    assert pattern[1..] == p && s[0..] == s;
    if s == "" {
    } else {
      LikePercentPrefix(fold, p, s[1..]);
      if k :| 0 <= k <= |s[1..]| && Like(fold, p, s[1..][k..]) {
        assert s[1..][k..] == s[k + 1..];
      }
      if k :| 1 <= k <= |s| && Like(fold, p, s[k..]) {
        assert s[1..][k - 1..] == s[k..];
      }
    }
  }

  /** The search finds exactly the texts that contain the query: no character of the query acts as a
      wildcard, for every query, every text and every case folding. */
  lemma SearchPatternMeansContains(fold: char -> char, q: string, s: string)
    ensures Like(fold, "%" + EscapeLike(q) + "%", s) <==> Contains(fold, s, q)
  {
    EscapeLikeIsPerCharacter(q);
    var p := EscapeEach(q) + "%";
    assert "%" + EscapeLike(q) + "%" == "%" + p;
    LikePercentPrefix(fold, p, s);
    forall k | 0 <= k <= |s| ensures Like(fold, p, s[k..]) <==> StartsWith(fold, s[k..], q) {
      LikeEscapedThenPercent(fold, q, s[k..]);
    }
  }

  /** Escaping in another order would not do: with `%` first, the escape it adds is itself escaped and the
      percent sign becomes a wildcard again. */
  lemma BackslashMustComeFirst()
    ensures Replace(Replace("%", '%', "\\%"), '\\', "\\\\") != EscapeEach("%")
    ensures EscapeLike("%") == EscapeEach("%")
  {
    ReplaceOne('%', '%', "\\%");
    ReplaceTwo('\\', '%', '\\', "\\\\");
    EscapeLikeIsPerCharacter("%");
  }
}
