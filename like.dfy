/** The meaning of the pattern a `contains` comparison sends to the database:
    the LIKE predicate of the SQL standard (`%` matches any run of
    characters, `_` any single character, and the escape character, when
    there is one, makes the character after it literal). This is the
    reference against which the escaping of `filter_query` is judged. */
module Like {
  import opened Values
  import opened Lookups

  /** `s LIKE p [ESCAPE esc]`. */
  predicate Like(p: string, s: string, esc: Option<char>)
    decreases |p| + |s|
  {
    if p == [] then s == []
    else if esc == Some(p[0]) && |p| >= 2 then s != [] && s[0] == p[1] && Like(p[2..], s[1..], esc)
    else if p[0] == '%' then Like(p[1..], s, esc) || (s != [] && Like(p, s[1..], esc))
    else if p[0] == '_' then s != [] && Like(p[1..], s[1..], esc)
    else s != [] && s[0] == p[0] && Like(p[1..], s[1..], esc)
  }

  /** `v` occurs in `s` starting at index `i`. */
  predicate OccursAt(v: string, s: string, i: int)
  {
    0 <= i && i + |v| <= |s| && s[i..i + |v|] == v
  }

  /** `v in s` on strings: what a `contains` filter is meant to select. */
  predicate IsSubstring(v: string, s: string)
  {
    exists i :: 0 <= i <= |s| && OccursAt(v, s, i)
  }

  /** The escape modifier a clause carries, as the character LIKE uses. */
  function EscapeChar(modifier: Option<string>): Option<char>
  {
    if modifier == Some("\\") then Some('\\') else None
  }

  predicate MatchesFrom(q: string, s: string, i: int, esc: Option<char>)
  {
    0 <= i <= |s| && Like(q, s[i..], esc)
  }

  /** A leading `%` lets the rest of the pattern match any suffix. */
  lemma {:induction false} LeadingPercent(q: string, s: string, esc: Option<char>)
    requires esc != Some('%')
    ensures Like("%" + q, s, esc) <==> exists i :: MatchesFrom(q, s, i, esc)
    decreases |s|
  {
    var p := "%" + q;
    assert p[1..] == q;
    if s == [] {
      if Like(p, s, esc) {
        assert MatchesFrom(q, s, 0, esc);
      }
      if exists i :: MatchesFrom(q, s, i, esc) {
        var i :| MatchesFrom(q, s, i, esc);
        assert i == 0 && s[i..] == s;
      }
    } else {
      LeadingPercent(q, s[1..], esc);
      assert Like(p, s, esc) == (Like(q, s, esc) || Like(p, s[1..], esc));
      if Like(q, s, esc) {
        assert s[0..] == s;
        assert MatchesFrom(q, s, 0, esc);
      }
      if Like(p, s[1..], esc) {
        var i :| MatchesFrom(q, s[1..], i, esc);
        assert s[1..][i..] == s[i + 1..];
        assert MatchesFrom(q, s, i + 1, esc);
      }
      if exists i :: MatchesFrom(q, s, i, esc) {
        var i :| MatchesFrom(q, s, i, esc);
        if i == 0 {
          assert s[0..] == s;
        } else {
          assert s[1..][i - 1..] == s[i..];
          assert MatchesFrom(q, s[1..], i - 1, esc);
        }
      }
    }
  }

  /** A lone `%` matches every string. */
  lemma {:induction false} PercentMatchesAll(t: string, esc: Option<char>)
    requires esc != Some('%')
    ensures Like("%", t, esc)
    decreases |t|
  {
    if t != [] {
      PercentMatchesAll(t[1..], esc);
    }
  }

  /** Without an escape character, a value free of wildcards matches itself
      and nothing else. */
  lemma {:induction false} PlainLiteral(v: string, q: string, s: string)
    requires !HasWildcard(v)
    ensures Like(v + q, s, None) <==> |v| <= |s| && s[..|v|] == v && Like(q, s[|v|..], None)
  {
    if v != [] {
      var p := v + q;
      assert p[1..] == v[1..] + q;
      assert !HasWildcard(v[1..]) by {
        assert forall c :: c in v[1..] ==> c in v;
      }
      assert v[0] in v;
      if s != [] {
        PlainLiteral(v[1..], q, s[1..]);
        if |v| <= |s| {
          assert s[1..][|v| - 1..] == s[|v|..];
          assert s[..|v|] == [s[0]] + s[1..][..|v| - 1];
          assert v == [v[0]] + v[1..];
        }
      }
    } else {
      assert v + q == q && s[0..] == s;
    }
  }

  /** A value rewritten by the as-written escaping and carrying no backslash
      of its own matches itself and nothing else under the escape
      modifier. */
  lemma {:induction false} EscapedLiteral(v: string, q: string, s: string)
    requires '\\' !in v
    ensures Like(EscapeEach(v) + q, s, Some('\\')) <==> |v| <= |s| && s[..|v|] == v && Like(q, s[|v|..], Some('\\'))
  {
    if v != [] {
      EscapeAllNoBackslash(v);
      EscapeAllLiteral(v, q, s);
    } else {
      assert EscapeEach(v) + q == q && s[0..] == s;
    }
  }

  /** The `contains` pattern selects exactly the strings that hold the value,
      PROVIDED the value has no backslash whenever it is escaped. */
  lemma ContainsPatternMeaning(v: string, s: string)
    requires HasWildcard(v) ==> '\\' !in v
    ensures Like(ContainsPattern(v).0, s, EscapeChar(ContainsPattern(v).1)) <==> IsSubstring(v, s)
  {
    var (pat, modifier) := ContainsPattern(v);
    var esc := EscapeChar(modifier);
    var body := if HasWildcard(v) then EscapeEach(v) else v;
    assert pat == "%" + (body + "%");
    LeadingPercent(body + "%", s, esc);
    forall i | 0 <= i <= |s|
      ensures MatchesFrom(body + "%", s, i, esc) <==> OccursAt(v, s, i)
    {
      var t := s[i..];
      if HasWildcard(v) {
        EscapedLiteral(v, "%", t);
      } else {
        PlainLiteral(v, "%", t);
      }
      if |v| <= |t| {
        PercentMatchesAll(t[|v|..], esc);
        assert t[..|v|] == s[i..i + |v|];
      }
    }
    if IsSubstring(v, s) {
      var i :| 0 <= i <= |s| && OccursAt(v, s, i);
      assert MatchesFrom(body + "%", s, i, esc);
    }
    if exists i :: MatchesFrom(body + "%", s, i, esc) {
      var i :| MatchesFrom(body + "%", s, i, esc);
      assert OccursAt(v, s, i);
    }
  }

  /** The pattern and modifier compiled for the value `a\_`. */
  lemma CounterexamplePattern()
    ensures ContainsPattern("a\\_") == (['%', 'a', '\\', '\\', '_', '%'], Some("\\"))
  {
    var v := "a\\_";
    assert HasWildcard(v) by { assert v[2] == '_'; }
    assert EscapeEach(v) == ['a', '\\', '\\', '_'] by {
      assert EscapeEach(v) == ['a'] + EscapeEach(v[1..]);
      assert v[1..] == ['\\', '_'] && v[1..][1..] == ['_'];
    }
    assert "%" + ['a', '\\', '\\', '_'] + "%" == ['%', 'a', '\\', '\\', '_', '%'];
  }

  /** That pattern, escaped by backslash, matches `a\b`. */
  lemma CounterexampleMatches()
    ensures Like(['%', 'a', '\\', '\\', '_', '%'], "a\\b", Some('\\'))
  {
    var e := Some('\\');
    var pat: string := ['%', 'a', '\\', '\\', '_', '%'];
    assert Like(['%'], [], e);
    assert Like(['_', '%'], ['b'], e) by {
      assert ['_', '%'][1..] == ['%'] && ['b'][1..] == [];
    }
    assert Like(['\\', '\\', '_', '%'], ['\\', 'b'], e) by {
      assert ['\\', '\\', '_', '%'][2..] == ['_', '%'] && ['\\', 'b'][1..] == ['b'];
    }
    assert Like(pat[1..], "a\\b", e) by {
      assert pat[1..][1..] == ['\\', '\\', '_', '%'] && "a\\b"[1..] == ['\\', 'b'];
    }
  }

  /** A value with a backslash and a wildcard (here `a\_`) is matched by a
      string that does not hold it: the backslash of the value escapes the
      backslash the escaping added, so the `_` stays a wildcard. */
  lemma ContainsPatternCounterexample()
    ensures var v := "a\\_";
      var s := "a\\b";
      Like(ContainsPattern(v).0, s, EscapeChar(ContainsPattern(v).1)) && !IsSubstring(v, s)
  {
    var v := "a\\_";
    var s := "a\\b";
    CounterexamplePattern();
    CounterexampleMatches();
    forall i | 0 <= i <= |s| ensures !OccursAt(v, s, i) {
      if i == 0 {
        assert s[2] != v[2];
      }
    }
  }

  // ---- the escaping the comparison needs ----

  /** Puts a backslash before each `%`, `_` and backslash. */
  function EscapeAll(s: string): string
  {
    if s == [] then []
    else if s[0] == '%' || s[0] == '_' || s[0] == '\\' then ['\\', s[0]] + EscapeAll(s[1..])
    else [s[0]] + EscapeAll(s[1..])
  }

  lemma {:induction false} EscapeAllNoBackslash(v: string)
    requires '\\' !in v
    ensures EscapeAll(v) == EscapeEach(v)
  {
    if v != [] {
      assert v[0] in v;
      assert '\\' !in v[1..] by { assert forall c :: c in v[1..] ==> c in v; }
      EscapeAllNoBackslash(v[1..]);
    }
  }

  lemma {:induction false} EscapeAllLiteral(v: string, q: string, s: string)
    ensures Like(EscapeAll(v) + q, s, Some('\\')) <==> |v| <= |s| && s[..|v|] == v && Like(q, s[|v|..], Some('\\'))
  {
    var e := Some('\\');
    if v != [] {
      var p := EscapeAll(v) + q;
      var tail := EscapeAll(v[1..]) + q;
      if v[0] == '%' || v[0] == '_' || v[0] == '\\' {
        assert p == ['\\', v[0]] + tail;
        assert p[2..] == tail;
      } else {
        assert p == [v[0]] + tail;
        assert p[1..] == tail;
      }
      if s != [] {
        EscapeAllLiteral(v[1..], q, s[1..]);
        if |v| <= |s| {
          assert s[1..][|v| - 1..] == s[|v|..];
          assert s[..|v|] == [s[0]] + s[1..][..|v| - 1];
          assert v == [v[0]] + v[1..];
        }
      }
    } else {
      assert EscapeAll(v) + q == q && s[0..] == s;
    }
  }

  /** `"\\" in value or any(c in value for c in "%_")`. */
  predicate NeedsEscape(v: string)
  {
    HasWildcard(v) || '\\' in v
  }

  /** The `contains` pattern with the backslash escaped as well. */
  function ContainsPatternFixed(v: string): (r: (string, Option<string>))
    ensures r.1 == Some("\\") <==> NeedsEscape(v)
  {
    if NeedsEscape(v) then ("%" + EscapeAll(v) + "%", Some("\\"))
    else ("%" + v + "%", None)
  }

  /** With the backslash escaped too, the pattern selects exactly the
      strings that hold the value, for every value. */
  lemma ContainsPatternFixedMeaning(v: string, s: string)
    ensures Like(ContainsPatternFixed(v).0, s, EscapeChar(ContainsPatternFixed(v).1)) <==> IsSubstring(v, s)
  {
    var (pat, modifier) := ContainsPatternFixed(v);
    var esc := EscapeChar(modifier);
    var body := if NeedsEscape(v) then EscapeAll(v) else v;
    assert pat == "%" + (body + "%");
    LeadingPercent(body + "%", s, esc);
    forall i | 0 <= i <= |s|
      ensures MatchesFrom(body + "%", s, i, esc) <==> OccursAt(v, s, i)
    {
      var t := s[i..];
      if NeedsEscape(v) {
        EscapeAllLiteral(v, "%", t);
      } else {
        PlainLiteral(v, "%", t);
      }
      if |v| <= |t| {
        PercentMatchesAll(t[|v|..], esc);
        assert t[..|v|] == s[i..i + |v|];
      }
    }
    if IsSubstring(v, s) {
      var i :| 0 <= i <= |s| && OccursAt(v, s, i);
      assert MatchesFrom(body + "%", s, i, esc);
    }
    if exists i :: MatchesFrom(body + "%", s, i, esc) {
      var i :| MatchesFrom(body + "%", s, i, esc);
      assert OccursAt(v, s, i);
    }
  }
}
