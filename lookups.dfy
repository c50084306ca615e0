/** The string side of keyword filtering in the query-set builder: splitting
    a filter keyword such as `author__name__icontains` on the `__`
    separator, deciding which segment is the operator, the field and the
    relationship path, and escaping `contains`/`icontains` values. */
module Lookups {
  import opened Values

  const Sep: string := "__"

  /** `"__" in s`. */
  predicate HasSep(s: string)
  {
    exists i :: 0 <= i < |s| - 1 && s[i] == '_' && s[i + 1] == '_'
  }

  /** `s.split("__")`: scans left to right, cutting at each non-overlapping
      occurrence of the separator. */
  function Split(s: string): (parts: seq<string>)
    ensures |parts| >= 1
    decreases |s|
  {
    if |s| < 2 then [s]
    else if s[0] == '_' && s[1] == '_' then [""] + Split(s[2..])
    else
      var rest := Split(s[1..]);
      [[s[0]] + rest[0]] + rest[1..]
  }

  /** `"__".join(parts)`. */
  function Join(parts: seq<string>): string
  {
    if parts == [] then ""
    else if |parts| == 1 then parts[0]
    else parts[0] + Sep + Join(parts[1..])
  }

  lemma JoinCons(p: string, ps: seq<string>)
    requires ps != []
    ensures Join([p] + ps) == p + Sep + Join(ps)
  {
    assert ([p] + ps)[1..] == ps;
  }

  /** Gluing a character onto the first piece glues it onto the join. */
  lemma JoinGlue(c: char, parts: seq<string>)
    requires parts != []
    ensures Join([[c] + parts[0]] + parts[1..]) == [c] + Join(parts)
  {
    if |parts| > 1 {
      JoinCons([c] + parts[0], parts[1..]);
      assert parts == [parts[0]] + parts[1..];
      JoinCons(parts[0], parts[1..]);
      assert ([c] + parts[0]) + Sep + Join(parts[1..]) == [c] + (parts[0] + Sep + Join(parts[1..]));
    }
  }

  /** Joining the pieces of a split gives back the keyword. */
  lemma {:induction false} JoinSplit(s: string)
    ensures Join(Split(s)) == s
    decreases |s|
  {
    if |s| < 2 {
    } else if s[0] == '_' && s[1] == '_' {
      var tail := Split(s[2..]);
      JoinSplit(s[2..]);
      assert Split(s) == [""] + tail;
      JoinCons("", tail);
      assert s == Sep + s[2..];
    } else {
      JoinSplit(s[1..]);
      JoinGlue(s[0], Split(s[1..]));
      assert [s[0]] + s[1..] == s;
    }
  }

  /** A keyword is split into two or more pieces exactly when it contains
      the separator. */
  lemma {:induction false} SplitHasSep(s: string)
    ensures HasSep(s) <==> |Split(s)| >= 2
    decreases |s|
  {
    if |s| < 2 {
    } else if s[0] == '_' && s[1] == '_' {
      assert HasSep(s) by { assert s[0] == '_' && s[1] == '_'; }
    } else {
      SplitHasSep(s[1..]);
      assert |Split(s)| == |Split(s[1..])|;
      if HasSep(s) {
        var i :| 0 <= i < |s| - 1 && s[i] == '_' && s[i + 1] == '_';
        assert i > 0;
        assert s[1..][i - 1] == '_' && s[1..][i] == '_';
      }
      if HasSep(s[1..]) {
        var i :| 0 <= i < |s[1..]| - 1 && s[1..][i] == '_' && s[1..][i + 1] == '_';
        assert s[i + 1] == '_' && s[i + 2] == '_';
      }
    }
  }

  /** A parsed filter keyword: the relationship path walked first, the field
      compared and the comparison operator. */
  datatype KeyPath = KeyPath(related: seq<string>, field: string, op: string)

  /** How `filter_query` reads a keyword (base.py:223-255). With the
      separator, a last segment that names a known operator is the operator
      and the one before it the field; otherwise the operator is `exact` and
      the last segment is the field; the segments before form the path.
      Without the separator the whole keyword is an `exact` comparison. */
  function ParseKey(key: string, operators: set<string>): (k: KeyPath)
    ensures !HasSep(key) ==> k == KeyPath([], key, "exact")
    ensures HasSep(key) && k.op != "exact" ==> k.op in operators
    ensures HasSep(key) && Split(key)[|Split(key)| - 1] in operators ==>
      k.related + [k.field, k.op] == Split(key) && Join(k.related + [k.field, k.op]) == key
    ensures HasSep(key) && Split(key)[|Split(key)| - 1] !in operators ==>
      k.op == "exact" && k.related + [k.field] == Split(key) && Join(k.related + [k.field]) == key
  {
    if !HasSep(key) then KeyPath([], key, "exact")
    else
      var parts := Split(key);
      SplitHasSep(key);
      JoinSplit(key);
      var n := |parts|;
      if parts[n - 1] in operators then
        assert parts == parts[..n - 2] + [parts[n - 2], parts[n - 1]];
        KeyPath(parts[..n - 2], parts[n - 2], parts[n - 1])
      else
        assert parts == parts[..n - 1] + [parts[n - 1]];
        KeyPath(parts[..n - 1], parts[n - 1], "exact")
  }

  // ---- escaping of `contains` / `icontains` values (base.py:271-285) ----

  const EscapeCharacters: seq<char> := ['%', '_']

  /** `s.replace(c, "\\" + c)`. */
  function PrefixEach(s: string, c: char): (r: string)
    ensures |r| >= |s|
  {
    if s == [] then []
    else if s[0] == c then ['\\', c] + PrefixEach(s[1..], c)
    else [s[0]] + PrefixEach(s[1..], c)
  }

  /** The value rewritten when it holds a wildcard character: each
      replacement of ESCAPE_CHARACTERS applied in turn. */
  function EscapeWildcards(s: string): string
  {
    PrefixEach(PrefixEach(s, '%'), '_')
  }

  /** `any(c for c in ESCAPE_CHARACTERS if c in value)`. */
  predicate HasWildcard(s: string)
  {
    '%' in s || '_' in s
  }

  /** One pass over the value that puts a backslash before each `%` and
      `_`: the reference the two successive replacements are proved to
      agree with. */
  function EscapeEach(s: string): string
  {
    if s == [] then []
    else if s[0] == '%' || s[0] == '_' then ['\\', s[0]] + EscapeEach(s[1..])
    else [s[0]] + EscapeEach(s[1..])
  }

  lemma {:induction false} PrefixEachAppend(a: string, b: string, c: char)
    ensures PrefixEach(a + b, c) == PrefixEach(a, c) + PrefixEach(b, c)
  {
    if a != [] {
      assert (a + b)[1..] == a[1..] + b;
      PrefixEachAppend(a[1..], b, c);
    } else {
      assert a + b == b;
    }
  }

  /** The two successive replacements put exactly one backslash before each
      wildcard character and change nothing else. */
  lemma {:induction false} EscapeWildcardsIsEscapeEach(s: string)
    ensures EscapeWildcards(s) == EscapeEach(s)
  {
    if s != [] {
      EscapeWildcardsIsEscapeEach(s[1..]);
      var head := if s[0] == '%' then ['\\', '%'] else [s[0]];
      assert PrefixEach(s, '%') == head + PrefixEach(s[1..], '%');
      PrefixEachAppend(head, PrefixEach(s[1..], '%'), '_');
      if s[0] == '%' {
        assert PrefixEach(head, '_') == ['\\', '%'] by {
          assert head[1..] == ['%'];
          assert PrefixEach(['%'], '_') == ['%'];
        }
      } else if s[0] == '_' {
        assert PrefixEach(head, '_') == ['\\', '_'];
      } else {
        assert PrefixEach(head, '_') == [s[0]];
      }
    }
  }

  /** Removes the backslash in front of each escaped wildcard. */
  function Unescape(t: string): string
  {
    if |t| >= 2 && t[0] == '\\' && (t[1] == '%' || t[1] == '_') then [t[1]] + Unescape(t[2..])
    else if t == [] then []
    else [t[0]] + Unescape(t[1..])
  }

  /** Escaping loses nothing: removing the escapes gives back the value. */
  lemma {:induction false} UnescapeEscape(s: string)
    ensures Unescape(EscapeWildcards(s)) == s
  {
    EscapeWildcardsIsEscapeEach(s);
    UnescapeEscapeEach(s);
  }

  lemma {:induction false} UnescapeEscapeEach(s: string)
    ensures Unescape(EscapeEach(s)) == s
  {
    if s != [] {
      UnescapeEscapeEach(s[1..]);
      var e := EscapeEach(s);
      if s[0] == '%' || s[0] == '_' {
        assert e[2..] == EscapeEach(s[1..]);
      } else if s[0] == '\\' && s[1..] != [] && (s[1] == '%' || s[1] == '_') {
        assert e == ['\\'] + EscapeEach(s[1..]);
        assert e[1] == '\\';
      } else {
        assert e[1..] == EscapeEach(s[1..]);
        if |e| >= 2 && e[0] == '\\' {
          assert s[1..] != [] && e[1] == EscapeEach(s[1..])[0];
        }
      }
    }
  }

  /** The pattern and escape modifier a `contains`/`icontains` comparison
      gets (base.py:273-285): wildcards escaped and the escape modifier set
      to a backslash when there are any, then `%` on both sides. */
  function ContainsPattern(value: string): (r: (string, Option<string>))
    ensures r.1 == Some("\\") <==> HasWildcard(value)
    ensures r.1 == None <==> !HasWildcard(value)
    ensures !HasWildcard(value) ==> r.0 == "%" + value + "%"
    ensures HasWildcard(value) ==> r.0 == "%" + EscapeEach(value) + "%" && Unescape(r.0[1..|r.0| - 1]) == value
  {
    if HasWildcard(value) then
      EscapeWildcardsIsEscapeEach(value);
      UnescapeEscape(value);
      ("%" + EscapeWildcards(value) + "%", Some("\\"))
    else ("%" + value + "%", None)
  }
}
