/**
 * SQL `LIKE` / `ILIKE` pattern matching, as the search filters use it: `%`
 * matches any run of characters, `_` any single character, and no escape
 * character is declared, so a `%` or `_` in the user's search text is a
 * wildcard too.
 */
module Like {
  import opened Strings

  /** `s` contains neither of the two wildcard characters. */
  predicate NoWildcards(s: string) {
    forall i :: 0 <= i < |s| ==> s[i] != '%' && s[i] != '_'
  }

  /** `t LIKE p`, case-sensitively. */
  predicate Match(t: string, p: string)
    decreases |p|, |t|
  {
    if p == [] then t == []
    else if p[0] == '%' then Match(t, p[1..]) || (t != [] && Match(t[1..], p))
    else t != [] && (p[0] == '_' || p[0] == t[0]) && Match(t[1..], p[1..])
  }

  /** `t ILIKE p`: both sides compared after lower-casing. */
  predicate IMatch(t: string, p: string) {
    Match(ToLower(t), ToLower(p))
  }

  lemma {:induction false} PercentMatchesAnything(t: string)
    ensures Match(t, "%")
    decreases |t|
  {
    if t != [] {
      PercentMatchesAnything(t[1..]);
    }
  }

  /** A literal head of the pattern must be a literal head of the text. */
  lemma {:induction false} MatchLiteral(t: string, s: string, q: string)
    requires NoWildcards(s)
    ensures Match(t, s + q) <==> IsPrefix(s, t) && Match(t[|s|..], q)
    decreases |s|
  {
    if s == [] {
      assert s + q == q && t[|s|..] == t;
    } else {
      assert (s + q)[0] == s[0] && (s + q)[1..] == s[1..] + q;
      if t != [] {
        MatchLiteral(t[1..], s[1..], q);
        if |s| <= |t| {
          assert t[1..][|s| - 1..] == t[|s|..];
        }
        assert IsPrefix(s, t) <==> s[0] == t[0] && IsPrefix(s[1..], t[1..]) by {
          if s[0] == t[0] && IsPrefix(s[1..], t[1..]) {
            assert t[..|s|] == [t[0]] + t[1..][..|s| - 1];
          }
          if IsPrefix(s, t) {
            assert t[1..][..|s| - 1] == t[..|s|][1..];
          }
        }
      }
    }
  }

  /** `%s%` with a literal `s` is exactly "contains `s`". */
  lemma {:induction false} MatchContains(t: string, s: string)
    requires NoWildcards(s)
    ensures Match(t, "%" + s + "%") <==> Contains(t, s)
    decreases |t|
  {
    var p := "%" + s + "%";
    assert p[0] == '%' && p[1..] == s + "%";
    MatchLiteral(t, s, "%");
    if IsPrefix(s, t) {
      PercentMatchesAnything(t[|s|..]);
    }
    if t != [] {
      MatchContains(t[1..], s);
    }
  }

  /** A literal pattern matches only the identical text. */
  lemma MatchExact(t: string, s: string)
    requires NoWildcards(s)
    ensures Match(t, s) <==> t == s
  {
    MatchLiteral(t, s, []);
    assert s + [] == s;
  }

  lemma ToLowerKeepsNoWildcards(s: string)
    requires NoWildcards(s)
    ensures NoWildcards(ToLower(s))
  {
  }

  lemma ToLowerWrap(s: string)
    ensures ToLower("%" + s + "%") == "%" + ToLower(s) + "%"
  {
    var a, b := ToLower("%" + s + "%"), "%" + ToLower(s) + "%";
    assert |a| == |b|;
    forall i | 0 <= i < |a| ensures a[i] == b[i] {
      if 0 < i < |a| - 1 {
        assert ("%" + s + "%")[i] == s[i - 1];
      }
    }
  }

  /** `%s%` under ILIKE with a literal `s`: case-insensitive containment. */
  lemma IMatchContains(t: string, s: string)
    requires NoWildcards(s)
    ensures IMatch(t, "%" + s + "%") <==> Contains(ToLower(t), ToLower(s))
  {
    ToLowerWrap(s);
    ToLowerKeepsNoWildcards(s);
    MatchContains(ToLower(t), ToLower(s));
  }

  /** A search for "%" becomes the pattern "%%%", which every text matches. */
  lemma {:induction false} PercentSearchMatchesEverything(t: string)
    ensures IMatch(t, "%" + "%" + "%")
  {
    var p := "%" + "%" + "%";
    assert ToLower(p) == p;
    assert p[1..] == "%%" && p[1..][1..] == "%";
    PercentMatchesAnything(ToLower(t));
  }
}
