/**
 * SQL Server's `LIKE` without an `ESCAPE` clause: `%` matches any run of
 * characters, `_` any one character, `[…]` one character of a list or range
 * and `[^…]` one character outside it; every other character matches itself.
 * The queries wrap the search text as `'%' + text + '%'` without escaping it,
 * so wildcards typed into a search box act as wildcards.
 */
module SqlLike {
  import opened Text

  /** One entry of a bracket class: a character, or a range `lo-hi`. */
  datatype ClassItem = Single(c: char) | Span(lo: char, hi: char)

  /** A pattern read into its elements; `Unclosed` is a `[` with no `]` after it, which matches nothing. */
  datatype Token = AnyRun | AnyChar | Literal(c: char) | Class(negated: bool, items: seq<ClassItem>) | Unclosed

  /** The entries between `[` and `]`: `x-y` is a range, anything else a single character. */
  function ClassItems(body: string): seq<ClassItem>
    decreases |body|
  {
    if body == [] then []
    else if |body| >= 3 && body[1] == '-' then [Span(body[0], body[2])] + ClassItems(body[3..])
    else [Single(body[0])] + ClassItems(body[1..])
  }

  predicate ItemMatches(c: char, item: ClassItem) {
    match item
    case Single(d) => c == d
    case Span(lo, hi) => lo <= c <= hi
  }

  predicate InClass(c: char, items: seq<ClassItem>) {
    exists i :: 0 <= i < |items| && ItemMatches(c, items[i])
  }

  /** Reads a pattern from the left; a class runs to the first `]` after its `[`. */
  function Tokens(p: string): seq<Token>
    decreases |p|
  {
    if p == [] then []
    else if p[0] == '%' then [AnyRun] + Tokens(p[1..])
    else if p[0] == '_' then [AnyChar] + Tokens(p[1..])
    else if p[0] == '[' then
      match IndexOf(p[1..], ']')
      case None => [Unclosed]
      case Some(k) =>
        var body := p[1..][..k];
        var bracket := if body != [] && body[0] == '^' then Class(true, ClassItems(body[1..])) else Class(false, ClassItems(body));
        [bracket] + Tokens(p[k + 2..])
    else [Literal(p[0])] + Tokens(p[1..])
  }

  /** Whether the whole of `s` matches the pattern elements `ts`. */
  predicate Matches(s: string, ts: seq<Token>)
    decreases |s|, |ts|
  {
    if ts == [] then s == []
    else match ts[0]
      case AnyRun => Matches(s, ts[1..]) || (s != [] && Matches(s[1..], ts))
      case AnyChar => s != [] && Matches(s[1..], ts[1..])
      case Literal(c) => s != [] && s[0] == c && Matches(s[1..], ts[1..])
      case Class(negated, items) => s != [] && InClass(s[0], items) != negated && Matches(s[1..], ts[1..])
      case Unclosed => false
  }

  /** `s LIKE pattern`. */
  predicate Like(s: string, pattern: string) {
    Matches(s, Tokens(pattern))
  }

  /** `s LIKE '%' + text + '%'`: the search condition the queries build. */
  predicate LikeContains(s: string, text: string) {
    Like(s, "%" + text + "%")
  }

  /** The text holds none of the characters `LIKE` treats specially. */
  predicate NoWildcards(t: string) {
    forall i :: 0 <= i < |t| ==> t[i] != '%' && t[i] != '_' && t[i] != '['
  }

  function Literals(t: string): (ts: seq<Token>)
    ensures |ts| == |t|
    ensures forall i :: 0 <= i < |t| ==> ts[i] == Literal(t[i])
  {
    seq(|t|, i requires 0 <= i < |t| => Literal(t[i]))
  }

  lemma {:induction false} TokensOfLiteral(t: string, rest: string)
    requires NoWildcards(t)
    ensures Tokens(t + rest) == Literals(t) + Tokens(rest)
    decreases |t|
  {
    if t == [] {
      assert t + rest == rest;
    } else {
      assert (t + rest)[0] == t[0];
      assert (t + rest)[1..] == t[1..] + rest;
      TokensOfLiteral(t[1..], rest);
      assert Literals(t) == [Literal(t[0])] + Literals(t[1..]);
    }
  }

  /** A lone `%` matches every string. */
  lemma {:induction false} AnyRunMatchesAll(s: string)
    ensures Matches(s, [AnyRun])
    decreases |s|
  {
    assert [AnyRun][1..] == [];
    if s != [] {
      AnyRunMatchesAll(s[1..]);
    }
  }

  /** Literal characters followed by `%` match exactly the strings that start with those characters. */
  lemma {:induction false} LiteralsThenAnyRun(s: string, t: string)
    ensures Matches(s, Literals(t) + [AnyRun]) <==> |t| <= |s| && s[..|t|] == t
    decreases |t|
  {
    var ts := Literals(t) + [AnyRun];
    if t == [] {
      assert ts == [AnyRun];
      AnyRunMatchesAll(s);
    } else {
      assert ts[0] == Literal(t[0]);
      assert ts[1..] == Literals(t[1..]) + [AnyRun];
      if s != [] {
        LiteralsThenAnyRun(s[1..], t[1..]);
        if |t| <= |s| {
          assert s[..|t|] == [s[0]] + s[1..][..|t| - 1];
          assert t == [t[0]] + t[1..];
        }
      }
    }
  }

  /** A leading `%` lets the rest of the pattern match any suffix. */
  lemma {:induction false} AnyRunThen(s: string, q: seq<Token>)
    ensures Matches(s, [AnyRun] + q) <==> exists i :: 0 <= i <= |s| && Matches(s[i..], q)
    decreases |s|
  {
    var ts := [AnyRun] + q;
    assert ts[1..] == q;
    assert s[0..] == s;
    if s != [] {
      AnyRunThen(s[1..], q);
      if exists i :: 0 <= i <= |s| && Matches(s[i..], q) {
        var i :| 0 <= i <= |s| && Matches(s[i..], q);
        if i > 0 {
          assert s[1..][i - 1..] == s[i..];
        }
      }
      if exists i :: 0 <= i <= |s[1..]| && Matches(s[1..][i..], q) {
        var i :| 0 <= i <= |s[1..]| && Matches(s[1..][i..], q);
        assert s[1..][i..] == s[i + 1..];
      }
    }
  }

  /** For a search text without wildcards, the `LIKE` search is a plain substring test. */
  lemma LikeContainsLiteral(s: string, t: string)
    requires NoWildcards(t)
    ensures LikeContains(s, t) <==> Contains(s, t)
  {
    var p := "%" + t + "%";
    assert p[0] == '%' && p[1..] == t + "%";
    TokensOfLiteral(t, "%");
    assert Tokens("%") == [AnyRun] by { assert "%"[1..] == []; }
    assert Tokens(p) == [AnyRun] + (Literals(t) + [AnyRun]);
    AnyRunThen(s, Literals(t) + [AnyRun]);
    forall i | 0 <= i <= |s|
      ensures Matches(s[i..], Literals(t) + [AnyRun]) <==> OccursAt(s, t, i)
    {
      LiteralsThenAnyRun(s[i..], t);
      if |t| <= |s| - i {
        assert s[i..][..|t|] == s[i..i + |t|];
      }
    }
  }

  /** Searching for `_` finds every non-empty text, not only texts that contain `_`. */
  lemma UnderscoreMatchesAnyText(s: string)
    requires s != []
    ensures LikeContains(s, "_")
  {
    var p := "%" + "_" + "%";
    assert p[1..] == "_%" && "_%"[1..] == "%" && "%"[1..] == [];
    assert Tokens(p) == [AnyRun, AnyChar, AnyRun];
    assert [AnyRun, AnyChar, AnyRun][1..] == [AnyChar, AnyRun];
    assert [AnyChar, AnyRun][1..] == [AnyRun];
    AnyRunMatchesAll(s[1..]);
  }

  lemma TokensOfPercentSearch()
    ensures Tokens("%" + "50%" + "%") == [AnyRun, Literal('5'), Literal('0'), AnyRun, AnyRun]
  {
    var p := "%" + "50%" + "%";
    assert p == "%50%%";
    assert p[1..] == "50%%" && "50%%"[1..] == "0%%" && "0%%"[1..] == "%%" && "%%"[1..] == "%" && "%"[1..] == [];
  }

  lemma NoPercentIn(s: string)
    requires '%' !in s
    ensures !Contains(s, "50%")
  {
    forall i
      ensures !OccursAt(s, "50%", i)
    {
      if 0 <= i <= |s| - 3 {
        assert s[i + 2] in s;
        assert s[i..i + 3][2] == s[i + 2];
      }
    }
  }

  /** Searching for `50%` finds every text that contains "50", whatever follows it. */
  lemma {:induction false} PercentInSearch(s: string)
    requires Contains(s, "50")
    ensures LikeContains(s, "50%")
  {
    var q := [Literal('5'), Literal('0'), AnyRun, AnyRun];
    TokensOfPercentSearch();
    assert [AnyRun, Literal('5'), Literal('0'), AnyRun, AnyRun] == [AnyRun] + q;
    var i :| OccursAt(s, "50", i);
    var t := s[i..];
    assert t[0] == s[i..i + 2][0] == '5' && t[1] == s[i..i + 2][1] == '0';
    assert q[1..] == [Literal('0'), AnyRun, AnyRun] && q[1..][1..] == [AnyRun, AnyRun];
    assert [AnyRun, AnyRun][1..] == [AnyRun];
    AnyRunMatchesAll(t[1..][1..]);
    assert Matches(t[1..][1..], [AnyRun, AnyRun]);
    assert Matches(t, q);
    AnyRunThen(s, q);
  }

  /** "Скидка 50 лет" does not contain the text "50%", yet the search for "50%" finds it. */
  lemma PercentSearchExample()
    ensures LikeContains("Скидка 50 лет", "50%")
    ensures !Contains("Скидка 50 лет", "50%")
  {
    var s := "Скидка 50 лет";
    assert OccursAt(s, "50", 7) by { assert s[7..9] == "50"; }
    PercentInSearch(s);
    NoPercentIn(s);
  }
}
