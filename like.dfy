/**
  PostgreSQL's `text ILIKE pattern`, which SQLAlchemy's `column.ilike(p)`
  emits. In a pattern `%` matches any run of characters (also none), `_`
  matches exactly one character, a backslash makes the next character
  literal, and every other character matches itself ignoring case. Case is
  folded for the ASCII letters only.
*/
module Like {

  function Fold(c: char): char {
    if 'A' <= c <= 'Z' then (c as int + 32) as char else c
  }

  predicate ILike(text: string, pattern: string)
    ensures ILike(text, pattern) ==> MinLength(pattern) <= |text|
    ensures ILike(text, pattern) && NoPercent(pattern) ==> |text| == MinLength(pattern)
    decreases |pattern| + |text|
  {
    if pattern == [] then text == []
    else if pattern[0] == '%' then
      ILike(text, pattern[1..]) || (text != [] && ILike(text[1..], pattern))
    else if pattern[0] == '_' then
      text != [] && ILike(text[1..], pattern[1..])
    else if pattern[0] == '\\' && |pattern| >= 2 then
      text != [] && Fold(text[0]) == Fold(pattern[1]) && ILike(text[1..], pattern[2..])
    else
      text != [] && Fold(text[0]) == Fold(pattern[0]) && ILike(text[1..], pattern[1..])
  }

  /** The number of text characters a pattern consumes at least: one per `_`, escaped or plain character. */
  function MinLength(pattern: string): nat {
    if pattern == [] then 0
    else if pattern[0] == '%' then MinLength(pattern[1..])
    else if pattern[0] == '\\' && |pattern| >= 2 then 1 + MinLength(pattern[2..])
    else 1 + MinLength(pattern[1..])
  }

  predicate NoPercent(pattern: string) {
    forall i :: 0 <= i < |pattern| ==> pattern[i] != '%'
  }

  /** A search term with none of the characters ILIKE gives a meaning to. */
  predicate Plain(term: string) {
    forall i :: 0 <= i < |term| ==> term[i] != '%' && term[i] != '_' && term[i] != '\\'
  }

  predicate FoldEq(a: string, b: string) {
    |a| == |b| && forall i :: 0 <= i < |a| ==> Fold(a[i]) == Fold(b[i])
  }

  /** `term` occurs in `text` at position i, ignoring case. */
  predicate OccursAt(text: string, term: string, i: int) {
    0 <= i <= |text| - |term| && FoldEq(text[i..i + |term|], term)
  }

  /** `term` occurs somewhere in `text`, ignoring case. */
  ghost predicate ContainsIgnoringCase(text: string, term: string) {
    exists i :: OccursAt(text, term, i)
  }

  lemma {:induction false} PercentMatchesAll(text: string)
    ensures ILike(text, "%")
    decreases |text|
  {
    assert "%"[1..] == [];
    if text != [] {
      PercentMatchesAll(text[1..]);
    }
  }

  /** A leading `%` lets the rest of the pattern match any suffix of the text. */
  lemma {:induction false} LeadingPercent(text: string, rest: string)
    ensures ILike(text, "%" + rest) <==> exists k :: 0 <= k <= |text| && ILike(text[k..], rest)
    decreases |text|
  {
    var p := "%" + rest;
    assert p[0] == '%' && p[1..] == rest;
    assert text[0..] == text;
    if text != [] {
      LeadingPercent(text[1..], rest);
      forall k | 1 <= k <= |text| ensures text[1..][k - 1..] == text[k..] { }
      if ILike(text[1..], p) {
        var j :| 0 <= j <= |text[1..]| && ILike(text[1..][j..], rest);
        assert ILike(text[j + 1..], rest);
      }
      if exists k :: 0 <= k <= |text| && ILike(text[k..], rest) {
        var k :| 0 <= k <= |text| && ILike(text[k..], rest);
        if k > 0 {
          assert ILike(text[1..][k - 1..], rest);
        }
      }
    }
  }

  /** A plain term followed by `%` matches exactly the texts that start with the term. */
  lemma {:induction false} PlainPrefix(text: string, term: string)
    requires Plain(term)
    ensures ILike(text, term + "%") <==> |term| <= |text| && FoldEq(text[..|term|], term)
    decreases |term|
  {
    var p := term + "%";
    if term == [] {
      assert p == "%";
      PercentMatchesAll(text);
    } else {
      assert p[0] == term[0] && p[1..] == term[1..] + "%";
      assert term[0] != '%' && term[0] != '_' && term[0] != '\\';
      if text != [] {
        PlainPrefix(text[1..], term[1..]);
        if |term| <= |text| {
          var a, b := text[..|term|], text[1..][..|term| - 1];
          assert forall i :: 1 <= i < |term| ==> a[i] == b[i - 1];
          assert FoldEq(a, term) <==> Fold(text[0]) == Fold(term[0]) && FoldEq(b, term[1..]);
        }
      }
    }
  }

  /** For a plain term, `ILIKE '%term%'` is a case-insensitive substring test. */
  lemma ContainsPattern(text: string, term: string)
    requires Plain(term)
    ensures ILike(text, "%" + term + "%") <==> ContainsIgnoringCase(text, term)
  {
    assert "%" + term + "%" == "%" + (term + "%");
    LeadingPercent(text, term + "%");
    forall k | 0 <= k <= |text|
      ensures ILike(text[k..], term + "%") <==> OccursAt(text, term, k)
    {
      PlainPrefix(text[k..], term);
      if k <= |text| - |term| {
        assert text[k..][..|term|] == text[k..k + |term|];
      }
    }
    if ContainsIgnoringCase(text, term) {
      var i :| OccursAt(text, term, i);
      assert ILike(text[i..], term + "%");
    }
  }
}
