// Character classes and string helpers of the Rust standard library,
// restricted to ASCII: `char::is_alphanumeric`, `char::is_whitespace`,
// `to_lowercase`, `str::trim`, `starts_with` and `contains`.
module Ascii {
  predicate IsDigit(c: char) { '0' <= c <= '9' }
  predicate IsUpper(c: char) { 'A' <= c <= 'Z' }
  predicate IsLower(c: char) { 'a' <= c <= 'z' }
  predicate IsAlphanumeric(c: char) { IsDigit(c) || IsUpper(c) || IsLower(c) }

  /** The ASCII part of Unicode White_Space: tab, line feed, vertical tab,
      form feed, carriage return and space. */
  predicate IsWhitespace(c: char) { c == ' ' || '\t' <= c <= '\r' }

  function ToLower(c: char): (r: char)
    ensures IsUpper(c) ==> IsLower(r)
    ensures !IsUpper(c) ==> r == c
  {
    if IsUpper(c) then (c as int + 32) as char else c
  }

  function Lower(s: string): (r: string)
    ensures |r| == |s|
    ensures forall i :: 0 <= i < |s| ==> r[i] == ToLower(s[i])
  {
    if s == [] then [] else [ToLower(s[0])] + Lower(s[1..])
  }

  function TrimStart(s: string): (r: string)
    ensures |r| <= |s| && r == s[|s| - |r|..]
    ensures r == [] || !IsWhitespace(r[0])
    ensures forall i :: 0 <= i < |s| - |r| ==> IsWhitespace(s[i])
  {
    if s != [] && IsWhitespace(s[0]) then TrimStart(s[1..]) else s
  }

  function TrimEnd(s: string): (r: string)
    ensures |r| <= |s| && r == s[..|r|]
    ensures r == [] || !IsWhitespace(r[|r| - 1])
    ensures forall i :: |r| <= i < |s| ==> IsWhitespace(s[i])
  {
    if s != [] && IsWhitespace(s[|s| - 1]) then TrimEnd(s[..|s| - 1]) else s
  }

  /** `str::trim`: leading and trailing whitespace removed. */
  function Trim(s: string): (r: string)
    ensures r == [] || (!IsWhitespace(r[0]) && !IsWhitespace(r[|r| - 1]))
  {
    TrimEnd(TrimStart(s))
  }

  /** The trimmed string is a slice of the input, and everything dropped
      before or after it is whitespace. */
  lemma {:induction false} TrimSlice(s: string)
    ensures var r, a := Trim(s), |s| - |TrimStart(s)|;
      && a + |r| <= |s| && r == s[a..a + |r|]
      && (forall i :: 0 <= i < a ==> IsWhitespace(s[i]))
      && (forall i :: a + |r| <= i < |s| ==> IsWhitespace(s[i]))
  {
    var a := |s| - |TrimStart(s)|;
    assert TrimStart(s) == s[a..];
    assert Trim(s) == TrimEnd(s[a..]);
    TrimEndSuffix(s, a);
  }

  lemma {:induction false} TrimEndSuffix(s: string, a: nat)
    requires a <= |s|
    ensures var r := TrimEnd(s[a..]);
      && a + |r| <= |s| && r == s[a..a + |r|]
      && (forall i :: a + |r| <= i < |s| ==> IsWhitespace(s[i]))
  {
    var t := s[a..];
    var r := TrimEnd(t);
    assert r == t[..|r|];
    forall i | a + |r| <= i < |s|
      ensures IsWhitespace(s[i])
    {
      assert s[i] == t[i - a];
    }
  }

  predicate StartsWith(s: string, prefix: string)
  {
    |prefix| <= |s| && s[..|prefix|] == prefix
  }

  predicate MatchAt(s: string, needle: string, i: int)
  {
    0 <= i <= |s| - |needle| && s[i..i + |needle|] == needle
  }

  /** `needle` occurs somewhere in `s`. */
  ghost predicate Occurs(s: string, needle: string)
  {
    exists i :: MatchAt(s, needle, i)
  }

  /** A left-to-right scan deciding `Contains`. */
  function ContainsFrom(s: string, needle: string, from: nat): (b: bool)
    ensures b <==> exists i :: from <= i && MatchAt(s, needle, i)
    decreases |s| + 1 - from
  {
    if from + |needle| > |s| then false
    else if s[from..from + |needle|] == needle then assert MatchAt(s, needle, from); true
    else
      var rest := ContainsFrom(s, needle, from + 1);
      assert !MatchAt(s, needle, from);
      rest
  }

  /** `str::contains` with a string pattern. */
  function Contains(s: string, needle: string): (b: bool)
    ensures b <==> Occurs(s, needle)
  {
    ContainsFrom(s, needle, 0)
  }

  // ---- split, join and decimal numbers ----

  /** `str::split` on one character: the pieces between the separators,
      always at least one, none containing the separator. */
  function Split(s: string, sep: char): (r: seq<string>)
    ensures |r| >= 1
    ensures forall i :: 0 <= i < |r| ==> sep !in r[i]
  {
    if s == [] then [[]]
    else
      var rest := Split(s[1..], sep);
      if s[0] == sep then [[]] + rest
      else
        assert forall i :: 1 <= i < |rest| ==> sep !in rest[i];
        [[s[0]] + rest[0]] + rest[1..]
  }

  /** `join`: the pieces with one separator between neighbours. */
  function Join(parts: seq<string>, sep: char): string
  {
    if parts == [] then []
    else if |parts| == 1 then parts[0]
    else parts[0] + [sep] + Join(parts[1..], sep)
  }

  /** Joining the pieces of a split gives the string back. */
  lemma {:induction false} JoinSplit(s: string, sep: char)
    ensures Join(Split(s, sep), sep) == s
  {
    if s != [] {
      JoinSplit(s[1..], sep);
      var rest := Split(s[1..], sep);
      if s[0] != sep && |rest| > 1 {
        assert Join(rest, sep) == rest[0] + [sep] + Join(rest[1..], sep);
        assert rest[1..][1..] == rest[2..];
      }
    }
  }

  predicate AllDigits(s: string)
  {
    forall i :: 0 <= i < |s| ==> IsDigit(s[i])
  }

  /** The value of a run of decimal digits, leading zeros allowed. */
  function DigitsValue(ds: string): nat
    requires AllDigits(ds)
  {
    if ds == [] then 0
    else DigitsValue(ds[..|ds| - 1]) * 10 + (ds[|ds| - 1] as int - '0' as int)
  }

  /** `format!("{}", n)` for a natural number. */
  function Decimal(n: nat): (r: string)
    ensures r != [] && AllDigits(r)
  {
    var digit := ('0' as int + n % 10) as char;
    if n < 10 then [digit] else Decimal(n / 10) + [digit]
  }

  /** `format!("{}", n)` for an integer. */
  function IntText(n: int): string
  {
    if n < 0 then "-" + Decimal(-n) else Decimal(n)
  }

  /** Reading back a printed number gives the number. */
  lemma {:induction false} DecimalValue(n: nat)
    ensures DigitsValue(Decimal(n)) == n
  {
    if n >= 10 {
      DecimalValue(n / 10);
      var d := Decimal(n);
      assert d[..|d| - 1] == Decimal(n / 10);
    }
  }

  /** Joining one more piece adds a separator and the piece. */
  lemma {:induction false} JoinSnoc(parts: seq<string>, x: string, sep: char)
    requires parts != []
    ensures Join(parts + [x], sep) == Join(parts, sep) + [sep] + x
  {
    if |parts| > 1 {
      assert (parts + [x])[1..] == parts[1..] + [x];
      JoinSnoc(parts[1..], x, sep);
    }
  }

  // ---- facts about split and join used by slugs ----

  /** No separator at either end and never two in a row. */
  predicate WellSeparated(s: string, sep: char)
  {
    && (s == [] || (s[0] != sep && s[|s| - 1] != sep))
    && forall i :: 0 <= i < |s| - 1 ==> !(s[i] == sep && s[i + 1] == sep)
  }

  /** Joining non-empty pieces free of the separator leaves the separator
      only between two other characters; the result starts with the first
      piece and ends with the last. */
  lemma {:induction false} JoinWellSeparated(parts: seq<string>, sep: char)
    requires forall i :: 0 <= i < |parts| ==> parts[i] != [] && sep !in parts[i]
    ensures WellSeparated(Join(parts, sep), sep)
    ensures parts != [] ==> |Join(parts, sep)| >= |parts[0]|
    ensures parts != [] ==> Join(parts, sep)[..|parts[0]|] == parts[0]
  {
    if |parts| == 1 {
      var p := parts[0];
      assert p[0] in p && p[|p| - 1] in p;
      forall i | 0 <= i < |p| - 1
        ensures !(p[i] == sep && p[i + 1] == sep)
      {
        assert p[i] in p;
      }
    } else if |parts| > 1 {
      var p := parts[0];
      var rest := Join(parts[1..], sep);
      JoinWellSeparated(parts[1..], sep);
      var s := p + [sep] + rest;
      assert Join(parts, sep) == s;
      assert rest[..|parts[1]|] == parts[1];
      assert rest[0] == parts[1][0] && parts[1][0] in parts[1];
      assert p[0] in p && p[|p| - 1] in p;
      forall i | 0 <= i < |s| - 1
        ensures !(s[i] == sep && s[i + 1] == sep)
      {
        if i < |p| - 1 {
          assert s[i] == p[i] && p[i] in p;
        } else if i == |p| - 1 {
          assert s[i] == p[|p| - 1];
        } else if i == |p| {
          assert s[i + 1] == rest[0];
        } else {
          assert s[i] == rest[i - |p| - 1] && s[i + 1] == rest[i - |p|];
        }
      }
      assert s[|s| - 1] == rest[|rest| - 1];
      assert s[..|p|] == p;
    }
  }

  /** The string with every occurrence of `c` removed. */
  function Without(s: string, c: char): (r: string)
    ensures |r| <= |s| && c !in r
  {
    if s == [] then [] else (if s[0] == c then [] else [s[0]]) + Without(s[1..], c)
  }

  lemma {:induction false} WithoutAppend(a: string, b: string, c: char)
    ensures Without(a + b, c) == Without(a, c) + Without(b, c)
  {
    if a != [] {
      assert (a + b)[0] == a[0] && (a + b)[1..] == a[1..] + b;
      WithoutAppend(a[1..], b, c);
      assert Without(a + b, c) == (if a[0] == c then [] else [a[0]]) + Without(a[1..] + b, c);
      assert Without(a, c) == (if a[0] == c then [] else [a[0]]) + Without(a[1..], c);
    } else {
      assert a + b == b;
    }
  }

  lemma {:induction false} WithoutAbsent(s: string, c: char)
    requires c !in s
    ensures Without(s, c) == s
  {
    if s != [] {
      assert s[0] != c by { assert s[0] in s; }
      forall i | 0 <= i < |s[1..]|
        ensures s[1..][i] != c
      {
        assert s[1..][i] == s[i + 1] && s[i + 1] in s;
      }
      WithoutAbsent(s[1..], c);
    }
  }

  /** The pieces one after the other, without separators. */
  function Concat(parts: seq<string>): string
  {
    if parts == [] then [] else parts[0] + Concat(parts[1..])
  }

  /** The pieces of a split hold exactly the characters that are not the
      separator, in order. */
  lemma {:induction false} ConcatSplit(s: string, sep: char)
    ensures Concat(Split(s, sep)) == Without(s, sep)
  {
    if s != [] {
      ConcatSplit(s[1..], sep);
      var rest := Split(s[1..], sep);
      if s[0] == sep {
        assert ([[]] + rest)[1..] == rest;
      } else {
        var r := [[s[0]] + rest[0]] + rest[1..];
        assert r[1..] == rest[1..];
        assert Concat(rest) == rest[0] + Concat(rest[1..]);
      }
    }
  }

  /** Joining drops back to the concatenation once the separators are
      removed, provided no piece holds the separator. */
  lemma {:induction false} WithoutJoin(parts: seq<string>, sep: char)
    requires forall i :: 0 <= i < |parts| ==> sep !in parts[i]
    ensures Without(Join(parts, sep), sep) == Concat(parts)
  {
    if parts != [] {
      WithoutAbsent(parts[0], sep);
      if |parts| == 1 {
        assert Concat(parts[1..]) == [];
        assert Concat(parts) == parts[0] + [] == parts[0];
        assert Join(parts, sep) == parts[0];
      } else {
        var rest := parts[1..];
        assert forall i :: 0 <= i < |rest| ==> rest[i] == parts[i + 1];
        WithoutJoin(rest, sep);
        assert Join(parts, sep) == (parts[0] + [sep]) + Join(rest, sep);
        WithoutAppend(parts[0] + [sep], Join(rest, sep), sep);
        WithoutAppend(parts[0], [sep], sep);
        assert Without([sep], sep) == [];
        assert Without(parts[0] + [sep], sep) == parts[0];
        assert Without(Join(parts, sep), sep) == parts[0] + Concat(rest);
        assert Concat(parts) == parts[0] + Concat(rest);
      }
    }
  }

  /** A string without the separator is one piece. */
  lemma {:induction false} SplitFree(s: string, sep: char)
    requires sep !in s
    ensures Split(s, sep) == [s]
  {
    if s != [] {
      assert s[0] in s;
      assert forall c :: c in s[1..] ==> c in s;
      SplitFree(s[1..], sep);
      assert [s[0]] + s[1..] == s;
    }
  }

  /** A piece up to the first separator, then the pieces of the rest. */
  lemma {:induction false} SplitFirst(a: string, rest: string, sep: char)
    requires sep !in a
    ensures Split(a + [sep] + rest, sep) == [a] + Split(rest, sep)
  {
    var s := a + [sep] + rest;
    if a == [] {
      assert s[0] == sep && s[1..] == rest;
    } else {
      assert a[0] in a;
      assert forall c :: c in a[1..] ==> c in a;
      SplitFirst(a[1..], rest, sep);
      assert s[0] == a[0] && s[1..] == a[1..] + [sep] + rest;
      assert [a[0]] + a[1..] == a;
    }
  }
}
