/**
 * The JavaScript string built-ins the core relies on: `split` on one character,
 * `trim`, `toLowerCase` (on ASCII letters) and the decimal rendering of a number.
 */
module JsStrings {

  /** `s.split(sep)` for a one-character separator: the pieces between separators, in order. */
  function Split(s: string, sep: char): (parts: seq<string>)
    ensures |parts| >= 1
    ensures forall i :: 0 <= i < |parts| ==> sep !in parts[i]
  {
    if s == [] then [""]
    else
      var rest := Split(s[1..], sep);
      if s[0] == sep then [""] + rest
      else [[s[0]] + rest[0]] + rest[1..]
  }

  /** `parts.join(sep)`, the inverse of `Split`. */
  function Join(parts: seq<string>, sep: char): string
    requires |parts| >= 1
  {
    if |parts| == 1 then parts[0] else parts[0] + [sep] + Join(parts[1..], sep)
  }

  /** Splitting a prefix free of separators only lengthens the first piece. */
  lemma {:induction false} SplitPrefix(a: string, t: string, sep: char)
    requires sep !in a
    ensures Split(a + t, sep)[0] == a + Split(t, sep)[0]
    ensures Split(a + t, sep)[1..] == Split(t, sep)[1..]
  {
    if a != [] {
      assert (a + t)[1..] == a[1..] + t;
      SplitPrefix(a[1..], t, sep);
    } else {
      assert a + t == t;
    }
  }

  /** A string without the separator splits into itself alone. */
  lemma SplitNoSeparator(a: string, sep: char)
    requires sep !in a
    ensures Split(a, sep) == [a]
  {
    SplitPrefix(a, [], sep);
    assert a + [] == a;
  }

  /** Joining the pieces of a split gives back the string. */
  lemma {:induction false} JoinSplit(s: string, sep: char)
    ensures Join(Split(s, sep), sep) == s
  {
    if s != [] {
      JoinSplit(s[1..], sep);
      var rest := Split(s[1..], sep);
      if s[0] == sep {
        assert Split(s, sep) == [""] + rest;
        assert Split(s, sep)[1..] == rest;
        assert s == [sep] + s[1..];
      } else {
        var parts := Split(s, sep);
        assert parts == [[s[0]] + rest[0]] + rest[1..];
        if |rest| == 1 {
          assert s == [s[0]] + s[1..];
        } else {
          assert parts[1..] == rest[1..];
          assert Join(rest, sep) == rest[0] + [sep] + Join(rest[1..], sep);
          assert s == [s[0]] + s[1..];
        }
      }
    }
  }

  /** Splitting a join of separator-free pieces gives back the pieces. */
  lemma {:induction false} SplitJoin(parts: seq<string>, sep: char)
    requires |parts| >= 1
    requires forall i :: 0 <= i < |parts| ==> sep !in parts[i]
    ensures Split(Join(parts, sep), sep) == parts
  {
    if |parts| == 1 {
      SplitNoSeparator(parts[0], sep);
    } else {
      var tail := Join(parts[1..], sep);
      SplitJoin(parts[1..], sep);
      assert parts[0] + [sep] + tail == parts[0] + ([sep] + tail);
      SplitPrefix(parts[0], [sep] + tail, sep);
      assert ([sep] + tail)[1..] == tail;
      var whole := Split(parts[0] + ([sep] + tail), sep);
      assert Split([sep] + tail, sep) == [""] + Split(tail, sep);
      assert whole[0] == parts[0] + "" == parts[0];
      assert whole[1..] == parts[1..];
      assert whole == [whole[0]] + whole[1..];
    }
  }

  /** Splitting `a`, separator, `b`, then `t` gives `a` first and `b` (up to the next separator in `t`) second. */
  lemma SplitLeadingPieces(a: string, b: string, t: string, sep: char)
    requires sep !in a && sep !in b
    ensures var parts := Split(a + [sep] + b + t, sep);
      |parts| >= 2 && parts[0] == a && parts[1] == b + Split(t, sep)[0]
  {
    var tail := b + t;
    assert a + [sep] + b + t == a + ([sep] + tail);
    SplitPrefix(a, [sep] + tail, sep);
    assert ([sep] + tail)[1..] == tail;
    assert Split([sep] + tail, sep) == [""] + Split(tail, sep);
    SplitPrefix(b, t, sep);
  }

  /** The characters `String.prototype.trim` removes: white space and line terminators. */
  predicate IsJsWhitespace(c: char)
  {
    if c <= ' ' then c == ' ' || '\t' <= c <= '\r'
    else if c < '\U{00A0}' then false
    else
      (c == '\U{00A0}' || c == '\U{1680}' || ('\U{2000}' <= c <= '\U{200A}')
       || c == '\U{2028}' || c == '\U{2029}' || c == '\U{202F}' || c == '\U{205F}' || c == '\U{3000}'
       || c == '\U{FEFF}')
  }

  /** Only white space lies outside `s[i..j]`. */
  predicate WhiteBorders(s: string, i: int, j: int)
    requires 0 <= i <= j <= |s|
  {
    && (forall k {:trigger IsJsWhitespace(s[k])} :: 0 <= k < i ==> IsJsWhitespace(s[k]))
    && (forall k {:trigger IsJsWhitespace(s[k])} :: j <= k < |s| ==> IsJsWhitespace(s[k]))
  }

  /** `s.trimStart()`: `s` without its leading white space. */
  function TrimStart(s: string): (r: string)
    ensures |r| <= |s| && r == s[|s| - |r|..]
    ensures r == [] || !IsJsWhitespace(r[0])
  {
    if s != [] && IsJsWhitespace(s[0]) then TrimStart(s[1..]) else s
  }

  /** What `TrimStart` removes is white space. */
  lemma {:induction false} TrimStartBorders(s: string)
    ensures WhiteBorders(s, |s| - |TrimStart(s)|, |s|)
  {
    if s != [] && IsJsWhitespace(s[0]) {
      TrimStartBorders(s[1..]);
      forall k | 0 <= k < |s| - |TrimStart(s)|
        ensures IsJsWhitespace(s[k])
      {
        if k > 0 {
          assert s[k] == s[1..][k - 1];
        }
      }
    }
  }

  /** `s.trimEnd()`: `s` without its trailing white space. */
  function TrimEnd(s: string): (r: string)
    ensures |r| <= |s| && r == s[..|r|]
    ensures r == [] || !IsJsWhitespace(r[|r| - 1])
  {
    if s != [] && IsJsWhitespace(s[|s| - 1]) then TrimEnd(s[..|s| - 1]) else s
  }

  /** What `TrimEnd` removes is white space. */
  lemma {:induction false} TrimEndBorders(s: string)
    ensures WhiteBorders(s, 0, |TrimEnd(s)|)
  {
    if s != [] && IsJsWhitespace(s[|s| - 1]) {
      TrimEndBorders(s[..|s| - 1]);
      forall k | |TrimEnd(s)| <= k < |s|
        ensures IsJsWhitespace(s[k])
      {
        if k < |s| - 1 {
          assert s[k] == s[..|s| - 1][k];
        }
      }
    }
  }

  /** `s.trim()`: the slice of `s` left after removing white space at both ends. */
  function Trim(s: string): (r: string)
    ensures exists i, j :: 0 <= i <= j <= |s| && r == s[i..j] && WhiteBorders(s, i, j)
    ensures r == [] || (!IsJsWhitespace(r[0]) && !IsJsWhitespace(r[|r| - 1]))
  {
    TrimStartBorders(s);
    TrimEndBorders(TrimStart(s));
    TrimmedSlice(s, TrimStart(s), TrimEnd(TrimStart(s)));
    TrimEnd(TrimStart(s))
  }

  /**
   * A prefix `r` of a suffix `t` of `s`, each cut at white space, is a slice of `s` with white
   * borders; the ends `TrimStart` and `TrimEnd` leave stay non-white.
   */
  lemma TrimmedSlice(s: string, t: string, r: string)
    requires |t| <= |s| && t == s[|s| - |t|..] && WhiteBorders(s, |s| - |t|, |s|)
    requires t == [] || !IsJsWhitespace(t[0])
    requires |r| <= |t| && r == t[..|r|] && WhiteBorders(t, 0, |r|)
    requires r == [] || !IsJsWhitespace(r[|r| - 1])
    ensures var i := |s| - |t|;
      && i + |r| <= |s| && r == s[i..i + |r|] && WhiteBorders(s, i, i + |r|)
      && (r == [] || (!IsJsWhitespace(r[0]) && !IsJsWhitespace(r[|r| - 1])))
  {
    var i := |s| - |t|;
    forall k | i + |r| <= k < |s|
      ensures IsJsWhitespace(s[k])
    {
      assert s[k] == t[k - i];
    }
    assert r != [] ==> r[0] == t[0];
  }

  lemma TrimStartNoop(s: string)
    requires s == [] || !IsJsWhitespace(s[0])
    ensures TrimStart(s) == s
  {
  }

  lemma TrimEndNoop(s: string)
    requires s == [] || !IsJsWhitespace(s[|s| - 1])
    ensures TrimEnd(s) == s
  {
  }

  /** Trimming twice is trimming once. */
  lemma TrimIdempotent(s: string)
    ensures Trim(Trim(s)) == Trim(s)
  {
    var r := Trim(s);
    TrimStartNoop(r);
    TrimEndNoop(r);
  }

  /**
   * `s.length`: JavaScript strings count UTF-16 code units, so a character outside the Basic
   * Multilingual Plane (above U+FFFF) counts twice.
   */
  function Utf16Length(s: string): (n: nat)
    ensures |s| <= n <= 2 * |s|
    ensures (forall k :: 0 <= k < |s| ==> s[k] as int <= 0xFFFF) ==> n == |s|
  {
    if s == [] then 0 else (if s[0] as int > 0xFFFF then 2 else 1) + Utf16Length(s[1..])
  }

  /** `toLowerCase` on one character; only ASCII letters are modelled. */
  function LowerChar(c: char): (d: char)
    ensures !('A' <= d <= 'Z')
  {
    if 'A' <= c <= 'Z' then (c as int - 'A' as int + 'a' as int) as char else c
  }

  /** No white-space character is an upper-case ASCII letter, so lower-casing keeps white space. */
  lemma LowerCharKeepsWhitespace(c: char)
    ensures IsJsWhitespace(LowerChar(c)) <==> IsJsWhitespace(c)
  {
  }

  function ToLower(s: string): (r: string)
    ensures |r| == |s|
    ensures forall i :: 0 <= i < |s| ==> r[i] == LowerChar(s[i])
  {
    if s == [] then [] else [LowerChar(s[0])] + ToLower(s[1..])
  }

  lemma {:induction false} ToLowerIdempotent(s: string)
    ensures ToLower(ToLower(s)) == ToLower(s)
  {
    var once := ToLower(s);
    var twice := ToLower(once);
    assert forall i :: 0 <= i < |s| ==> twice[i] == LowerChar(once[i]) == once[i];
  }

  /** Lower-casing leaves white space where it was, so it commutes with trimming. */
  lemma {:induction false} TrimStartToLower(s: string)
    ensures TrimStart(ToLower(s)) == ToLower(TrimStart(s))
  {
    if s != [] {
      var l := ToLower(s);
      assert l[0] == LowerChar(s[0]);
      LowerCharKeepsWhitespace(s[0]);
      assert l[1..] == ToLower(s[1..]);
      TrimStartToLower(s[1..]);
    }
  }

  /** Lower-casing a prefix is taking the prefix of the lower-cased string. */
  lemma ToLowerPrefix(s: string, n: nat)
    requires n <= |s|
    ensures ToLower(s)[..n] == ToLower(s[..n])
  {
    var a := ToLower(s[..n]);
    var p := ToLower(s)[..n];
    assert |a| == n == |p|;
    forall i | 0 <= i < n
      ensures a[i] == p[i]
    {
      assert a[i] == LowerChar(s[..n][i]) == LowerChar(s[i]);
    }
  }

  /** Two strings white in the same places lose the same number of trailing characters to `TrimEnd`. */
  lemma {:induction false} TrimEndSameLength(s: string, l: string)
    requires |l| == |s|
    requires forall i :: 0 <= i < |s| ==> (IsJsWhitespace(l[i]) <==> IsJsWhitespace(s[i]))
    ensures |TrimEnd(l)| == |TrimEnd(s)|
  {
    if s != [] && IsJsWhitespace(s[|s| - 1]) {
      var s', l' := s[..|s| - 1], l[..|l| - 1];
      assert forall i :: 0 <= i < |s'| ==> l'[i] == l[i] && s'[i] == s[i];
      TrimEndSameLength(s', l');
    }
  }

  lemma TrimEndToLower(s: string)
    ensures TrimEnd(ToLower(s)) == ToLower(TrimEnd(s))
  {
    var l := ToLower(s);
    forall i | 0 <= i < |s|
      ensures IsJsWhitespace(l[i]) <==> IsJsWhitespace(s[i])
    {
      LowerCharKeepsWhitespace(s[i]);
    }
    TrimEndSameLength(s, l);
    ToLowerPrefix(s, |TrimEnd(s)|);
  }

  lemma TrimToLower(s: string)
    ensures Trim(ToLower(s)) == ToLower(Trim(s))
  {
    TrimStartToLower(s);
    TrimEndToLower(TrimStart(s));
  }

  function DigitChar(d: nat): (c: char)
    requires d < 10
    ensures '0' <= c <= '9'
  {
    ('0' as int + d) as char
  }

  /** The decimal rendering of a natural number, as a template string shows it. */
  function NatToString(n: nat): (s: string)
    ensures |s| >= 1
    ensures forall i :: 0 <= i < |s| ==> '0' <= s[i] <= '9'
    ensures |s| > 1 ==> s[0] != '0'
  {
    if n < 10 then [DigitChar(n)] else NatToString(n / 10) + [DigitChar(n % 10)]
  }

  /** The decimal rendering of an integer, with a leading '-' when it is negative. */
  function IntToString(n: int): (s: string)
    ensures |s| >= 1
    ensures n < 0 <==> s[0] == '-'
  {
    if n < 0 then "-" + NatToString(-n) else NatToString(n)
  }

  /** Reading the digits back. */
  function DecimalValue(s: string): nat
    requires forall i :: 0 <= i < |s| ==> '0' <= s[i] <= '9'
  {
    if s == [] then 0 else DecimalValue(s[..|s| - 1]) * 10 + (s[|s| - 1] as int - '0' as int)
  }

  /** The rendering is exact: its digits read back as the number. */
  lemma {:induction false} NatToStringValue(n: nat)
    ensures DecimalValue(NatToString(n)) == n
  {
    var s := NatToString(n);
    if n >= 10 {
      NatToStringValue(n / 10);
      assert s[..|s| - 1] == NatToString(n / 10);
    }
  }
}
