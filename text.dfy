/** The few pieces of .NET string handling the core relies on. */
module Text {

  /** `char.IsWhiteSpace`: the Unicode space, line and paragraph separators,
      the control characters U+0009 to U+000D, and U+0085. */
  predicate IsWhiteSpace(c: char) {
    var n := c as int;
    (0x09 <= n <= 0x0D) || n == 0x20 || n == 0x85 || n == 0xA0 || n == 0x1680 ||
    (0x2000 <= n <= 0x200A) || n == 0x2028 || n == 0x2029 || n == 0x202F ||
    n == 0x205F || n == 0x3000
  }

  /** `string.IsNullOrWhiteSpace` on a non-null string: empty or only white space. */
  predicate IsBlank(s: string) {
    forall i :: 0 <= i < |s| ==> IsWhiteSpace(s[i])
  }

  /** The part of `s` after its leading white space. */
  function TrimStart(s: string): (r: string)
    ensures |r| <= |s| && r == s[|s| - |r|..]
    ensures IsBlank(s[..|s| - |r|])
    ensures r == [] || !IsWhiteSpace(r[0])
  {
    if |s| > 0 && IsWhiteSpace(s[0]) then
      var tail := s[1..];
      var r := TrimStart(tail);
      assert tail[|tail| - |r|..] == s[|s| - |r|..];
      var blank := tail[..|tail| - |r|];
      forall i | 0 <= i < |s| - |r| ensures IsWhiteSpace(s[i]) {
        if i > 0 {
          assert s[i] == blank[i - 1];
        }
      }
      assert IsBlank(s[..|s| - |r|]);
      r
    else s
  }

  /** The part of `s` before its trailing white space. */
  function TrimEnd(s: string): (r: string)
    ensures |r| <= |s| && r == s[..|r|]
    ensures IsBlank(s[|r|..])
    ensures r == [] || !IsWhiteSpace(r[|r| - 1])
  {
    if |s| > 0 && IsWhiteSpace(s[|s| - 1]) then
      var r := TrimEnd(s[..|s| - 1]);
      assert s[..|s| - 1][..|r|] == s[..|r|];
      assert IsBlank(s[|r|..]) by {
        forall i | |r| <= i < |s| ensures IsWhiteSpace(s[i]) {
          if i < |s| - 1 {
            assert s[i] == s[..|s| - 1][|r|..][i - |r|];
          }
        }
      }
      r
    else s
  }

  /** `string.Trim()`: `s` without its leading and trailing white space. */
  function Trim(s: string): (r: string)
    ensures r == [] || (!IsWhiteSpace(r[0]) && !IsWhiteSpace(r[|r| - 1]))
  {
    TrimEnd(TrimStart(s))
  }

  lemma {:induction false} TrimStartSkipsBlankPrefix(a: string, s: string)
    requires IsBlank(a)
    ensures TrimStart(a + s) == TrimStart(s)
  {
    if a != [] {
      assert (a + s)[1..] == a[1..] + s;
      TrimStartSkipsBlankPrefix(a[1..], s);
    } else {
      assert a + s == s;
    }
  }

  lemma {:induction false} TrimEndSkipsBlankSuffix(s: string, b: string)
    requires IsBlank(b)
    ensures TrimEnd(s + b) == TrimEnd(s)
  {
    if b != [] {
      assert (s + b)[..|s + b| - 1] == s + b[..|b| - 1];
      TrimEndSkipsBlankSuffix(s, b[..|b| - 1]);
    } else {
      assert s + b == s;
    }
  }

  /** A blank string trims to nothing. */
  lemma {:induction false} TrimStartOfBlank(b: string)
    requires IsBlank(b)
    ensures TrimStart(b) == []
  {
    if b != [] {
      assert IsWhiteSpace(b[0]);
      assert IsBlank(b[1..]) by {
        forall i | 0 <= i < |b[1..]| ensures IsWhiteSpace(b[1..][i]) {
          assert b[1..][i] == b[i + 1];
        }
      }
      TrimStartOfBlank(b[1..]);
    }
  }

  /** Trimming the start of `s + b` stops inside `s` unless `s` is blank. */
  lemma {:induction false} TrimStartKeepsSuffix(s: string, b: string)
    ensures TrimStart(s + b) == if IsBlank(s) then TrimStart(b) else TrimStart(s) + b
  {
    if s == [] {
      assert s + b == b;
    } else if IsWhiteSpace(s[0]) {
      assert (s + b)[0] == s[0];
      assert (s + b)[1..] == s[1..] + b;
      TrimStartKeepsSuffix(s[1..], b);
      assert IsBlank(s) == IsBlank(s[1..]) by {
        if IsBlank(s[1..]) {
          forall i | 0 <= i < |s| ensures IsWhiteSpace(s[i]) {
            if i > 0 {
              assert s[i] == s[1..][i - 1];
            }
          }
        }
        if IsBlank(s) {
          forall i | 0 <= i < |s[1..]| ensures IsWhiteSpace(s[1..][i]) {
            assert s[1..][i] == s[i + 1];
          }
        }
      }
    } else {
      assert (s + b)[0] == s[0];
      assert !IsBlank(s);
    }
  }

  /** Only the core of a padded string matters to `Trim`. */
  lemma TrimIgnoresPadding(a: string, s: string, b: string)
    requires IsBlank(a) && IsBlank(b)
    ensures Trim(a + s + b) == Trim(s)
  {
    assert a + s + b == a + (s + b);
    TrimStartSkipsBlankPrefix(a, s + b);
    assert TrimStart(a + s + b) == TrimStart(s + b);
    TrimStartKeepsSuffix(s, b);
    if IsBlank(s) {
      TrimStartOfBlank(b);
      TrimStartOfBlank(s);
      assert TrimStart(s + b) == [] == TrimStart(s);
    } else {
      assert TrimStart(s + b) == TrimStart(s) + b;
      TrimEndSkipsBlankSuffix(TrimStart(s), b);
    }
  }

  /** A string without white space at either end is its own trim. */
  lemma TrimOfTrimmed(s: string)
    requires s == [] || (!IsWhiteSpace(s[0]) && !IsWhiteSpace(s[|s| - 1]))
    ensures Trim(s) == s
  {
  }

  /** `char.ToUpperInvariant` restricted to ASCII letters. */
  function ToUpperAscii(c: char): char {
    if 'a' <= c <= 'z' then (c as int - 32) as char else c
  }

  /** `string.Equals(a, b, StringComparison.OrdinalIgnoreCase)` (ASCII case folding). */
  predicate EqualsOrdinalIgnoreCase(a: string, b: string)
    ensures a == b ==> EqualsOrdinalIgnoreCase(a, b)
    ensures EqualsOrdinalIgnoreCase(a, b) ==> |a| == |b|
  {
    |a| == |b| && forall i :: 0 <= i < |a| ==> ToUpperAscii(a[i]) == ToUpperAscii(b[i])
  }

  /** The comparison does not depend on the order of its operands. */
  lemma OrdinalIgnoreCaseIsSymmetric(a: string, b: string)
    ensures EqualsOrdinalIgnoreCase(a, b) == EqualsOrdinalIgnoreCase(b, a)
  {
  }

  /** The sixteen spellings of "true" that an ignore-case comparison accepts. */
  lemma TrueIgnoringCase(t: string)
    ensures EqualsOrdinalIgnoreCase(t, "true") <==>
      |t| == 4 && t[0] in "tT" && t[1] in "rR" && t[2] in "uU" && t[3] in "eE"
  {
  }
}
