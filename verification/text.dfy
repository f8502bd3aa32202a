/**
  The JavaScript string operations the controllers rely on: `trim`, `startsWith`,
  `includes`, `split` on one character, `join`, `length` (UTF-16 code units) and the
  ASCII case folding of a `/i` regular expression.
 */
module Text {

  /** White space as `String.prototype.trim` and the regular-expression class `\s` define it. */
  predicate IsSpace(c: char) {
    || c == '\t' || c == '\n' || c == '\U{B}' || c == '\U{C}' || c == '\r' || c == ' '
    || c == '\U{A0}' || c == '\U{1680}' || ('\U{2000}' <= c && c <= '\U{200A}')
    || c == '\U{2028}' || c == '\U{2029}' || c == '\U{202F}' || c == '\U{205F}'
    || c == '\U{3000}' || c == '\U{FEFF}'
  }

  /** Drops leading white space; what remains is a suffix that starts with a non-space. */
  function TrimStart(s: string): (r: string)
    ensures |r| <= |s| && r == s[|s| - |r|..]
    ensures r == [] || !IsSpace(r[0])
    ensures forall i :: 0 <= i < |s| - |r| ==> IsSpace(s[i])
  {
    if |s| > 0 && IsSpace(s[0]) then TrimStart(s[1..]) else s
  }

  /** Drops trailing white space; what remains is a prefix that ends with a non-space. */
  function TrimEnd(s: string): (r: string)
    ensures |r| <= |s| && r == s[..|r|]
    ensures r == [] || !IsSpace(r[|r| - 1])
    ensures forall i :: |r| <= i < |s| ==> IsSpace(s[i])
  {
    if |s| > 0 && IsSpace(s[|s| - 1]) then TrimEnd(s[..|s| - 1]) else s
  }

  /** `s.trim()`. */
  function Trim(s: string): string {
    TrimEnd(TrimStart(s))
  }

  /** A string with no white space at either end. */
  predicate IsTrimmed(s: string) {
    s == [] || (!IsSpace(s[0]) && !IsSpace(s[|s| - 1]))
  }

  lemma TrimStartOfNonSpace(s: string)
    requires s == [] || !IsSpace(s[0])
    ensures TrimStart(s) == s
  {
  }

  lemma TrimEndOfNonSpace(s: string)
    requires s == [] || !IsSpace(s[|s| - 1])
    ensures TrimEnd(s) == s
  {
  }

  /** Trimming yields a trimmed string, and trimming that again changes nothing. */
  lemma TrimIsTrimmed(s: string)
    ensures IsTrimmed(Trim(s))
    ensures Trim(Trim(s)) == Trim(s)
  {
    var a := TrimStart(s);
    var t := TrimEnd(a);
    if t != [] {
      assert t[0] == a[0];
    }
    TrimStartOfNonSpace(t);
    TrimEndOfNonSpace(t);
  }

  /** Leading white space of any length is invisible to `TrimStart`. */
  lemma {:induction false} TrimStartSkipsSpace(ws: string, t: string)
    requires forall i :: 0 <= i < |ws| ==> IsSpace(ws[i])
    ensures TrimStart(ws + t) == TrimStart(t)
  {
    if ws != [] {
      assert (ws + t)[0] == ws[0] && IsSpace(ws[0]);
      assert (ws + t)[1..] == ws[1..] + t;
      assert TrimStart(ws + t) == TrimStart(ws[1..] + t);
      TrimStartSkipsSpace(ws[1..], t);
    } else {
      assert ws + t == t;
    }
  }

  /** A string made of white space only (the empty string included). */
  predicate AllSpace(s: string) {
    forall i :: 0 <= i < |s| ==> IsSpace(s[i])
  }

  /** `trim()` leaves nothing exactly when there is nothing but white space. */
  lemma TrimEmpty(s: string)
    ensures Trim(s) == "" <==> AllSpace(s)
  {
    var a := TrimStart(s);
    if a != [] {
      assert a[0] == s[|s| - |a|] && !IsSpace(a[0]);
      assert TrimEnd(a) != [] by {
        assert forall i :: |TrimEnd(a)| <= i < |a| ==> IsSpace(a[i]);
      }
    }
  }

  /** Trimming after dropping leading white space is trimming. */
  lemma TrimOfTrimStart(s: string)
    ensures Trim(TrimStart(s)) == Trim(s)
  {
    TrimStartOfNonSpace(TrimStart(s));
  }

  /** A string that is already trimmed is its own `trim()`. */
  lemma TrimOfTrimmed(s: string)
    requires IsTrimmed(s)
    ensures Trim(s) == s
  {
    TrimStartOfNonSpace(s);
    TrimEndOfNonSpace(s);
  }

  /**
    When `s` starts with a non-space, `trim()` keeps every character of `s` up to any
    non-space `s[i]`.
   */
  lemma TrimKeeps(s: string, i: nat)
    requires i < |s| && !IsSpace(s[i]) && !IsSpace(s[0])
    ensures |Trim(s)| > i && Trim(s)[..i + 1] == s[..i + 1]
  {
    TrimStartOfNonSpace(s);
  }

  /** `s.startsWith(p)`. */
  predicate StartsWith(s: string, p: string) {
    |p| <= |s| && s[..|p|] == p
  }

  /** `s.includes(p)`: `p` occurs somewhere in `s`. */
  predicate Contains(s: string, p: string)
    decreases |s|
  {
    StartsWith(s, p) || (|s| > 0 && Contains(s[1..], p))
  }

  /** An occurrence in a suffix is an occurrence in the whole string. */
  lemma {:induction false} ContainsInSuffix(s: string, k: nat, p: string)
    requires k <= |s| && Contains(s[k..], p)
    ensures Contains(s, p)
    decreases k
  {
    if k > 0 {
      assert s[k..] == s[1..][k - 1..];
      ContainsInSuffix(s[1..], k - 1, p);
    }
  }

  /** Whoever contains `q + p` contains `p`. */
  lemma {:induction false} ContainsTail(s: string, q: string, p: string)
    requires Contains(s, q + p)
    ensures Contains(s, p)
    decreases |s|
  {
    if StartsWith(s, q + p) {
      assert s[|q|..][..|p|] == (q + p)[|q|..];
      assert StartsWith(s[|q|..], p);
      ContainsInSuffix(s, |q|, p);
    } else {
      ContainsTail(s[1..], q, p);
    }
  }

  /** Number of occurrences of `c` in `s`. */
  function Count(s: string, c: char): nat {
    if |s| == 0 then 0 else (if s[0] == c then 1 else 0) + Count(s[1..], c)
  }

  /**
    `s.split(sep)` for a one-character separator: the pieces between separators, with
    an empty piece wherever two separators meet or one stands at either end.
   */
  function Split(s: string, sep: char): (parts: seq<string>)
    ensures |parts| == Count(s, sep) + 1
    ensures forall i :: 0 <= i < |parts| ==> sep !in parts[i]
    decreases |s|
  {
    if |s| == 0 then [""]
    else
      var rest := Split(s[1..], sep);
      if s[0] == sep then [""] + rest
      else [[s[0]] + rest[0]] + rest[1..]
  }

  /** `parts.join(sep)`. */
  function Join(parts: seq<string>, sep: string): string
    decreases |parts|
  {
    if |parts| == 0 then ""
    else if |parts| == 1 then parts[0]
    else parts[0] + sep + Join(parts[1..], sep)
  }

  /** Joining the pieces of a split with the separator gives back the string. */
  lemma {:induction false} JoinSplit(s: string, sep: char)
    ensures Join(Split(s, sep), [sep]) == s
    decreases |s|
  {
    if |s| > 0 {
      var rest := Split(s[1..], sep);
      JoinSplit(s[1..], sep);
      if s[0] == sep {
        assert s == [sep] + s[1..];
      } else if |rest| == 1 {
        assert s == [s[0]] + s[1..];
      } else {
        assert Join(rest, [sep]) == rest[0] + [sep] + Join(rest[1..], [sep]);
        assert s == [s[0]] + s[1..];
      }
    }
  }

  /** A piece free of the separator, followed by the separator, splits off as one piece. */
  lemma {:induction false} SplitAfterPiece(p: string, sep: char, r: string)
    requires sep !in p
    ensures Split(p + [sep] + r, sep) == [p] + Split(r, sep)
    decreases |p|
  {
    if p == [] {
      assert ([sep] + r)[1..] == r;
    } else {
      assert (p + [sep] + r)[1..] == p[1..] + [sep] + r;
      SplitAfterPiece(p[1..], sep, r);
      assert [p[0]] + p[1..] == p;
    }
  }

  /** A string free of the separator is a single piece. */
  lemma {:induction false} SplitWithoutSeparator(p: string, sep: char)
    requires sep !in p
    ensures Split(p, sep) == [p]
    decreases |p|
  {
    if p != [] {
      SplitWithoutSeparator(p[1..], sep);
      assert [p[0]] + p[1..] == p;
    }
  }

  /** Splitting a join of separator-free pieces gives back the pieces. */
  lemma {:induction false} SplitJoin(parts: seq<string>, sep: char)
    requires |parts| >= 1
    requires forall i :: 0 <= i < |parts| ==> sep !in parts[i]
    ensures Split(Join(parts, [sep]), sep) == parts
    decreases |parts|
  {
    if |parts| == 1 {
      SplitWithoutSeparator(parts[0], sep);
    } else {
      SplitJoin(parts[1..], sep);
      SplitAfterPiece(parts[0], sep, Join(parts[1..], [sep]));
    }
  }

  /** Length of `s` in UTF-16 code units, which is what JavaScript's `length` counts. */
  function Utf16Length(s: string): (n: nat)
    ensures |s| <= n <= 2 * |s|
  {
    if |s| == 0 then 0 else (if s[0] as int > 0xFFFF then 2 else 1) + Utf16Length(s[1..])
  }

  /** Code-unit length adds up over concatenation. */
  lemma {:induction false} Utf16LengthAppend(a: string, b: string)
    ensures Utf16Length(a + b) == Utf16Length(a) + Utf16Length(b)
    decreases |a|
  {
    if a != [] {
      assert (a + b)[0] == a[0];
      assert (a + b)[1..] == a[1..] + b;
      assert Utf16Length(a + b) == (if a[0] as int > 0xFFFF then 2 else 1) + Utf16Length(a[1..] + b);
      Utf16LengthAppend(a[1..], b);
    } else {
      assert a + b == b;
    }
  }

  /** ASCII upper-case letters folded to lower case; every other character unchanged. */
  function LowerAscii(s: string): (r: string)
    ensures |r| == |s|
  {
    seq(|s|, i requires 0 <= i < |s| => if 'A' <= s[i] <= 'Z' then (s[i] as int + 32) as char else s[i])
  }
}
