/**
  JavaScript string operations the core relies on, over Dafny strings (sequences of
  Unicode scalar values): `trim`, `includes`, `startsWith`/`endsWith`, `toLowerCase`,
  `split(" ")`/`join(" ")`, `.length` in UTF-16 code units, and decimal rendering of
  an index.
*/
module Text {

  /** ECMAScript WhiteSpace and LineTerminator: the set `trim` strips and the regex class `\s` matches. */
  predicate IsWhitespace(c: char) {
    || c == '\t' || c == '\n' || c == '\U{000B}' || c == '\U{000C}' || c == '\r' || c == ' '
    || c == '\U{00A0}' || c == '\U{1680}' || ('\U{2000}' <= c <= '\U{200A}')
    || c == '\U{2028}' || c == '\U{2029}' || c == '\U{202F}' || c == '\U{205F}'
    || c == '\U{3000}' || c == '\U{FEFF}'
  }

  predicate AllWhitespace(s: string) {
    forall i :: 0 <= i < |s| ==> IsWhitespace(s[i])
  }

  /** Neither end is white space. */
  predicate IsTrimmed(s: string) {
    s == [] || (!IsWhitespace(s[0]) && !IsWhitespace(s[|s| - 1]))
  }

  /** Strips leading white space: the result is a suffix and everything removed was white space. */
  function TrimStart(s: string): (r: string)
    ensures |r| <= |s| && r == s[|s| - |r|..]
    ensures AllWhitespace(s[..|s| - |r|])
    ensures r == [] || !IsWhitespace(r[0])
  {
    if s != [] && IsWhitespace(s[0]) then TrimStart(s[1..]) else s
  }

  /** Strips trailing white space: the result is a prefix and everything removed was white space. */
  function TrimEnd(s: string): (r: string)
    ensures |r| <= |s| && r == s[..|r|]
    ensures AllWhitespace(s[|r|..])
    ensures r == [] || !IsWhitespace(r[|r| - 1])
  {
    if s != [] && IsWhitespace(s[|s| - 1]) then
      var r := TrimEnd(s[..|s| - 1]);
      assert s[|r|..] == s[..|s| - 1][|r|..] + [s[|s| - 1]];
      r
    else s
  }

  /** The number of leading white-space characters `trim` removes. */
  function LeadingWhitespace(s: string): nat
  {
    |s| - |TrimStart(s)|
  }

  /** `String.prototype.trim`: the infix left after removing white space at both ends. */
  function Trim(s: string): (r: string)
    ensures IsTrimmed(r)
    ensures LeadingWhitespace(s) + |r| <= |s|
    ensures r == s[LeadingWhitespace(s)..LeadingWhitespace(s) + |r|]
    ensures AllWhitespace(s[..LeadingWhitespace(s)])
    ensures AllWhitespace(s[LeadingWhitespace(s) + |r|..])
    ensures r == [] <==> AllWhitespace(s)
  {
    TrimFacts(s, TrimStart(s), TrimEnd(TrimStart(s)));
    TrimEnd(TrimStart(s))
  }

  lemma {:induction false} TrimFacts(s: string, t: string, r: string)
    requires t == TrimStart(s) && r == TrimEnd(t)
    ensures IsTrimmed(r)
    ensures LeadingWhitespace(s) + |r| <= |s|
    ensures r == s[LeadingWhitespace(s)..LeadingWhitespace(s) + |r|]
    ensures AllWhitespace(s[..LeadingWhitespace(s)])
    ensures AllWhitespace(s[LeadingWhitespace(s) + |r|..])
    ensures r == [] <==> AllWhitespace(s)
  {
    TrimShape(s, t, r, LeadingWhitespace(s));
    TrimEnds(t, r);
    TrimEmptyIff(s, t, r, LeadingWhitespace(s));
  }

  /** The trimmed text is the infix of `s` between the two stripped runs. */
  lemma TrimShape(s: string, t: string, r: string, lead: nat)
    requires lead <= |s| && t == s[lead..] && |r| <= |t| && r == t[..|r|]
    requires AllWhitespace(t[|r|..])
    ensures lead + |r| <= |s|
    ensures r == s[lead..lead + |r|]
    ensures AllWhitespace(s[lead + |r|..])
  {
    assert s[lead + |r|..] == t[|r|..];
  }

  lemma TrimEnds(t: string, r: string)
    requires (t == [] || !IsWhitespace(t[0])) && r == TrimEnd(t)
    ensures IsTrimmed(r)
  {
    if r != [] {
      assert r[0] == t[0];
    }
  }

  lemma TrimEmptyIff(s: string, t: string, r: string, lead: nat)
    requires lead <= |s| && t == s[lead..] && AllWhitespace(s[..lead])
    requires t == [] || !IsWhitespace(t[0])
    requires |r| <= |t| && r == t[..|r|] && AllWhitespace(t[|r|..])
    ensures r == [] <==> AllWhitespace(s)
  {
    if r != [] {
      assert s[lead] == t[0];
    } else {
      assert t[|r|..] == t;
      assert s == s[..lead];
    }
  }

  /** A string that is already trimmed is left alone. */
  lemma TrimOfTrimmed(s: string)
    requires IsTrimmed(s)
    ensures Trim(s) == s
  {
  }

  /** The characters of `s` that are not white space, in order: the content white-space rules
      must leave alone. */
  function Visible(s: string): string {
    if s == [] then [] else (if IsWhitespace(s[0]) then [] else [s[0]]) + Visible(s[1..])
  }

  lemma VisibleCons(c: char, s: string)
    ensures Visible([c] + s) == (if IsWhitespace(c) then [] else [c]) + Visible(s)
  {
    assert ([c] + s)[0] == c && ([c] + s)[1..] == s;
  }

  lemma {:induction false} VisibleAppend(a: string, b: string)
    ensures Visible(a + b) == Visible(a) + Visible(b)
    decreases |a|
  {
    if a != [] {
      assert (a + b)[0] == a[0] && (a + b)[1..] == a[1..] + b;
      VisibleAppend(a[1..], b);
    } else {
      assert a + b == b;
    }
  }

  lemma {:induction false} VisibleOfWhitespace(s: string)
    requires AllWhitespace(s)
    ensures Visible(s) == []
    decreases |s|
  {
    if s != [] {
      VisibleOfWhitespace(s[1..]);
    }
  }

  /** Stripping leading white space keeps the content. */
  lemma VisibleTrimStart(s: string)
    ensures Visible(TrimStart(s)) == Visible(s)
  {
    var r := TrimStart(s);
    assert s == s[..|s| - |r|] + r;
    VisibleAppend(s[..|s| - |r|], r);
    VisibleOfWhitespace(s[..|s| - |r|]);
  }

  /** Stripping trailing white space keeps the content. */
  lemma VisibleTrimEnd(s: string)
    ensures Visible(TrimEnd(s)) == Visible(s)
  {
    var r := TrimEnd(s);
    assert s == r + s[|r|..];
    VisibleAppend(r, s[|r|..]);
    VisibleOfWhitespace(s[|r|..]);
  }

  /** Trimming keeps the content: only white space goes. */
  lemma VisibleTrim(s: string)
    ensures Visible(Trim(s)) == Visible(s)
  {
    VisibleTrimStart(s);
    VisibleTrimEnd(TrimStart(s));
    assert Trim(s) == TrimEnd(TrimStart(s));
  }

  /** Trimming twice is trimming once. */
  lemma TrimIdempotent(s: string)
    ensures Trim(Trim(s)) == Trim(s)
  {
    TrimOfTrimmed(Trim(s));
  }

  /** `startsWith`. */
  predicate StartsWith(s: string, prefix: string) {
    |prefix| <= |s| && s[..|prefix|] == prefix
  }

  /** `endsWith`. */
  predicate EndsWith(s: string, suffix: string) {
    |suffix| <= |s| && s[|s| - |suffix|..] == suffix
  }

  /** `includes`: `k` occurs in `s` as a contiguous substring. */
  predicate Contains(s: string, k: string)
    decreases |s|
  {
    |k| <= |s| && (s[..|k|] == k || Contains(s[1..], k))
  }

  /** `k` sits at position `i` of `s`. */
  predicate OccursAt(s: string, k: string, i: int) {
    0 <= i <= |s| - |k| && s[i..i + |k|] == k
  }

  /** `includes` agrees with the textbook definition: some position holds `k`. */
  lemma {:induction false} ContainsIffOccurs(s: string, k: string)
    ensures Contains(s, k) <==> exists i :: OccursAt(s, k, i)
  {
    if |k| <= |s| {
      if s[..|k|] == k {
        assert OccursAt(s, k, 0);
      } else {
        ContainsIffOccurs(s[1..], k);
        if exists i :: OccursAt(s, k, i) {
          var i :| OccursAt(s, k, i);
          assert i != 0;
          assert OccursAt(s[1..], k, i - 1) by {
            assert s[1..][i - 1..i - 1 + |k|] == s[i..i + |k|];
          }
        }
        if Contains(s[1..], k) {
          var j :| OccursAt(s[1..], k, j);
          assert OccursAt(s, k, j + 1) by {
            assert s[1..][j..j + |k|] == s[j + 1..j + 1 + |k|];
          }
        }
      }
    }
  }

  /** Whoever contains a word contains each of its prefixes. */
  lemma {:induction false} ContainsPrefix(s: string, k: string, p: string)
    requires Contains(s, k) && StartsWith(k, p)
    ensures Contains(s, p)
  {
    if s[..|k|] == k {
      assert s[..|p|] == k[..|p|];
    } else {
      ContainsPrefix(s[1..], k, p);
    }
  }

  /** `toLowerCase`, restricted to the ASCII letters. */
  function LowerChar(c: char): char {
    if 'A' <= c <= 'Z' then (c as int + 32) as char else c
  }

  function Lower(s: string): (r: string)
    ensures |r| == |s|
    ensures forall i :: 0 <= i < |s| ==> r[i] == LowerChar(s[i])
  {
    seq(|s|, i requires 0 <= i < |s| => LowerChar(s[i]))
  }

  /** Lowering distributes over concatenation. */
  lemma LowerAppend(a: string, b: string)
    ensures Lower(a + b) == Lower(a) + Lower(b)
  {
  }

  /** `s.split(sep)`: the pieces between occurrences of `sep`; always at least one piece. */
  function Split(s: string, sep: char): (r: seq<string>)
    ensures |r| >= 1
    ensures forall i :: 0 <= i < |r| ==> sep !in r[i]
  {
    if s == [] then [""]
    else
      var rest := Split(s[1..], sep);
      if s[0] == sep then [""] + rest
      else [[s[0]] + rest[0]] + rest[1..]
  }

  /** `parts.join(sep)`. */
  function Join(parts: seq<string>, sep: char): string
  {
    if parts == [] then ""
    else if |parts| == 1 then parts[0]
    else parts[0] + [sep] + Join(parts[1..], sep)
  }

  /** Joining the pieces of a split with the same separator gives back the original text. */
  lemma {:induction false} JoinSplit(s: string, sep: char)
    ensures Join(Split(s, sep), sep) == s
  {
    if s != [] {
      var rest := Split(s[1..], sep);
      JoinSplit(s[1..], sep);
      if s[0] == sep {
        assert Join([""] + rest, sep) == "" + [sep] + Join(rest, sep);
      } else {
        var parts := [[s[0]] + rest[0]] + rest[1..];
        if |rest| == 1 {
          assert Join(parts, sep) == [s[0]] + rest[0];
        } else {
          assert parts[1..] == rest[1..];
          assert Join(parts, sep) == [s[0]] + rest[0] + [sep] + Join(rest[1..], sep);
          assert Join(rest, sep) == rest[0] + [sep] + Join(rest[1..], sep);
        }
      }
    }
  }

  /** The text before the first `sep`, or all of it. */
  function Before(s: string, sep: char): (r: string)
    ensures StartsWith(s, r) && sep !in r
    ensures |r| < |s| ==> s[|r|] == sep
  {
    if s == [] || s[0] == sep then "" else [s[0]] + Before(s[1..], sep)
  }

  /** The text after the first `sep`, or empty when there is none. */
  function After(s: string, sep: char): (r: string)
    ensures sep in s ==> s == Before(s, sep) + [sep] + r
    ensures sep !in s ==> r == ""
  {
    if |Before(s, sep)| < |s| then s[|Before(s, sep)| + 1..] else ""
  }

  /** The first separator at position `i` splits the text into `s[..i]` and `s[i + 1..]`. */
  lemma BeforeAfterAt(s: string, sep: char, i: nat)
    requires i <= |s| && sep !in s[..i]
    requires i < |s| ==> s[i] == sep
    ensures Before(s, sep) == s[..i]
    ensures After(s, sep) == if i < |s| then s[i + 1..] else ""
  {
    BeforeAt(s, sep, i);
  }

  lemma {:induction false} BeforeAt(s: string, sep: char, i: nat)
    requires i <= |s| && sep !in s[..i]
    requires i < |s| ==> s[i] == sep
    ensures Before(s, sep) == s[..i]
  {
    if i > 0 {
      assert s[0] == s[..i][0];
      assert s[1..][..i - 1] == s[..i][1..];
      BeforeAt(s[1..], sep, i - 1);
      assert s[..i] == [s[0]] + s[1..][..i - 1];
    }
  }

  /** Destructuring `[head, ...rest] = s.split(sep)`: the head is the text before the first
      separator and the rest, joined back, is exactly the text after it. */
  lemma SplitHeadRest(s: string, sep: char)
    ensures Split(s, sep)[0] == Before(s, sep)
    ensures Join(Split(s, sep)[1..], sep) == After(s, sep)
  {
    var parts := Split(s, sep);
    JoinSplit(s, sep);
    SplitHeadRestAux(s, sep);
    if |parts| == 1 {
      assert s == parts[0];
      assert sep !in s;
    } else {
      assert s == parts[0] + [sep] + Join(parts[1..], sep);
      assert sep in s by { assert s[|parts[0]|] == sep; }
      assert |Before(s, sep)| == |parts[0]|;
    }
  }

  lemma {:induction false} SplitHeadRestAux(s: string, sep: char)
    ensures Split(s, sep)[0] == Before(s, sep)
  {
    if s != [] && s[0] != sep {
      SplitHeadRestAux(s[1..], sep);
    }
  }

  /** Length in UTF-16 code units: characters outside the Basic Multilingual Plane count twice. */
  function Utf16Units(c: char): nat {
    if c as int > 0xFFFF then 2 else 1
  }

  function Utf16Length(s: string): (n: nat)
    ensures |s| <= n <= 2 * |s|
  {
    if s == [] then 0 else Utf16Units(s[0]) + Utf16Length(s[1..])
  }

  lemma {:induction false} Utf16LengthAppend(a: string, b: string)
    ensures Utf16Length(a + b) == Utf16Length(a) + Utf16Length(b)
  {
    if a != [] {
      assert (a + b)[0] == a[0];
      assert (a + b)[1..] == a[1..] + b;
      Utf16LengthAppend(a[1..], b);
    } else {
      assert a + b == b;
    }
  }

  /** `s.slice(0, n)` in UTF-16 units, kept to whole characters: the longest prefix of `s`
      whose UTF-16 length is at most `n`. */
  function Utf16Prefix(s: string, n: nat): (r: string)
    ensures StartsWith(s, r)
    ensures Utf16Length(r) <= n
    ensures Utf16Length(s) <= n ==> r == s
    ensures |r| < |s| ==> Utf16Length(r) + Utf16Units(s[|r|]) > n
  {
    if s == [] || Utf16Units(s[0]) > n then ""
    else
      var rest := Utf16Prefix(s[1..], n - Utf16Units(s[0]));
      [s[0]] + rest
  }

  /** Decimal rendering of a natural number, as template literals print an index. */
  function NatToString(n: nat): (r: string)
    ensures |r| >= 1
    ensures n >= 10 ==> |r| >= 2
    decreases n
  {
    if n < 10 then [DigitChar(n)] else NatToString(n / 10) + [DigitChar(n % 10)]
  }

  function DigitChar(d: nat): char
    requires d < 10
  {
    ('0' as int + d) as char
  }

  /** Distinct numbers render differently. */
  lemma {:induction false} NatToStringInjective(a: nat, b: nat)
    requires NatToString(a) == NatToString(b)
    ensures a == b
    decreases a
  {
    var s := NatToString(a);
    if a >= 10 && b >= 10 {
      assert s[|s| - 1] == DigitChar(a % 10) && s[|s| - 1] == DigitChar(b % 10);
      assert NatToString(a / 10) == s[..|s| - 1] == NatToString(b / 10);
      NatToStringInjective(a / 10, b / 10);
    }
  }
}
