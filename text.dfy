/**
 * The pieces of Python's `str` behaviour that the modelled code relies on:
 * the whitespace class of `str.isspace`, `strip`, `split`, `join`, `str(int)`,
 * slicing with a possibly negative bound, `zfill`, `ljust` and `upper`.
 */
module Text {
  import opened Base

  /** Python's `str.isspace()`, which is also what `\s` and `strip()` use. */
  predicate IsSpace(c: char) {
    var n := c as int;
    (9 <= n <= 13) || (28 <= n <= 32) || n == 0x85 || n == 0xA0 || n == 0x1680
    || (0x2000 <= n <= 0x200A) || n == 0x2028 || n == 0x2029 || n == 0x202F
    || n == 0x205F || n == 0x3000
  }

  predicate IsDigit(c: char) { '0' <= c <= '9' }

  predicate IsAsciiUpper(c: char) { 'A' <= c <= 'Z' }

  predicate IsAsciiLower(c: char) { 'a' <= c <= 'z' }

  /** `\w`, restricted to ASCII: letters, digits and the underscore. */
  predicate IsWordChar(c: char) { IsAsciiUpper(c) || IsAsciiLower(c) || IsDigit(c) || c == '_' }

  predicate AllSpace(s: string) { forall k :: 0 <= k < |s| ==> IsSpace(s[k]) }

  /** `q in t`: `t` starts with `q`, or its tail contains `q`. */
  predicate Occurs(t: string, q: string)
    decreases |t|
  {
    q <= t || (t != [] && Occurs(t[1..], q))
  }

  /** `q in t` exactly when some suffix of `t` starts with `q`. */
  lemma {:induction false} OccursIff(t: string, q: string)
    ensures Occurs(t, q) <==> exists k :: 0 <= k <= |t| && q <= t[k..]
    decreases |t|
  {
    assert t[0..] == t;
    if t != [] {
      OccursIff(t[1..], q);
      if exists k :: 0 <= k <= |t| && q <= t[k..] {
        var k :| 0 <= k <= |t| && q <= t[k..];
        if k > 0 {
          assert t[1..][k - 1..] == t[k..];
        }
      }
      if exists k :: 0 <= k <= |t| - 1 && q <= t[1..][k..] {
        var k :| 0 <= k <= |t| - 1 && q <= t[1..][k..];
        assert t[1..][k..] == t[k + 1..];
      }
    }
  }

  function LowerChar(c: char): (d: char)
    ensures IsAsciiUpper(c) ==> IsAsciiLower(d)
    ensures !IsAsciiUpper(c) ==> d == c
  {
    if IsAsciiUpper(c) then (c as int + 32) as char else c
  }

  function UpperChar(c: char): (d: char)
    ensures IsAsciiLower(c) ==> IsAsciiUpper(d)
    ensures !IsAsciiLower(c) ==> d == c
  {
    if IsAsciiLower(c) then (c as int - 32) as char else c
  }

  /** `str.upper()` on the ASCII letters; every other character is kept. */
  function Upper(s: string): (r: string)
    ensures |r| == |s|
    ensures forall k :: 0 <= k < |s| ==> r[k] == UpperChar(s[k])
  {
    seq(|s|, k requires 0 <= k < |s| => UpperChar(s[k]))
  }

  /** Number of leading whitespace characters. */
  function LeadingSpaces(s: string): (n: nat)
    ensures n <= |s| && AllSpace(s[..n])
    ensures n < |s| ==> !IsSpace(s[n])
  {
    if s == [] || !IsSpace(s[0]) then 0
    else
      var n := 1 + LeadingSpaces(s[1..]);
      assert forall k :: 1 <= k < n ==> s[..n][k] == s[1..][..n - 1][k - 1];
      n
  }

  /** Number of trailing whitespace characters. */
  function TrailingSpaces(s: string): (n: nat)
    ensures n <= |s| && AllSpace(s[|s| - n..])
    ensures n < |s| ==> !IsSpace(s[|s| - 1 - n])
  {
    if s == [] || !IsSpace(s[|s| - 1]) then 0
    else
      var init := s[..|s| - 1];
      var n := 1 + TrailingSpaces(init);
      assert forall k :: |s| - n <= k < |s| - 1 ==> s[k] == init[k];
      n
  }

  /** Neither end of `s` is whitespace. */
  predicate Trimmed(s: string) {
    s == [] || (!IsSpace(s[0]) && !IsSpace(s[|s| - 1]))
  }

  /** `str.strip()`: the infix left once the whitespace at both ends is cut off. */
  function Strip(s: string): (r: string)
    ensures Trimmed(r)
    ensures r == [] <==> AllSpace(s)
  {
    var a := LeadingSpaces(s);
    var t := s[a..];
    var b := |t| - TrailingSpaces(t);
    assert AllSpace(s) ==> a == |s|;
    t[..b]
  }

  /** The stripped text is an infix of the original with only whitespace around it. */
  lemma StripIsInfix(s: string)
    ensures exists a, b :: 0 <= a <= b <= |s| && Strip(s) == s[a..b] && AllSpace(s[..a]) && AllSpace(s[b..])
  {
    var a := LeadingSpaces(s);
    var t := s[a..];
    var b := |t| - TrailingSpaces(t);
    assert s[a..][..b] == s[a..a + b];
    assert s[a..][b..] == s[a + b..];
  }

  /** A whitespace-free infix is left unchanged by `strip()`. */
  lemma StripKeepsTrimmed(s: string)
    requires Trimmed(s)
    ensures Strip(s) == s
  {
  }

  /** An occurrence of `q` in the stripped text is an occurrence in the original text. */
  lemma StripKeepsAbsence(s: string, q: string)
    requires !Occurs(s, q)
    ensures !Occurs(Strip(s), q)
  {
    StripIsInfix(s);
    var a, b :| 0 <= a <= b <= |s| && Strip(s) == s[a..b] && AllSpace(s[..a]) && AllSpace(s[b..]);
    NoOccurrenceInSlice(s, a, b, q);
  }

  /** What does not occur in a text does not occur in a slice of it. */
  lemma NoOccurrenceInSlice(s: string, a: nat, b: nat, q: string)
    requires a <= b <= |s| && !Occurs(s, q)
    ensures !Occurs(s[a..b], q)
  {
    var r := s[a..b];
    OccursIff(s, q);
    OccursIff(r, q);
    forall k | 0 <= k <= |r| ensures !(q <= r[k..]) {
      assert r[k..] <= s[a + k..];
    }
  }

  /** `s.split(sep)` for a one-character separator: never empty, and no piece holds the separator. */
  function Split(s: string, sep: char): (parts: seq<string>)
    ensures |parts| >= 1
    ensures forall k :: 0 <= k < |parts| ==> sep !in parts[k]
  {
    if s == [] then [""]
    else if s[0] == sep then [""] + Split(s[1..], sep)
    else
      var rest := Split(s[1..], sep);
      [[s[0]] + rest[0]] + rest[1..]
  }

  /** `sep.join(parts)` */
  function Join(parts: seq<string>, sep: string): string {
    if parts == [] then ""
    else if |parts| == 1 then parts[0]
    else parts[0] + sep + Join(parts[1..], sep)
  }

  /** A join starts with the first part and ends with the last one. */
  lemma {:induction false} JoinEnds(parts: seq<string>, sep: string)
    requires |parts| >= 1
    ensures parts[0] <= Join(parts, sep)
    ensures EndsWith(Join(parts, sep), parts[|parts| - 1])
    decreases |parts|
  {
    if |parts| >= 2 {
      JoinEnds(parts[1..], sep);
      var rest := Join(parts[1..], sep);
      var last := parts[|parts| - 1];
      assert last == parts[1..][|parts[1..]| - 1];
      var r := parts[0] + sep + rest;
      assert r[|r| - |last|..] == rest[|rest| - |last|..];
    }
  }

  /** Joining one more part appends the separator and that part. */
  lemma {:induction false} JoinSnoc(parts: seq<string>, sep: string, last: string)
    requires parts != []
    ensures Join(parts + [last], sep) == Join(parts, sep) + sep + last
    decreases |parts|
  {
    if |parts| == 1 {
      assert (parts + [last])[1..] == [last];
    } else {
      assert (parts + [last])[1..] == parts[1..] + [last];
      JoinSnoc(parts[1..], sep, last);
    }
  }

  /** A join of three or more parts, with its first two parts written out. */
  lemma JoinFront(parts: seq<string>, sep: string)
    requires |parts| >= 3
    ensures Join(parts, sep) == parts[0] + sep + parts[1] + sep + Join(parts[2..], sep)
  {
    assert parts[1..][0] == parts[1] && parts[1..][1..] == parts[2..];
  }

  /** Splitting and re-joining with the same separator gives the text back. */
  lemma {:induction false} JoinSplit(s: string, sep: char)
    ensures Join(Split(s, sep), [sep]) == s
    decreases |s|
  {
    if s != [] {
      JoinSplit(s[1..], sep);
      JoinSplitCons(s[0], s[1..], sep);
      assert [s[0]] + s[1..] == s;
    }
  }

  /** One step of `JoinSplit`: putting a character in front of a text that round-trips. */
  lemma JoinSplitCons(c: char, t: string, sep: char)
    requires Join(Split(t, sep), [sep]) == t
    ensures Join(Split([c] + t, sep), [sep]) == [c] + t
  {
    var s := [c] + t;
    assert s[0] == c && s[1..] == t;
    if c == sep {
      JoinSplitAtSep(t, sep);
    } else {
      JoinSplitInPiece(c, t, sep);
    }
  }

  lemma JoinSplitAtSep(t: string, sep: char)
    requires Join(Split(t, sep), [sep]) == t
    ensures Join([""] + Split(t, sep), [sep]) == [sep] + t
  {
    var rest := Split(t, sep);
    var parts := [""] + rest;
    assert parts[1..] == rest;
  }

  lemma JoinSplitInPiece(c: char, t: string, sep: char)
    requires c != sep
    requires Join(Split(t, sep), [sep]) == t
    ensures Join(Split([c] + t, sep), [sep]) == [c] + t
  {
    var s := [c] + t;
    assert s[0] == c && s[1..] == t;
    var rest := Split(t, sep);
    var parts := [[c] + rest[0]] + rest[1..];
    assert Split(s, sep) == parts;
    if |rest| >= 2 {
      assert parts[1..] == rest[1..];
      assert Join(parts, [sep]) == [c] + (rest[0] + [sep] + Join(rest[1..], [sep]));
    }
  }

  /** A text without the separator is a single piece. */
  lemma {:induction false} SplitWithoutSep(s: string, sep: char)
    requires sep !in s
    ensures Split(s, sep) == [s]
    decreases |s|
  {
    if s != [] {
      assert s[0] in s;
      SplitWithoutSep(s[1..], sep);
      assert s == [s[0]] + s[1..];
    }
  }

  /** Splitting at the first separator: the piece before it comes first. */
  lemma {:induction false} SplitAtSep(a: string, sep: char, b: string)
    requires sep !in a
    ensures Split(a + [sep] + b, sep) == [a] + Split(b, sep)
    decreases |a|
  {
    var s := a + [sep] + b;
    if a == [] {
      assert s == [sep] + b;
      assert s[1..] == b;
    } else {
      assert a[0] in a;
      assert s[1..] == a[1..] + [sep] + b;
      SplitAtSep(a[1..], sep, b);
      assert a == [a[0]] + a[1..];
    }
  }

  /** Joining pieces that do not hold the separator and splitting again gives the pieces back. */
  lemma {:induction false} SplitJoin(parts: seq<string>, sep: char)
    requires |parts| >= 1
    requires forall k :: 0 <= k < |parts| ==> sep !in parts[k]
    ensures Split(Join(parts, [sep]), sep) == parts
    decreases |parts|
  {
    if |parts| == 1 {
      SplitWithoutSep(parts[0], sep);
    } else {
      SplitJoin(parts[1..], sep);
      SplitAtSep(parts[0], sep, Join(parts[1..], [sep]));
    }
  }

  /** The first `m` pieces of a join survive splitting when none of them holds the separator. */
  lemma {:induction false} SplitJoinHead(parts: seq<string>, sep: char, tail: string, m: nat)
    requires m < |parts|
    requires forall k :: 0 <= k < m ==> sep !in parts[k]
    ensures |Split(Join(parts, [sep]) + tail, sep)| > m
    ensures Split(Join(parts, [sep]) + tail, sep)[..m] == parts[..m]
    decreases m
  {
    if m > 0 {
      var rest := Join(parts[1..], [sep]) + tail;
      assert Join(parts, [sep]) + tail == parts[0] + [sep] + rest;
      SplitAtSep(parts[0], sep, rest);
      SplitJoinHead(parts[1..], sep, tail, m - 1);
      assert parts[..m] == [parts[0]] + parts[1..][..m - 1];
    }
  }

  /** `s.endswith(t)` */
  predicate EndsWith(s: string, t: string) {
    |t| <= |s| && s[|s| - |t|..] == t
  }

  /** A text that starts `a + b + c` starts with `a` and ends with `c`. */
  lemma PrefixOfAppend(a: string, b: string, c: string)
    ensures a <= a + b + c && EndsWith(a + b + c, c)
  {
    var s := a + b + c;
    assert s[..|a|] == a;
    assert s[|s| - |c|..] == c;
  }

  /** `s.replace(c, rep)` for a single character `c`. */
  function ReplaceChar(s: string, c: char, rep: string): string
    decreases |s|
  {
    if s == [] then []
    else (if s[0] == c then rep else [s[0]]) + ReplaceChar(s[1..], c, rep)
  }

  /** A text without `c` is left as it is. */
  lemma {:induction false} ReplaceCharFixes(s: string, c: char, rep: string)
    ensures c !in s ==> ReplaceChar(s, c, rep) == s
    decreases |s|
  {
    if s != [] && c !in s {
      assert s[0] in s;
      assert forall x :: x in s[1..] ==> x in s;
      ReplaceCharFixes(s[1..], c, rep);
      assert [s[0]] + s[1..] == s;
    }
  }

  /** When `rep` holds no `c`, no `c` is left. */
  lemma {:induction false} ReplaceCharRemoves(s: string, c: char, rep: string)
    requires c !in rep
    ensures c !in ReplaceChar(s, c, rep)
    decreases |s|
  {
    if s != [] {
      ReplaceCharRemoves(s[1..], c, rep);
    }
  }

  /** Replacing a character distributes over concatenation. */
  lemma {:induction false} ReplaceCharAppend(a: string, b: string, c: char, rep: string)
    ensures ReplaceChar(a + b, c, rep) == ReplaceChar(a, c, rep) + ReplaceChar(b, c, rep)
    decreases |a|
  {
    if a == [] {
      assert a + b == b;
    } else {
      var ab := a + b;
      assert ab[0] == a[0] && ab[1..] == a[1..] + b;
      ReplaceCharAppend(a[1..], b, c, rep);
      var head := if a[0] == c then rep else [a[0]];
      assert ReplaceChar(ab, c, rep) == head + ReplaceChar(a[1..] + b, c, rep);
      assert ReplaceChar(a, c, rep) == head + ReplaceChar(a[1..], c, rep);
    }
  }

  /** Replacing `c` in a text whose first `c` closes `a`. */
  lemma ReplaceCharAfter(a: string, c: char, b: string, rep: string)
    requires c !in a
    ensures ReplaceChar(a + [c] + b, c, rep) == a + rep + ReplaceChar(b, c, rep)
  {
    var tail := [c] + b;
    assert a + [c] + b == a + tail;
    ReplaceCharAppend(a, tail, c, rep);
    ReplaceCharFixes(a, c, rep);
    assert tail[0] == c && tail[1..] == b;
    assert ReplaceChar(tail, c, rep) == rep + ReplaceChar(b, c, rep);
  }

  /** Replacing the separator of a join by `rep` is the same as joining with `rep`. */
  lemma {:induction false} ReplaceCharJoin(parts: seq<string>, c: char, rep: string)
    requires forall k :: 0 <= k < |parts| ==> c !in parts[k]
    ensures ReplaceChar(Join(parts, [c]), c, rep) == Join(parts, rep)
    decreases |parts|
  {
    if |parts| == 1 {
      ReplaceCharFixes(parts[0], c, rep);
    } else if |parts| >= 2 {
      ReplaceCharJoin(parts[1..], c, rep);
      ReplaceCharAfter(parts[0], c, Join(parts[1..], [c]), rep);
    }
  }

  /** Python's truthiness fallback `x or default` for an optional string. */
  function OrElse(x: Option<string>, default: string): (r: string)
    ensures r == default || (x.Some? && r == x.value && r != [])
  {
    if x.Some? && x.value != [] then x.value else default
  }

  function DigitChar(d: nat): (c: char)
    requires d < 10
    ensures IsDigit(c)
  {
    ('0' as int + d) as char
  }

  /** The decimal digits of a natural number, without leading zeros. */
  function NatToString(n: nat): (r: string)
    ensures |r| >= 1 && forall k :: 0 <= k < |r| ==> IsDigit(r[k])
    ensures r[0] == '0' ==> r == "0"
  {
    if n < 10 then [DigitChar(n)] else NatToString(n / 10) + [DigitChar(n % 10)]
  }

  /** Python's `str(i)` for an `int`: a minus sign before the digits of a negative number. */
  function IntToString(i: int): (r: string)
    ensures |r| >= 1
    ensures forall k :: 0 <= k < |r| ==> IsDigit(r[k]) || r[k] == '-'
    ensures IsDigit(r[0]) <==> i >= 0
  {
    if i < 0 then "-" + NatToString(-i) else NatToString(i)
  }

  /** The value of a string of decimal digits, as `int(s)` reads it. */
  function ParseNat(s: string): nat
    requires forall k :: 0 <= k < |s| ==> IsDigit(s[k])
  {
    if s == [] then 0
    else
      assert IsDigit(s[|s| - 1]);
      ParseNat(s[..|s| - 1]) * 10 + (s[|s| - 1] as int - '0' as int)
  }

  /** Reading back the decimal text of a number gives the number. */
  lemma {:induction false} ParseNatToString(n: nat)
    ensures ParseNat(NatToString(n)) == n
  {
    if n >= 10 {
      var r := NatToString(n);
      assert r[..|r| - 1] == NatToString(n / 10);
      ParseNatToString(n / 10);
    }
  }

  /** Python's `s[:k]`, where a negative `k` counts from the end. */
  function PrefixTo(s: string, k: int): (r: string)
    ensures r <= s
    ensures 0 <= k ==> |r| == if k < |s| then k else |s|
    ensures k < 0 ==> |r| == if -k < |s| then |s| + k else 0
  {
    if 0 <= k then (if k < |s| then s[..k] else s)
    else if -k < |s| then s[..|s| + k] else []
  }

  /** Python's `s[a:b]` for bounds that are not negative. */
  function Slice(s: string, a: nat, b: nat): (r: string)
    ensures a <= b <= |s| ==> r == s[a..b]
    ensures b <= a ==> r == []
  {
    var lo := if a < |s| then a else |s|;
    var hi := if b < |s| then b else |s|;
    if hi <= lo then [] else s[lo..hi]
  }

  function Repeat(c: char, n: nat): (r: string)
    ensures |r| == n && forall k :: 0 <= k < n ==> r[k] == c
  {
    seq(n, _ => c)
  }

  /** `str.zfill(width)`: left-pad with zeros, keeping a leading sign in front. */
  function ZFill(s: string, width: nat): (r: string)
    ensures |r| == if |s| < width then width else |s|
  {
    if |s| >= width then s
    else if s != [] && (s[0] == '+' || s[0] == '-') then [s[0]] + Repeat('0', width - |s|) + s[1..]
    else Repeat('0', width - |s|) + s
  }

  /** `str.ljust(width, fill)`: right-pad with `fill`. */
  function LJust(s: string, width: nat, fill: char): (r: string)
    ensures |r| == if |s| < width then width else |s|
    ensures s <= r
  {
    if |s| >= width then s else s + Repeat(fill, width - |s|)
  }

  /** Position of the first `c` in `s`, or `|s|` when there is none. */
  function IndexOf(s: string, c: char): (i: nat)
    ensures i <= |s|
    ensures i < |s| ==> s[i] == c
    ensures c !in s[..i]
    ensures i == |s| <==> c !in s
  {
    if s == [] then 0
    else if s[0] == c then 0
    else
      var i := 1 + IndexOf(s[1..], c);
      assert s[..i] == [s[0]] + s[1..][..i - 1];
      i
  }
}
